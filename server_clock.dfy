/** The single mutable `serverClockState` of the server and the two things
    that change it: the tick driven once a second, and the HTTP and
    WebSocket command handlers. Every method assigns the fields one by one,
    as the handlers do, and is proved to produce the state the matching
    function of `ClockModel` describes. Wall-clock readings (`Date.now()`)
    arrive as the parameter `now`, in milliseconds. */
module Server {
  import opened Js
  import opened StatusQuery
  import ClockModel

  class ServerClock {
    /** `serverClockState`; its fields are the fields of `ClockState`. */
    var state: ClockModel.ClockState

    /** The object invariant: the clock shows a well-formed time, the round
        lies within 1..totalRounds, and a pause start time is recorded exactly
        while paused. */
    predicate Valid()
      reads this
    {
      ClockModel.Inv(state)
    }

    /** The state at process start (server.js:19-38). */
    constructor (now: int)
      ensures state == ClockModel.Initial(now)
      ensures Valid()
    {
      state := ClockModel.ClockState(
        minutes := 5,
        seconds := 0,
        currentRound := 1,
        totalRounds := 3,
        isRunning := false,
        isPaused := false,
        elapsedMinutes := 0,
        elapsedSeconds := 0,
        pauseStartTime := None,
        totalPausedTime := 0,
        currentPauseDuration := 0,
        isBetweenRounds := false,
        betweenRoundsMinutes := 0,
        betweenRoundsSeconds := 0,
        initialTime := ClockModel.MinSec(5, 0),
        betweenRoundsEnabled := false,
        betweenRoundsTime := 60,
        lastUpdateTime := now);
    }

    /** `updateServerClock` (server.js:105-186). */
    method UpdateServerClock()
      modifies this
      ensures state == ClockModel.Tick(old(state))
      ensures old(Valid()) ==> Valid()
    {
      if state.isBetweenRounds {
        BetweenRoundsStep();
      } else {
        CountdownStep();
      }
    }

    /** The between-rounds branch of `updateServerClock` (server.js:106-141). */
    method BetweenRoundsStep()
      requires state.isBetweenRounds
      modifies this
      ensures state == ClockModel.BetweenRoundsTick(old(state))
    {
      var newSeconds := state.betweenRoundsSeconds + 1;
      var newMinutes := if newSeconds >= 60 then state.betweenRoundsMinutes + 1 else state.betweenRoundsMinutes;
      var adjustedSeconds := if newSeconds >= 60 then 0 else newSeconds;
      var totalBetweenRoundsTime := state.betweenRoundsTime;
      var currentBetweenRoundsTime := newMinutes * 60 + adjustedSeconds;
      if currentBetweenRoundsTime >= totalBetweenRoundsTime {
        if state.currentRound < state.totalRounds {
          state := state.(currentRound := state.currentRound + 1);
          state := state.(minutes := state.initialTime.minutes);
          state := state.(seconds := state.initialTime.seconds);
          state := state.(isBetweenRounds := false);
          state := state.(betweenRoundsMinutes := 0);
          state := state.(betweenRoundsSeconds := 0);
          state := state.(elapsedMinutes := 0);
          state := state.(elapsedSeconds := 0);
          state := state.(isRunning := false);
          state := state.(isPaused := false);
          state := state.(totalPausedTime := 0);
          state := state.(currentPauseDuration := 0);
          state := state.(pauseStartTime := None);
        } else {
          state := state.(isRunning := false);
          state := state.(isBetweenRounds := false);
        }
      } else {
        state := state.(betweenRoundsMinutes := newMinutes);
        state := state.(betweenRoundsSeconds := adjustedSeconds);
        state := state.(minutes := newMinutes);
        state := state.(seconds := adjustedSeconds);
      }
    }

    /** The countdown branch of `updateServerClock` (server.js:143-184). */
    method CountdownStep()
      requires !state.isBetweenRounds
      modifies this
      ensures state == ClockModel.CountdownTick(old(state))
    {
      var newSeconds := state.seconds - 1;
      var newMinutes := if newSeconds < 0 then state.minutes - 1 else state.minutes;
      var adjustedSeconds := if newSeconds < 0 then 59 else newSeconds;
      var totalElapsed := (state.initialTime.minutes * 60 + state.initialTime.seconds) - (newMinutes * 60 + adjustedSeconds);
      var newElapsedMinutes := FloorDiv(totalElapsed, 60);
      var newElapsedSeconds := Rem(totalElapsed, 60);
      if newMinutes < 0 {
        if state.currentRound < state.totalRounds {
          if state.betweenRoundsEnabled {
            state := state.(minutes := 0);
            state := state.(seconds := 0);
            state := state.(isBetweenRounds := true);
            state := state.(betweenRoundsMinutes := 0);
            state := state.(betweenRoundsSeconds := 0);
            state := state.(elapsedMinutes := newElapsedMinutes);
            state := state.(elapsedSeconds := newElapsedSeconds);
          } else {
            state := state.(currentRound := state.currentRound + 1);
            state := state.(minutes := state.initialTime.minutes);
            state := state.(seconds := state.initialTime.seconds);
            state := state.(elapsedMinutes := 0);
            state := state.(elapsedSeconds := 0);
          }
        } else {
          state := state.(isRunning := false);
          state := state.(minutes := 0);
          state := state.(seconds := 0);
          state := state.(elapsedMinutes := newElapsedMinutes);
          state := state.(elapsedSeconds := newElapsedSeconds);
        }
      } else {
        state := state.(minutes := newMinutes);
        state := state.(seconds := adjustedSeconds);
        state := state.(elapsedMinutes := newElapsedMinutes);
        state := state.(elapsedSeconds := newElapsedSeconds);
      }
    }

    /** One run of the interval callback (server.js:90-101). */
    method IntervalTick(now: int)
      modifies this
      ensures state == ClockModel.IntervalStep(old(state), now)
      ensures old(Valid()) ==> Valid()
    {
      if state.isRunning && !state.isPaused {
        UpdateServerClock();
      }
      if state.isPaused && Truthy(state.pauseStartTime) {
        var pauseDuration := FloorDiv(now - state.pauseStartTime.value, 1000);
        state := state.(currentPauseDuration := pauseDuration);
      }
    }

    /** `POST /api/start` (server.js:211-221). */
    method Start(now: int)
      modifies this
      ensures state == ClockModel.Start(old(state), now)
      ensures old(Valid()) ==> Valid()
    {
      if state.isPaused && Truthy(state.pauseStartTime) {
        state := state.(totalPausedTime := state.totalPausedTime + FloorDiv(now - state.pauseStartTime.value, 1000));
      }
      state := state.(isRunning := true);
      state := state.(isPaused := false);
      state := state.(pauseStartTime := None);
      state := state.(currentPauseDuration := 0);
    }

    /** `POST /api/pause` (server.js:223-239), a toggle. */
    method Pause(now: int)
      modifies this
      ensures state == ClockModel.Pause(old(state), now)
      ensures old(Valid()) ==> Valid()
    {
      if state.isPaused {
        // resume
        if Truthy(state.pauseStartTime) {
          state := state.(totalPausedTime := state.totalPausedTime + FloorDiv(now - state.pauseStartTime.value, 1000));
        }
        state := state.(isPaused := false);
        state := state.(pauseStartTime := None);
        state := state.(currentPauseDuration := 0);
      } else {
        state := state.(isPaused := true);
        state := state.(pauseStartTime := Some(now));
      }
    }

    /** `POST /api/reset` (server.js:241-257). */
    method Reset()
      modifies this
      ensures state == ClockModel.Reset(old(state))
      ensures old(Valid()) ==> Valid()
    {
      state := state.(currentRound := 1);
      state := state.(minutes := state.initialTime.minutes);
      state := state.(seconds := state.initialTime.seconds);
      state := state.(isRunning := false);
      state := state.(isPaused := false);
      state := state.(elapsedMinutes := 0);
      state := state.(elapsedSeconds := 0);
      state := state.(pauseStartTime := None);
      state := state.(totalPausedTime := 0);
      state := state.(currentPauseDuration := 0);
      state := state.(isBetweenRounds := false);
      state := state.(betweenRoundsMinutes := 0);
      state := state.(betweenRoundsSeconds := 0);
    }

    /** `POST /api/reset-time` (server.js:259-271). */
    method ResetTime()
      modifies this
      ensures state == ClockModel.ResetTime(old(state))
      ensures old(Valid()) ==> Valid()
    {
      state := state.(minutes := state.initialTime.minutes);
      state := state.(seconds := state.initialTime.seconds);
      state := state.(isRunning := false);
      state := state.(isPaused := false);
      state := state.(elapsedMinutes := 0);
      state := state.(elapsedSeconds := 0);
      state := state.(pauseStartTime := None);
      state := state.(totalPausedTime := 0);
      state := state.(currentPauseDuration := 0);
    }

    /** `POST /api/reset-rounds` (server.js:273-289). */
    method ResetRounds()
      modifies this
      ensures state == ClockModel.ResetRounds(old(state))
      ensures state == ClockModel.Reset(old(state))
    {
      state := state.(currentRound := 1);
      state := state.(minutes := state.initialTime.minutes);
      state := state.(seconds := state.initialTime.seconds);
      state := state.(isRunning := false);
      state := state.(isPaused := false);
      state := state.(elapsedMinutes := 0);
      state := state.(elapsedSeconds := 0);
      state := state.(pauseStartTime := None);
      state := state.(totalPausedTime := 0);
      state := state.(currentPauseDuration := 0);
      state := state.(isBetweenRounds := false);
      state := state.(betweenRoundsMinutes := 0);
      state := state.(betweenRoundsSeconds := 0);
    }

    /** `POST /api/next-round` (server.js:291-309). */
    method NextRound()
      modifies this
      ensures state == ClockModel.NextRound(old(state))
      ensures old(Valid()) ==> Valid()
    {
      if state.currentRound < state.totalRounds {
        state := state.(currentRound := state.currentRound + 1);
        state := state.(minutes := state.initialTime.minutes);
        state := state.(seconds := state.initialTime.seconds);
        state := state.(elapsedMinutes := 0);
        state := state.(elapsedSeconds := 0);
        state := state.(isRunning := false);
        state := state.(isPaused := false);
        state := state.(totalPausedTime := 0);
        state := state.(currentPauseDuration := 0);
        state := state.(pauseStartTime := None);
        state := state.(isBetweenRounds := false);
        state := state.(betweenRoundsMinutes := 0);
        state := state.(betweenRoundsSeconds := 0);
      }
    }

    /** `POST /api/previous-round` (server.js:311-329). */
    method PreviousRound()
      modifies this
      ensures state == ClockModel.PreviousRound(old(state))
      ensures old(Valid()) ==> Valid()
    {
      if state.currentRound > 1 {
        state := state.(currentRound := state.currentRound - 1);
        state := state.(minutes := state.initialTime.minutes);
        state := state.(seconds := state.initialTime.seconds);
        state := state.(elapsedMinutes := 0);
        state := state.(elapsedSeconds := 0);
        state := state.(isRunning := false);
        state := state.(isPaused := false);
        state := state.(totalPausedTime := 0);
        state := state.(currentPauseDuration := 0);
        state := state.(pauseStartTime := None);
        state := state.(isBetweenRounds := false);
        state := state.(betweenRoundsMinutes := 0);
        state := state.(betweenRoundsSeconds := 0);
      }
    }

    /** `POST /api/set-time` (server.js:331-345); absent body fields are `None`. */
    method SetTime(newMinutes: Option<int>, newSeconds: Option<int>)
      modifies this
      ensures state == ClockModel.SetTime(old(state), newMinutes, newSeconds)
      ensures old(Valid()) && ClockModel.WellFormed(OrDefault(newMinutes, 5), OrDefault(newSeconds, 0)) ==> Valid()
    {
      state := state.(initialTime := ClockModel.MinSec(OrDefault(newMinutes, 5), OrDefault(newSeconds, 0)));
      state := state.(minutes := OrDefault(newMinutes, 5));
      state := state.(seconds := OrDefault(newSeconds, 0));
      state := state.(elapsedMinutes := 0);
      state := state.(elapsedSeconds := 0);
      state := state.(isRunning := false);
      state := state.(isPaused := false);
      state := state.(totalPausedTime := 0);
      state := state.(currentPauseDuration := 0);
      state := state.(pauseStartTime := None);
    }

    /** `POST /api/set-rounds` (server.js:347-353). */
    method SetRounds(rounds: Option<int>)
      modifies this
      ensures state == ClockModel.SetRounds(old(state), rounds)
      ensures old(Valid()) ==> (Valid() <==> OrDefault(rounds, 3) >= 1)
    {
      state := state.(totalRounds := OrDefault(rounds, 3));
      state := state.(currentRound := 1);
    }

    /** `POST /api/set-between-rounds` (server.js:355-360). */
    method SetBetweenRounds(enabled: Option<bool>, time: Option<int>)
      modifies this
      ensures state == ClockModel.SetBetweenRounds(old(state), enabled, time)
      ensures old(Valid()) ==> Valid()
    {
      state := state.(betweenRoundsEnabled := OrFalse(enabled));
      state := state.(betweenRoundsTime := OrDefault(time, 60));
    }

    /** The `sync-settings` WebSocket message (server.js:195-201). */
    method SyncSettings(newInitialTime: Option<ClockModel.MinSec>, newTotalRounds: Option<int>,
                        enabled: Option<bool>, time: Option<int>)
      modifies this
      ensures state == ClockModel.SyncSettings(old(state), newInitialTime, newTotalRounds, enabled, time)
    {
      state := state.(initialTime := if newInitialTime.Some? then newInitialTime.value else state.initialTime);
      state := state.(totalRounds := OrDefault(newTotalRounds, state.totalRounds));
      state := state.(betweenRoundsEnabled := OrFalse(enabled));
      state := state.(betweenRoundsTime := OrDefault(time, 60));
    }

    /** `GET /api/status` (server.js:378-400). With a non-empty `fields`
        parameter the body holds exactly the requested names that are fields
        of the state, each with its current value; otherwise the whole state
        plus the server time. */
    method Status(fields: Option<string>, now: int) returns (body: map<string, Json>)
      ensures body == ClockModel.StatusBody(state, fields, now)
    {
      var snapshot := ClockModel.ToJson(state);
      if fields.Some? && fields.value != [] {
        var requested := RequestedFields(fields.value);
        body := CopyRequested(snapshot, requested);
      } else {
        body := snapshot + ClockModel.ExtraMembers(now);
      }
    }
  }
}
