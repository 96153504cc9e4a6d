/** The authoritative round clock of the server, as values: the record
    `serverClockState` and, for each way the server changes it, a function
    from the old record (and the request's payload, and the wall-clock time
    `now` in milliseconds where the handler reads `Date.now()`) to the new one.
    The class `Server.ServerClock` performs the same updates in place. */
module ClockModel {
  import opened Js
  import opened StatusQuery

  /** A `{minutes, seconds}` pair, as `initialTime` holds it. */
  datatype MinSec = MinSec(minutes: int, seconds: int)

  /** One value of `serverClockState` (server.js:19-38), field for field. */
  datatype ClockState = ClockState(
    minutes: int,
    seconds: int,
    currentRound: int,
    totalRounds: int,
    isRunning: bool,
    isPaused: bool,
    elapsedMinutes: int,
    elapsedSeconds: int,
    pauseStartTime: Option<int>,
    totalPausedTime: int,
    currentPauseDuration: int,
    isBetweenRounds: bool,
    betweenRoundsMinutes: int,
    betweenRoundsSeconds: int,
    initialTime: MinSec,
    betweenRoundsEnabled: bool,
    betweenRoundsTime: int,
    lastUpdateTime: int)

  function Total(t: MinSec): int {
    t.minutes * 60 + t.seconds
  }

  /** Time shown on the clock, in seconds: what is left of the round, or the
      between-rounds counter while that counts up. */
  function Remaining(c: ClockState): int {
    c.minutes * 60 + c.seconds
  }

  function Elapsed(c: ClockState): int {
    c.elapsedMinutes * 60 + c.elapsedSeconds
  }

  function BreakCounter(c: ClockState): int {
    c.betweenRoundsMinutes * 60 + c.betweenRoundsSeconds
  }

  function RoundLength(c: ClockState): int {
    Total(c.initialTime)
  }

  /** A minutes/seconds pair as a clock shows it: seconds in 0..59, no
      negative minutes. */
  predicate WellFormed(m: int, s: int) {
    m >= 0 && 0 <= s <= 59
  }

  /** The invariant the handlers and the tick keep. */
  predicate Inv(c: ClockState) {
    && WellFormed(c.minutes, c.seconds)
    && WellFormed(c.initialTime.minutes, c.initialTime.seconds)
    && WellFormed(c.betweenRoundsMinutes, c.betweenRoundsSeconds)
    && 1 <= c.currentRound <= c.totalRounds
    && (c.pauseStartTime.Some? <==> c.isPaused)
  }

  /** The configuration fields: only set-time, set-rounds, set-between-rounds
      and sync-settings change them. */
  predicate SameSettings(c: ClockState, r: ClockState) {
    && r.initialTime == c.initialTime
    && r.totalRounds == c.totalRounds
    && r.betweenRoundsEnabled == c.betweenRoundsEnabled
    && r.betweenRoundsTime == c.betweenRoundsTime
    && r.lastUpdateTime == c.lastUpdateTime
  }

  /** The pause-accounting fields. */
  predicate SamePause(c: ClockState, r: ClockState) {
    && r.isPaused == c.isPaused
    && r.pauseStartTime == c.pauseStartTime
    && r.totalPausedTime == c.totalPausedTime
    && r.currentPauseDuration == c.currentPauseDuration
  }

  /** The displayed time, the round and the between-rounds counter. */
  predicate SameProgress(c: ClockState, r: ClockState) {
    && r.minutes == c.minutes && r.seconds == c.seconds
    && r.elapsedMinutes == c.elapsedMinutes && r.elapsedSeconds == c.elapsedSeconds
    && r.currentRound == c.currentRound
    && r.isBetweenRounds == c.isBetweenRounds
    && r.betweenRoundsMinutes == c.betweenRoundsMinutes
    && r.betweenRoundsSeconds == c.betweenRoundsSeconds
  }

  /** No pause in progress and no paused time accumulated. */
  predicate PauseCleared(r: ClockState) {
    !r.isPaused && r.pauseStartTime == None && r.totalPausedTime == 0 && r.currentPauseDuration == 0
  }

  /** A stopped clock at the start of a round: the full round length shown,
      nothing elapsed, no pause, no between-rounds interval. */
  predicate FreshRound(r: ClockState, init: MinSec) {
    && MinSec(r.minutes, r.seconds) == init
    && r.elapsedMinutes == 0 && r.elapsedSeconds == 0
    && !r.isRunning && PauseCleared(r)
    && !r.isBetweenRounds && r.betweenRoundsMinutes == 0 && r.betweenRoundsSeconds == 0
  }

  /** The record a fresh server process starts with (server.js:19-38). */
  function Initial(now: int): (c: ClockState)
    ensures Inv(c) && FreshRound(c, c.initialTime)
    ensures c.initialTime == MinSec(5, 0) && c.currentRound == 1 && c.totalRounds == 3
    ensures !c.betweenRoundsEnabled && c.betweenRoundsTime == 60 && c.lastUpdateTime == now
  {
    ClockState(5, 0, 1, 3, false, false, 0, 0, None, 0, 0, false, 0, 0, MinSec(5, 0), false, 60, now)
  }

  // ---------------------------------------------------------------------
  // The tick (server.js:105-186)
  // ---------------------------------------------------------------------

  /** What the countdown branch stores as elapsed: `initialTime` minus the
      new remaining time, split with `Math.floor(t / 60)` and `t % 60`
      (server.js:148-150). Exact whenever that difference is not negative;
      `ElapsedAfterNegative` states the other case. */
  function ElapsedAfter(init: MinSec, remaining: MinSec): (e: MinSec)
    ensures Total(init) - Total(remaining) >= 0 ==>
      Total(e) == Total(init) - Total(remaining) && 0 <= e.seconds < 60
  {
    var totalElapsed := Total(init) - Total(remaining);
    MinSec(FloorDiv(totalElapsed, 60), Rem(totalElapsed, 60))
  }

  /** More left than the round length: floor and truncation disagree, the
      seconds are not positive, and a minute is lost unless the excess is
      whole minutes. */
  lemma ElapsedAfterNegative(init: MinSec, remaining: MinSec)
    ensures var e := ElapsedAfter(init, remaining);
      Total(init) - Total(remaining) < 0 ==>
        && Total(e) == Total(init) - Total(remaining)
                       - (if (Total(remaining) - Total(init)) % 60 == 0 then 0 else 60)
        && -60 < e.seconds <= 0
  {
    NegativeSplit(Total(init) - Total(remaining));
  }

  /** `Math.floor(x / 60)` minutes and `x % 60` seconds of a negative `x`
      add up to `x` only when `x` is whole minutes, and to a minute less
      otherwise. */
  lemma NegativeSplit(x: int)
    ensures x < 0 ==>
      60 * FloorDiv(x, 60) + Rem(x, 60) == x - (if (-x) % 60 == 0 then 0 else 60)
  {
    if x < 0 {
      var y := -x;
      var q := y / 60;
      var m := y % 60;
      assert y == 60 * q + m;
      if m == 0 {
        assert FloorDiv(x, 60) == -q;
      } else {
        assert FloorDiv(x, 60) == -q - 1;
      }
    }
  }

  /** One second of the round countdown (server.js:143-184). When the clock
      already shows 0:00 the round is over: the between-rounds interval
      starts, the next round starts, or the clock stops after the last round. */
  function CountdownTick(c: ClockState): (r: ClockState)
    requires !c.isBetweenRounds
    ensures SamePause(c, r) && SameSettings(c, r)
    ensures Inv(c) ==> Inv(r)
    // the between-rounds counter is only touched when the interval starts
    ensures !r.isBetweenRounds ==>
      r.betweenRoundsMinutes == c.betweenRoundsMinutes && r.betweenRoundsSeconds == c.betweenRoundsSeconds
    // the round-complete edge: the clock showed 0:00; each branch names the
    // fields it changes and keeps all others
    ensures WellFormed(c.minutes, c.seconds) && Remaining(c) == 0 ==>
      if c.currentRound < c.totalRounds && c.betweenRoundsEnabled then
        && r == c.(minutes := 0, seconds := 0, isBetweenRounds := true,
                   betweenRoundsMinutes := 0, betweenRoundsSeconds := 0,
                   elapsedMinutes := r.elapsedMinutes, elapsedSeconds := r.elapsedSeconds)
        && (RoundLength(c) >= 0 ==> Elapsed(r) == RoundLength(c) + 1 && 0 <= r.elapsedSeconds < 60)
      else if c.currentRound < c.totalRounds then
        && r == c.(currentRound := r.currentRound, minutes := r.minutes, seconds := r.seconds,
                   elapsedMinutes := r.elapsedMinutes, elapsedSeconds := r.elapsedSeconds)
        && r.currentRound == c.currentRound + 1
        && MinSec(r.minutes, r.seconds) == c.initialTime
        && r.elapsedMinutes == 0 && r.elapsedSeconds == 0
      else
        && r == c.(isRunning := r.isRunning, minutes := r.minutes, seconds := r.seconds,
                   elapsedMinutes := r.elapsedMinutes, elapsedSeconds := r.elapsedSeconds)
        && !r.isRunning && r.minutes == 0 && r.seconds == 0
        && (RoundLength(c) >= 0 ==> Elapsed(r) == RoundLength(c) + 1 && 0 <= r.elapsedSeconds < 60)
  {
    var newSeconds := c.seconds - 1;
    var newMinutes := if newSeconds < 0 then c.minutes - 1 else c.minutes;
    var adjustedSeconds := if newSeconds < 0 then 59 else newSeconds;
    var elapsed := ElapsedAfter(c.initialTime, MinSec(newMinutes, adjustedSeconds));
    if newMinutes < 0 then
      if c.currentRound < c.totalRounds then
        if c.betweenRoundsEnabled then
          c.(minutes := 0, seconds := 0, isBetweenRounds := true,
             betweenRoundsMinutes := 0, betweenRoundsSeconds := 0,
             elapsedMinutes := elapsed.minutes, elapsedSeconds := elapsed.seconds)
        else
          c.(currentRound := c.currentRound + 1,
             minutes := c.initialTime.minutes, seconds := c.initialTime.seconds,
             elapsedMinutes := 0, elapsedSeconds := 0)
      else
        c.(isRunning := false, minutes := 0, seconds := 0,
           elapsedMinutes := elapsed.minutes, elapsedSeconds := elapsed.seconds)
    else
      c.(minutes := newMinutes, seconds := adjustedSeconds,
         elapsedMinutes := elapsed.minutes, elapsedSeconds := elapsed.seconds)
  }

  /** One second of the between-rounds interval (server.js:106-141): the
      counter goes up by one second and is mirrored into the displayed time;
      once it reaches `betweenRoundsTime` the next round is set up exactly as
      `next-round` sets it up (stopped), or, after the last round, the clock
      stops. */
  function BetweenRoundsTick(c: ClockState): (r: ClockState)
    requires c.isBetweenRounds
    ensures SameSettings(c, r)
    ensures Inv(c) ==> Inv(r)
    ensures WellFormed(c.betweenRoundsMinutes, c.betweenRoundsSeconds) ==>
      if BreakCounter(c) + 1 < c.betweenRoundsTime then
        // only the counter and the display mirroring it change
        && r == c.(betweenRoundsMinutes := r.betweenRoundsMinutes, betweenRoundsSeconds := r.betweenRoundsSeconds,
                   minutes := r.betweenRoundsMinutes, seconds := r.betweenRoundsSeconds)
        && r.isBetweenRounds && BreakCounter(r) == BreakCounter(c) + 1
        && WellFormed(r.betweenRoundsMinutes, r.betweenRoundsSeconds)
      else if c.currentRound < c.totalRounds then
        && r.currentRound == c.currentRound + 1 && FreshRound(r, c.initialTime)
        && r == NextRound(c)
      else
        // only the two flags change
        && r == c.(isRunning := r.isRunning, isBetweenRounds := r.isBetweenRounds)
        && !r.isRunning && !r.isBetweenRounds
  {
    var newSeconds := c.betweenRoundsSeconds + 1;
    var newMinutes := if newSeconds >= 60 then c.betweenRoundsMinutes + 1 else c.betweenRoundsMinutes;
    var adjustedSeconds := if newSeconds >= 60 then 0 else newSeconds;
    if newMinutes * 60 + adjustedSeconds >= c.betweenRoundsTime then
      if c.currentRound < c.totalRounds then
        c.(currentRound := c.currentRound + 1,
           minutes := c.initialTime.minutes, seconds := c.initialTime.seconds,
           isBetweenRounds := false, betweenRoundsMinutes := 0, betweenRoundsSeconds := 0,
           elapsedMinutes := 0, elapsedSeconds := 0,
           isRunning := false, isPaused := false,
           totalPausedTime := 0, currentPauseDuration := 0, pauseStartTime := None)
      else
        c.(isRunning := false, isBetweenRounds := false)
    else
      c.(betweenRoundsMinutes := newMinutes, betweenRoundsSeconds := adjustedSeconds,
         minutes := newMinutes, seconds := adjustedSeconds)
  }

  /** `updateServerClock` (server.js:105-186). The round only ever moves up
      by one and only from below `totalRounds`; the pause flag is never set. */
  function Tick(c: ClockState): (r: ClockState)
    ensures SameSettings(c, r)
    ensures Inv(c) ==> Inv(r)
    ensures r.currentRound == c.currentRound || (c.currentRound < c.totalRounds && r.currentRound == c.currentRound + 1)
    ensures r.isPaused ==> c.isPaused
  {
    if c.isBetweenRounds then BetweenRoundsTick(c) else CountdownTick(c)
  }

  /** One run of the 1 Hz interval driver (server.js:90-101): a tick while
      running and not paused; while paused, only the current pause duration
      is brought up to date. */
  function IntervalStep(c: ClockState, now: int): (r: ClockState)
    ensures c.isRunning && !c.isPaused ==> r == Tick(c)
    ensures c.isPaused ==> r == c.(currentPauseDuration := r.currentPauseDuration)
    ensures c.isPaused && Truthy(c.pauseStartTime) ==>
      r.currentPauseDuration == FloorDiv(now - c.pauseStartTime.value, 1000)
    ensures c.isPaused && !Truthy(c.pauseStartTime) ==> r == c
    ensures !c.isRunning && !c.isPaused ==> r == c
    ensures Inv(c) ==> Inv(r)
  {
    var ticked := if c.isRunning && !c.isPaused then Tick(c) else c;
    if ticked.isPaused && Truthy(ticked.pauseStartTime) then
      ticked.(currentPauseDuration := FloorDiv(now - ticked.pauseStartTime.value, 1000))
    else
      ticked
  }

  // ---------------------------------------------------------------------
  // The command handlers (server.js:195-201, 211-360)
  // ---------------------------------------------------------------------

  /** Whole seconds of the pause in progress, as start and resume add them to
      `totalPausedTime`: nothing unless paused with a truthy start time. */
  function FoldedPause(c: ClockState, now: int): (secs: int)
    ensures c.isPaused && Truthy(c.pauseStartTime) ==>
      1000 * secs <= now - c.pauseStartTime.value < 1000 * secs + 1000
    ensures !(c.isPaused && Truthy(c.pauseStartTime)) ==> secs == 0
  {
    if c.isPaused && Truthy(c.pauseStartTime) then FloorDiv(now - c.pauseStartTime.value, 1000) else 0
  }

  /** `POST /api/start` (server.js:211-221): running, unpaused, the pause in
      progress folded into the total; time, round and settings untouched. */
  function Start(c: ClockState, now: int): (r: ClockState)
    ensures r.isRunning && !r.isPaused && r.pauseStartTime == None && r.currentPauseDuration == 0
    ensures r.totalPausedTime == c.totalPausedTime + FoldedPause(c, now)
    ensures SameProgress(c, r) && SameSettings(c, r)
    ensures Inv(c) ==> Inv(r)
  {
    var total := if c.isPaused && Truthy(c.pauseStartTime)
      then c.totalPausedTime + FloorDiv(now - c.pauseStartTime.value, 1000)
      else c.totalPausedTime;
    c.(totalPausedTime := total, isRunning := true, isPaused := false,
       pauseStartTime := None, currentPauseDuration := 0)
  }

  /** `POST /api/pause` (server.js:223-239), a toggle. Pausing records `now`;
      resuming folds the pause into the total as start does. */
  function Pause(c: ClockState, now: int): (r: ClockState)
    ensures r.isPaused == !c.isPaused
    ensures c.isPaused ==>
      && r.pauseStartTime == None && r.currentPauseDuration == 0
      && r.totalPausedTime == c.totalPausedTime + FoldedPause(c, now)
    ensures !c.isPaused ==>
      && r.pauseStartTime == Some(now)
      && r.totalPausedTime == c.totalPausedTime && r.currentPauseDuration == c.currentPauseDuration
    ensures r.isRunning == c.isRunning && SameProgress(c, r) && SameSettings(c, r)
    ensures Inv(c) ==> Inv(r)
  {
    if c.isPaused then
      var total := if Truthy(c.pauseStartTime)
        then c.totalPausedTime + FloorDiv(now - c.pauseStartTime.value, 1000)
        else c.totalPausedTime;
      c.(totalPausedTime := total, isPaused := false, pauseStartTime := None, currentPauseDuration := 0)
    else
      c.(isPaused := true, pauseStartTime := Some(now))
  }

  /** `POST /api/reset` (server.js:241-257): back to a stopped round 1. */
  function Reset(c: ClockState): (r: ClockState)
    ensures r.currentRound == 1 && FreshRound(r, c.initialTime) && SameSettings(c, r)
    ensures Inv(c) ==> Inv(r)
  {
    c.(currentRound := 1,
       minutes := c.initialTime.minutes, seconds := c.initialTime.seconds,
       isRunning := false, isPaused := false,
       elapsedMinutes := 0, elapsedSeconds := 0,
       pauseStartTime := None, totalPausedTime := 0, currentPauseDuration := 0,
       isBetweenRounds := false, betweenRoundsMinutes := 0, betweenRoundsSeconds := 0)
  }

  /** `POST /api/reset-time` (server.js:259-271): what reset does, except that
      the round and the between-rounds flag and counter are kept. */
  function ResetTime(c: ClockState): (r: ClockState)
    ensures r == Reset(c).(currentRound := c.currentRound, isBetweenRounds := c.isBetweenRounds,
                            betweenRoundsMinutes := c.betweenRoundsMinutes,
                            betweenRoundsSeconds := c.betweenRoundsSeconds)
    ensures Inv(c) ==> Inv(r)
  {
    c.(minutes := c.initialTime.minutes, seconds := c.initialTime.seconds,
       isRunning := false, isPaused := false,
       elapsedMinutes := 0, elapsedSeconds := 0,
       pauseStartTime := None, totalPausedTime := 0, currentPauseDuration := 0)
  }

  /** `POST /api/reset-rounds` (server.js:273-289): the same state as reset. */
  function ResetRounds(c: ClockState): (r: ClockState)
    ensures r == Reset(c)
  {
    c.(currentRound := 1,
       minutes := c.initialTime.minutes, seconds := c.initialTime.seconds,
       isRunning := false, isPaused := false,
       elapsedMinutes := 0, elapsedSeconds := 0,
       pauseStartTime := None, totalPausedTime := 0, currentPauseDuration := 0,
       isBetweenRounds := false, betweenRoundsMinutes := 0, betweenRoundsSeconds := 0)
  }

  /** `POST /api/next-round` (server.js:291-309): below the last round, a
      stopped fresh next round; at or past it, nothing changes. */
  function NextRound(c: ClockState): (r: ClockState)
    ensures c.currentRound < c.totalRounds ==> r.currentRound == c.currentRound + 1 && FreshRound(r, c.initialTime)
    ensures c.currentRound >= c.totalRounds ==> r == c
    ensures SameSettings(c, r)
    ensures Inv(c) ==> Inv(r)
  {
    if c.currentRound < c.totalRounds then
      c.(currentRound := c.currentRound + 1,
         minutes := c.initialTime.minutes, seconds := c.initialTime.seconds,
         elapsedMinutes := 0, elapsedSeconds := 0,
         isRunning := false, isPaused := false,
         totalPausedTime := 0, currentPauseDuration := 0, pauseStartTime := None,
         isBetweenRounds := false, betweenRoundsMinutes := 0, betweenRoundsSeconds := 0)
    else
      c
  }

  /** `POST /api/previous-round` (server.js:311-329): above round 1, a stopped
      fresh previous round; at round 1 or below, nothing changes. */
  function PreviousRound(c: ClockState): (r: ClockState)
    ensures c.currentRound > 1 ==> r.currentRound == c.currentRound - 1 && FreshRound(r, c.initialTime)
    ensures c.currentRound <= 1 ==> r == c
    ensures SameSettings(c, r)
    ensures Inv(c) ==> Inv(r)
  {
    if c.currentRound > 1 then
      c.(currentRound := c.currentRound - 1,
         minutes := c.initialTime.minutes, seconds := c.initialTime.seconds,
         elapsedMinutes := 0, elapsedSeconds := 0,
         isRunning := false, isPaused := false,
         totalPausedTime := 0, currentPauseDuration := 0, pauseStartTime := None,
         isBetweenRounds := false, betweenRoundsMinutes := 0, betweenRoundsSeconds := 0)
    else
      c
  }

  /** `POST /api/set-time` (server.js:331-345): the displayed time and the
      round length both become the requested time, minutes defaulting to 5
      when absent or 0 and seconds to 0 when absent; the clock is stopped and
      the pause accounting cleared. Accepted while running too. */
  function SetTime(c: ClockState, minutes: Option<int>, seconds: Option<int>): (r: ClockState)
    ensures r.initialTime == MinSec(r.minutes, r.seconds)
    ensures r.minutes == (if minutes.Some? && minutes.value != 0 then minutes.value else 5)
    ensures r.seconds == (if seconds.Some? then seconds.value else 0)
    ensures r.elapsedMinutes == 0 && r.elapsedSeconds == 0 && !r.isRunning && PauseCleared(r)
    ensures r.currentRound == c.currentRound && r.totalRounds == c.totalRounds
    ensures r.isBetweenRounds == c.isBetweenRounds && r.betweenRoundsMinutes == c.betweenRoundsMinutes
    ensures r.betweenRoundsSeconds == c.betweenRoundsSeconds
    ensures r.betweenRoundsEnabled == c.betweenRoundsEnabled && r.betweenRoundsTime == c.betweenRoundsTime
    ensures r.lastUpdateTime == c.lastUpdateTime
    ensures Inv(c) ==> (Inv(r) <==> WellFormed(r.minutes, r.seconds))
  {
    c.(initialTime := MinSec(OrDefault(minutes, 5), OrDefault(seconds, 0)),
       minutes := OrDefault(minutes, 5), seconds := OrDefault(seconds, 0),
       elapsedMinutes := 0, elapsedSeconds := 0,
       isRunning := false, isPaused := false,
       totalPausedTime := 0, currentPauseDuration := 0, pauseStartTime := None)
  }

  /** `POST /api/set-rounds` (server.js:347-353): the round count (3 when
      absent or 0) and round 1. The round bounds hold afterwards exactly when
      that count is at least 1. */
  function SetRounds(c: ClockState, rounds: Option<int>): (r: ClockState)
    ensures r.totalRounds == (if rounds.Some? && rounds.value != 0 then rounds.value else 3)
    ensures r.currentRound == 1
    ensures r == c.(totalRounds := r.totalRounds, currentRound := 1)
    ensures Inv(c) ==> (Inv(r) <==> r.totalRounds >= 1)
  {
    c.(totalRounds := OrDefault(rounds, 3), currentRound := 1)
  }

  /** `POST /api/set-between-rounds` (server.js:355-360): enabled only when
      `enabled` is true; the interval length 60 when absent or 0. */
  function SetBetweenRounds(c: ClockState, enabled: Option<bool>, time: Option<int>): (r: ClockState)
    ensures r.betweenRoundsEnabled <==> enabled == Some(true)
    ensures r.betweenRoundsTime == (if time.Some? && time.value != 0 then time.value else 60)
    ensures r == c.(betweenRoundsEnabled := r.betweenRoundsEnabled, betweenRoundsTime := r.betweenRoundsTime)
    ensures Inv(c) ==> Inv(r)
  {
    c.(betweenRoundsEnabled := OrFalse(enabled), betweenRoundsTime := OrDefault(time, 60))
  }

  /** The `sync-settings` message (server.js:195-201): round length and round
      count replaced when given (a count of 0 keeps the old one), the
      between-rounds settings always replaced. The round is not reset, so the
      round bounds survive only if the new count is not below the round. */
  function SyncSettings(c: ClockState, initialTime: Option<MinSec>, totalRounds: Option<int>,
                        enabled: Option<bool>, time: Option<int>): (r: ClockState)
    ensures r.initialTime == (if initialTime.Some? then initialTime.value else c.initialTime)
    ensures r.totalRounds == (if totalRounds.Some? && totalRounds.value != 0 then totalRounds.value else c.totalRounds)
    ensures r.betweenRoundsEnabled <==> enabled == Some(true)
    ensures r.betweenRoundsTime == (if time.Some? && time.value != 0 then time.value else 60)
    ensures SameProgress(c, r) && SamePause(c, r) && r.isRunning == c.isRunning
    ensures r.lastUpdateTime == c.lastUpdateTime
    ensures Inv(c) ==>
      (Inv(r) <==> WellFormed(r.initialTime.minutes, r.initialTime.seconds) && c.currentRound <= r.totalRounds)
  {
    c.(initialTime := if initialTime.Some? then initialTime.value else c.initialTime,
       totalRounds := OrDefault(totalRounds, c.totalRounds),
       betweenRoundsEnabled := OrFalse(enabled),
       betweenRoundsTime := OrDefault(time, 60))
  }

  // ---------------------------------------------------------------------
  // The status query (server.js:378-400)
  // ---------------------------------------------------------------------

  /** The names of the fields of `serverClockState`. */
  const FIELD_NAMES: set<string> := {
    "minutes", "seconds", "currentRound", "totalRounds", "isRunning", "isPaused",
    "elapsedMinutes", "elapsedSeconds", "pauseStartTime", "totalPausedTime",
    "currentPauseDuration", "isBetweenRounds", "betweenRoundsMinutes",
    "betweenRoundsSeconds", "initialTime", "betweenRoundsEnabled",
    "betweenRoundsTime", "lastUpdateTime"}

  /** The fields sent as JSON booleans. */
  const BOOL_NAMES: set<string> := {"isRunning", "isPaused", "isBetweenRounds", "betweenRoundsEnabled"}

  /** `serverClockState[f]` for one of its own field names: the four flags
      as booleans, `initialTime` as a `{minutes, seconds}` object, a cleared
      `pauseStartTime` as `null`, every other field as a number. */
  function FieldValue(c: ClockState, f: string): (v: Json)
    requires f in FIELD_NAMES
    ensures v.JBool? <==> f in BOOL_NAMES
    ensures v.JTime? <==> f == "initialTime"
    ensures v.JNull? <==> f == "pauseStartTime" && c.pauseStartTime == None
    ensures !v.JString?
  {
    if f == "minutes" then JNum(c.minutes)
    else if f == "seconds" then JNum(c.seconds)
    else if f == "currentRound" then JNum(c.currentRound)
    else if f == "totalRounds" then JNum(c.totalRounds)
    else if f == "isRunning" then JBool(c.isRunning)
    else if f == "isPaused" then JBool(c.isPaused)
    else if f == "elapsedMinutes" then JNum(c.elapsedMinutes)
    else if f == "elapsedSeconds" then JNum(c.elapsedSeconds)
    else if f == "pauseStartTime" then
      (if c.pauseStartTime.Some? then JNum(c.pauseStartTime.value) else JNull)
    else if f == "totalPausedTime" then JNum(c.totalPausedTime)
    else if f == "currentPauseDuration" then JNum(c.currentPauseDuration)
    else if f == "isBetweenRounds" then JBool(c.isBetweenRounds)
    else if f == "betweenRoundsMinutes" then JNum(c.betweenRoundsMinutes)
    else if f == "betweenRoundsSeconds" then JNum(c.betweenRoundsSeconds)
    else if f == "initialTime" then JTime(c.initialTime.minutes, c.initialTime.seconds)
    else if f == "betweenRoundsEnabled" then JBool(c.betweenRoundsEnabled)
    else if f == "betweenRoundsTime" then JNum(c.betweenRoundsTime)
    else JNum(c.lastUpdateTime)
  }

  /** The state as the JSON object the server sends. */
  function ToJson(c: ClockState): (m: map<string, Json>)
    ensures m.Keys == FIELD_NAMES
    ensures forall f :: f in m ==> m[f] == FieldValue(c, f)
  {
    map f | f in FIELD_NAMES :: FieldValue(c, f)
  }

  /** The names of the three members the full status adds to the state. */
  const EXTRA_NAMES: set<string> := {"serverTime", "api_version", "connection_protocol"}

  /** The three added members: the server's clock reading and two protocol
      strings. */
  function ExtraMembers(now: int): (m: map<string, Json>)
    ensures m.Keys == EXTRA_NAMES
    ensures m["serverTime"] == JNum(now)
    ensures m["api_version"] == JString("1.0.0")
    ensures m["connection_protocol"] == JString("http_rest_websocket")
  {
    map["serverTime" := JNum(now), "api_version" := JString("1.0.0"),
        "connection_protocol" := JString("http_rest_websocket")]
  }

  /** The whole state with the added members spread after it
      (server.js:394-399). */
  function FullStatus(c: ClockState, now: int): (body: map<string, Json>)
    ensures body.Keys == FIELD_NAMES + EXTRA_NAMES
    ensures forall f :: f in FIELD_NAMES ==> body[f] == FieldValue(c, f)
    ensures body["serverTime"] == JNum(now)
    ensures body["api_version"] == JString("1.0.0")
    ensures body["connection_protocol"] == JString("http_rest_websocket")
  {
    assert FIELD_NAMES !! EXTRA_NAMES;
    ToJson(c) + ExtraMembers(now)
  }

  /** `GET /api/status` (server.js:378-400): with a non-empty `fields`
      parameter, exactly the requested own fields of the state; otherwise the
      full status. */
  function StatusBody(c: ClockState, fields: Option<string>, now: int): (body: map<string, Json>)
    ensures fields.Some? && fields.value != [] ==>
      && (forall f :: f in body <==> f in RequestedFields(fields.value) && f in FIELD_NAMES)
      && (forall f :: f in body ==> body[f] == ToJson(c)[f])
    ensures !(fields.Some? && fields.value != []) ==> body == FullStatus(c, now)
  {
    if fields.Some? && fields.value != [] then
      Filtered(ToJson(c), RequestedFields(fields.value))
    else
      FullStatus(c, now)
  }

  /** An ordinary second of the countdown: one second less on the clock, and
      elapsed plus remaining the round length, or, when more is left than
      the round length (a settings message shortened the round), short by a
      minute unless the excess is whole minutes. */
  lemma CountdownSecond(c: ClockState)
    requires !c.isBetweenRounds && WellFormed(c.minutes, c.seconds) && Remaining(c) > 0
    ensures var r := CountdownTick(c);
      && r == c.(minutes := r.minutes, seconds := r.seconds,
                 elapsedMinutes := r.elapsedMinutes, elapsedSeconds := r.elapsedSeconds)
      && Remaining(r) == Remaining(c) - 1 && WellFormed(r.minutes, r.seconds)
      && r.currentRound == c.currentRound && r.isRunning == c.isRunning && !r.isBetweenRounds
      && (Remaining(r) <= RoundLength(c) ==> Elapsed(r) + Remaining(r) == RoundLength(c) && 0 <= r.elapsedSeconds < 60)
      && (Remaining(r) > RoundLength(c) ==>
            && Elapsed(r) + Remaining(r)
               == RoundLength(c) - (if (Remaining(r) - RoundLength(c)) % 60 == 0 then 0 else 60)
            && -60 < r.elapsedSeconds <= 0)
  {
    var r := CountdownTick(c);
    if c.seconds == 0 {
      assert c.minutes >= 1;
      assert r.minutes == c.minutes - 1 && r.seconds == 59;
    } else {
      assert r.minutes == c.minutes && r.seconds == c.seconds - 1;
    }
    assert Remaining(r) == Remaining(c) - 1;
    assert MinSec(r.elapsedMinutes, r.elapsedSeconds) == ElapsedAfter(c.initialTime, MinSec(r.minutes, r.seconds));
    ElapsedAfterNegative(c.initialTime, MinSec(r.minutes, r.seconds));
  }
}
