/** Properties of whole runs of the server clock: uninterrupted ticking
    through a round and a between-rounds interval, the pause toggle, the
    invariant over any sequence of admissible commands, and the status query
    after a set-time. */
module ClockProperties {
  import opened Js
  import opened StatusQuery
  import opened ClockModel
  import ClockUtils

  /** The state after `n` uninterrupted ticks. */
  function Ticks(c: ClockState, n: nat): ClockState
    decreases n
  {
    if n == 0 then c else Ticks(Tick(c), n - 1)
  }

  /** The last of `n + 1` ticks is one tick after the first `n`. */
  lemma {:induction false} TicksSucc(c: ClockState, n: nat)
    ensures Ticks(c, n + 1) == Tick(Ticks(c, n))
    decreases n
  {
    if n > 0 {
      TicksSucc(Tick(c), n - 1);
    }
  }

  /** `a + b` ticks are `a` ticks followed by `b` ticks. */
  lemma {:induction false} TicksAdd(c: ClockState, a: nat, b: nat)
    ensures Ticks(c, a + b) == Ticks(Ticks(c, a), b)
    decreases a
  {
    if a > 0 {
      TicksAdd(Tick(c), a - 1, b);
    }
  }

  /** Within a round, `k` ticks take `k` seconds off the clock and nothing
      else of note happens: same round, still counting down, the pause and
      the settings untouched. Elapsed plus remaining is the round length, or,
      while more is left than the round length, short by a minute unless the
      excess is whole minutes. */
  lemma {:induction false} CountdownRun(c: ClockState, k: nat)
    requires Inv(c) && !c.isBetweenRounds && k <= Remaining(c)
    ensures var r := Ticks(c, k);
      && Inv(r) && Remaining(r) == Remaining(c) - k
      && r.currentRound == c.currentRound && r.isRunning == c.isRunning && !r.isBetweenRounds
      && SamePause(c, r) && SameSettings(c, r)
      && (k > 0 && Remaining(r) <= RoundLength(c) ==> Elapsed(r) + Remaining(r) == RoundLength(c))
      && (k > 0 && Remaining(r) > RoundLength(c) ==>
            Elapsed(r) + Remaining(r)
            == RoundLength(c) - (if (Remaining(r) - RoundLength(c)) % 60 == 0 then 0 else 60))
    decreases k
  {
    if k > 0 {
      CountdownSecond(c);
      var c1 := Tick(c);
      CountdownRun(c1, k - 1);
      assert RoundLength(c1) == RoundLength(c);
      assert Ticks(c, k) == Ticks(c1, k - 1);
    }
  }

  /** A round showing `Remaining(c)` seconds reaches 0:00 after that many
      ticks and ends on the tick after: the between-rounds interval starts,
      the next round starts, or the clock stops, as the settings say. */
  lemma RoundEnd(c: ClockState)
    requires Inv(c) && !c.isBetweenRounds
    ensures var z := Ticks(c, Remaining(c));
      var r := Ticks(c, Remaining(c) + 1);
      && z.minutes == 0 && z.seconds == 0 && !z.isBetweenRounds && z.currentRound == c.currentRound
      && Inv(r) && SameSettings(c, r)
      && (if c.currentRound < c.totalRounds && c.betweenRoundsEnabled then
            r.isBetweenRounds && BreakCounter(r) == 0 && r.currentRound == c.currentRound
            && r.isRunning == c.isRunning
          else if c.currentRound < c.totalRounds then
            && r.currentRound == c.currentRound + 1 && MinSec(r.minutes, r.seconds) == c.initialTime
            && r.isRunning == c.isRunning && !r.isBetweenRounds
          else
            !r.isRunning && r.minutes == 0 && r.seconds == 0 && r.currentRound == c.currentRound)
  {
    var n := Remaining(c);
    CountdownRun(c, n);
    TicksSucc(c, n);
  }

  /** `k` ticks of the between-rounds interval that stay below its length
      add `k` seconds to the counter and change nothing else of note. */
  lemma {:induction false} BreakRun(c: ClockState, k: nat)
    requires Inv(c) && c.isBetweenRounds && BreakCounter(c) + k < c.betweenRoundsTime
    ensures var r := Ticks(c, k);
      && Inv(r) && r.isBetweenRounds && BreakCounter(r) == BreakCounter(c) + k
      && r.currentRound == c.currentRound && r.isRunning == c.isRunning
      && SamePause(c, r) && SameSettings(c, r)
    decreases k
  {
    if k > 0 {
      BreakRun(Tick(c), k - 1);
    }
  }

  /** The tick that brings the between-rounds counter to its length moves
      to the next round, stopped, exactly as `next-round` would. */
  lemma BreakEnd(c: ClockState)
    requires Inv(c) && c.isBetweenRounds && BreakCounter(c) + 1 >= c.betweenRoundsTime
    requires c.currentRound < c.totalRounds
    ensures Tick(c) == NextRound(c) && !Tick(c).isRunning
  {
  }

  /** A between-rounds interval that starts at 0:00 below the last round
      ends after `betweenRoundsTime` ticks in exactly the state `next-round`
      produces from its start. */
  lemma BreakToNextRound(b: ClockState)
    requires Inv(b) && b.isBetweenRounds && BreakCounter(b) == 0 && b.betweenRoundsTime >= 1
    requires b.currentRound < b.totalRounds
    ensures Ticks(b, b.betweenRoundsTime) == NextRound(b)
  {
    var brk := b.betweenRoundsTime;
    BreakRun(b, brk - 1);
    var e := Ticks(b, brk - 1);
    assert Inv(e) && e.isBetweenRounds && BreakCounter(e) + 1 >= e.betweenRoundsTime;
    BreakEnd(e);
    TicksSucc(b, brk - 1);
    assert Ticks(b, brk) == NextRound(e);
  }

  /** A running first round of two, showing the full round length, with the
      between-rounds interval enabled: after `Total(initialTime)` ticks the
      clock shows 0:00 in round 1; the next tick starts the interval, still
      running; `betweenRoundsTime` ticks later round 2 shows the full round
      length again, but stopped, not running. */
  lemma TwoRoundRun(c: ClockState)
    requires Inv(c) && !c.isBetweenRounds && c.isRunning
    requires c.currentRound == 1 && c.totalRounds == 2 && c.betweenRoundsEnabled && c.betweenRoundsTime >= 1
    requires MinSec(c.minutes, c.seconds) == c.initialTime
    ensures var n := RoundLength(c);
      var brk := c.betweenRoundsTime;
      && Ticks(c, n).currentRound == 1 && Remaining(Ticks(c, n)) == 0 && !Ticks(c, n).isBetweenRounds
      && Ticks(c, n + 1).isBetweenRounds && BreakCounter(Ticks(c, n + 1)) == 0
      && Ticks(c, n + 1).isRunning && Ticks(c, n + 1).currentRound == 1
      && Ticks(c, n + 1 + brk).currentRound == 2
      && MinSec(Ticks(c, n + 1 + brk).minutes, Ticks(c, n + 1 + brk).seconds) == c.initialTime
      && !Ticks(c, n + 1 + brk).isRunning && !Ticks(c, n + 1 + brk).isBetweenRounds
  {
    var n := RoundLength(c);
    var brk := c.betweenRoundsTime;
    FirstRoundOfTwo(c);
    var b := Ticks(c, n + 1);
    SecondRoundOfTwo(c, b);
    TicksAdd(c, n + 1, brk);
  }

  /** The second half of `TwoRoundRun`: the interval that starts after
      round 1 of 2 ends in round 2 at the full round length, stopped. */
  lemma SecondRoundOfTwo(c: ClockState, b: ClockState)
    requires Inv(b) && b.isBetweenRounds && BreakCounter(b) == 0 && SameSettings(c, b)
    requires b.currentRound == 1 && c.totalRounds == 2 && c.betweenRoundsTime >= 1
    ensures var d := Ticks(b, c.betweenRoundsTime);
      && d.currentRound == 2 && MinSec(d.minutes, d.seconds) == c.initialTime
      && !d.isRunning && !d.isBetweenRounds
  {
    BreakToNextRound(b);
  }

  /** The first half of `TwoRoundRun`: round 1 runs down to 0:00 and the
      tick after starts the between-rounds interval, still running. */
  lemma FirstRoundOfTwo(c: ClockState)
    requires Inv(c) && !c.isBetweenRounds && c.isRunning
    requires c.currentRound == 1 && c.totalRounds == 2 && c.betweenRoundsEnabled && c.betweenRoundsTime >= 1
    requires MinSec(c.minutes, c.seconds) == c.initialTime
    ensures var n := RoundLength(c);
      var z := Ticks(c, n);
      var b := Ticks(c, n + 1);
      && z.currentRound == 1 && Remaining(z) == 0 && !z.isBetweenRounds
      && Inv(b) && b.isBetweenRounds && BreakCounter(b) == 0 && SameSettings(c, b)
      && b.isRunning && b.currentRound == 1
  {
    var n := RoundLength(c);
    assert Remaining(c) == n;
    RoundEnd(c);
    var z := Ticks(c, n);
    assert z.minutes == 0 && z.seconds == 0;
  }

  /** The two-round run from the server's own commands: round length and
      interval set by a settings message, loaded with reset-time, started. */
  lemma TwoRoundScenario(init: MinSec, brk: int, t0: int, t1: int)
    requires WellFormed(init.minutes, init.seconds) && brk >= 1
    ensures var c := Start(ResetTime(SyncSettings(Initial(t0), Some(init), Some(2), Some(true), Some(brk))), t1);
      && Inv(c) && !c.isBetweenRounds && c.isRunning
      && c.currentRound == 1 && c.totalRounds == 2 && c.betweenRoundsEnabled && c.betweenRoundsTime == brk
      && MinSec(c.minutes, c.seconds) == c.initialTime && c.initialTime == init
  {
  }

  /** Pause twice: the toggle is back where it started, the pause that was
      taken is added to the total in whole seconds (nothing when it started
      at time 0, a falsy start time), and the time, the round and the
      settings are as before. */
  lemma PauseTwice(c: ClockState, t1: int, t2: int)
    requires !c.isPaused
    ensures var r := Pause(Pause(c, t1), t2);
      && r.isPaused == c.isPaused && r.isRunning == c.isRunning
      && r.pauseStartTime == None && r.currentPauseDuration == 0
      && r.totalPausedTime == c.totalPausedTime + (if t1 != 0 then FloorDiv(t2 - t1, 1000) else 0)
      && SameProgress(c, r) && SameSettings(c, r)
  {
  }

  /** Pausing for ten seconds and resuming adds exactly 10 to the total. */
  lemma TenSecondPause(c: ClockState, t: int)
    requires !c.isPaused && t != 0
    ensures Pause(Pause(c, t), t + 10000).totalPausedTime == c.totalPausedTime + 10
  {
    PauseTwice(c, t, t + 10000);
  }

  /** While paused, the interval driver shows the pause so far, and resuming
      at that moment adds exactly the shown duration to the total. */
  lemma PauseDisplayMatchesResume(c: ClockState, t1: int, t: int)
    requires !c.isPaused && t1 != 0
    ensures var p := IntervalStep(Pause(c, t1), t);
      && p.currentPauseDuration == FloorDiv(t - t1, 1000)
      && Pause(p, t).totalPausedTime == c.totalPausedTime + p.currentPauseDuration
  {
  }

  /** A pause on a stopped clock is accepted: the front end then shows red
      (stopped) with the label PAUSED. */
  lemma PauseWhileStopped(c: ClockState, t: int)
    requires !c.isRunning && !c.isPaused
    ensures var r := Pause(c, t);
      r.isPaused && !r.isRunning
      && ClockUtils.GetStatusColor(r.isRunning, r.isPaused) == "red"
      && ClockUtils.GetStatusText(r.isRunning, r.isPaused) == "PAUSED"
  {
  }

  // ---------------------------------------------------------------------
  // Any sequence of commands
  // ---------------------------------------------------------------------

  /** Everything that changes the state: the HTTP commands, the WebSocket
      settings message and one run of the interval driver. */
  datatype Command =
    | StartCmd(now: int)
    | PauseCmd(now: int)
    | ResetCmd
    | ResetTimeCmd
    | ResetRoundsCmd
    | NextRoundCmd
    | PreviousRoundCmd
    | SetTimeCmd(minutes: Option<int>, seconds: Option<int>)
    | SetRoundsCmd(rounds: Option<int>)
    | SetBetweenRoundsCmd(enabled: Option<bool>, time: Option<int>)
    | SyncSettingsCmd(initialTime: Option<MinSec>, totalRounds: Option<int>, enabled: Option<bool>, time: Option<int>)
    | IntervalCmd(now: int)

  function Apply(c: ClockState, cmd: Command): ClockState {
    match cmd
    case StartCmd(now) => Start(c, now)
    case PauseCmd(now) => Pause(c, now)
    case ResetCmd => Reset(c)
    case ResetTimeCmd => ResetTime(c)
    case ResetRoundsCmd => ResetRounds(c)
    case NextRoundCmd => NextRound(c)
    case PreviousRoundCmd => PreviousRound(c)
    case SetTimeCmd(m, s) => SetTime(c, m, s)
    case SetRoundsCmd(n) => SetRounds(c, n)
    case SetBetweenRoundsCmd(e, t) => SetBetweenRounds(c, e, t)
    case SyncSettingsCmd(i, n, e, t) => SyncSettings(c, i, n, e, t)
    case IntervalCmd(now) => IntervalStep(c, now)
  }

  /** The payloads the server does not check but the invariant needs: a
      clock time with seconds in 0..59, a round count of at least 1, and no
      round count below the current round in a settings message. */
  predicate Admissible(c: ClockState, cmd: Command) {
    match cmd
    case SetTimeCmd(m, s) => WellFormed(OrDefault(m, 5), OrDefault(s, 0))
    case SetRoundsCmd(n) => OrDefault(n, 3) >= 1
    case SyncSettingsCmd(i, n, _, _) =>
      (i.Some? ==> WellFormed(i.value.minutes, i.value.seconds))
      && c.currentRound <= OrDefault(n, c.totalRounds)
    case _ => true
  }

  function Run(c: ClockState, cmds: seq<Command>): ClockState
    decreases |cmds|
  {
    if cmds == [] then c else Run(Apply(c, cmds[0]), cmds[1..])
  }

  predicate AllAdmissible(c: ClockState, cmds: seq<Command>)
    decreases |cmds|
  {
    cmds == [] || (Admissible(c, cmds[0]) && AllAdmissible(Apply(c, cmds[0]), cmds[1..]))
  }

  /** One admissible command keeps the invariant, and an inadmissible one
      breaks it: the payload conditions are exactly what the invariant needs. */
  lemma ApplyKeepsInv(c: ClockState, cmd: Command)
    requires Inv(c)
    ensures Inv(Apply(c, cmd)) <==> Admissible(c, cmd)
  {
  }

  /** From any state that satisfies the invariant (the initial state does),
      every sequence of admissible commands ends in a state that satisfies it:
      seconds in 0..59, no negative minutes, round within 1..totalRounds, a
      pause start time exactly while paused. */
  lemma {:induction false} RunKeepsInv(c: ClockState, cmds: seq<Command>)
    requires Inv(c) && AllAdmissible(c, cmds)
    ensures Inv(Run(c, cmds))
    decreases |cmds|
  {
    if cmds != [] {
      ApplyKeepsInv(c, cmds[0]);
      RunKeepsInv(Apply(c, cmds[0]), cmds[1..]);
    }
  }

  /** A settings message with a smaller round count leaves the round above
      the count: at round 3 of 3, `totalRounds: 2` gives round 3 of 2. */
  lemma SyncSettingsBreaksRoundBound(t: int)
    ensures var c := NextRound(NextRound(Initial(t)));
      var r := SyncSettings(c, None, Some(2), None, None);
      Inv(c) && r.currentRound == 3 && r.totalRounds == 2 && !Inv(r)
  {
  }

  /** A settings message that shortens the round below the time left makes
      the next tick store a negative elapsed time that no longer completes
      the round length: a running 5:00 round shortened to 1:00 ticks to 4:59
      with elapsed -4:-59, so elapsed plus remaining is 0, not 60. */
  lemma ShortenedRoundElapsed(t: int)
    ensures var s := SyncSettings(Start(Initial(t), t), Some(MinSec(1, 0)), None, None, None);
      var c := Tick(s);
      && Inv(s) && s.isRunning && Remaining(s) == 300 && RoundLength(s) == 60
      && Inv(c) && Remaining(c) == 299
      && c.elapsedMinutes == -4 && c.elapsedSeconds == -59
      && Elapsed(c) + Remaining(c) == 0
  {
    var s := SyncSettings(Start(Initial(t), t), Some(MinSec(1, 0)), None, None, None);
    CountdownSecond(s);
  }

  /** A set-time with 0 minutes is read as no minutes: the round becomes
      5 minutes plus the seconds asked for. */
  lemma SetTimeZeroMinutes(c: ClockState, seconds: int)
    ensures var r := SetTime(c, Some(0), Some(seconds));
      r.minutes == 5 && r.seconds == seconds && r.initialTime == MinSec(5, seconds)
  {
  }

  // ---------------------------------------------------------------------
  // Status after set-time
  // ---------------------------------------------------------------------

  /** A status query naming two own fields of the state returns exactly
      those two fields with the state's values. */
  lemma StatusOfTwoFields(c: ClockState, a: string, b: string, now: int)
    requires IsTrimmedName(a) && IsTrimmedName(b) && ',' !in a && ',' !in b
    requires a in FIELD_NAMES && b in FIELD_NAMES
    ensures var body := StatusBody(c, Some(a + [','] + b), now);
      (forall f :: f in body <==> f == a || f == b)
      && body[a] == FieldValue(c, a) && body[b] == FieldValue(c, b)
  {
    StatusPair(c, a, b, now);
  }

  lemma StatusPair(c: ClockState, a: string, b: string, now: int)
    requires IsTrimmedName(a) && IsTrimmedName(b) && ',' !in a && ',' !in b
    requires a in FIELD_NAMES && b in FIELD_NAMES
    ensures var body := StatusBody(c, Some(a + [','] + b), now);
      (forall f :: f in body <==> f == a || f == b)
      && body[a] == ToJson(c)[a] && body[b] == ToJson(c)[b]
  {
    StatusOfQuery(c, a + [','] + b, now);
    FilteredPair(ToJson(c), a, b);
  }

  /** A non-empty `fields` query filters the state's own fields. */
  lemma StatusOfQuery(c: ClockState, fields: string, now: int)
    requires fields != []
    ensures StatusBody(c, Some(fields), now) == Filtered(ToJson(c), RequestedFields(fields))
  {
  }

  /** set-time followed by a status query for `minutes,seconds` returns
      exactly the time that was set, when the minutes are not 0. */
  lemma SetTimeThenStatus(c: ClockState, m: int, s: int, now: int)
    requires m != 0
    ensures var body := StatusBody(SetTime(c, Some(m), Some(s)), Some("minutes" + [','] + "seconds"), now);
      (forall f :: f in body <==> f == "minutes" || f == "seconds")
      && body["minutes"] == JNum(m) && body["seconds"] == JNum(s)
  {
    var r := SetTime(c, Some(m), Some(s));
    TimeFields(r);
    StatusOfTwoFields(r, "minutes", "seconds", now);
  }

  /** The two time fields are own fields of the state, holding its time. */
  lemma TimeFields(c: ClockState)
    ensures {"minutes", "seconds"} <= FIELD_NAMES
    ensures FieldValue(c, "minutes") == JNum(c.minutes) && FieldValue(c, "seconds") == JNum(c.seconds)
  {
  }
}
