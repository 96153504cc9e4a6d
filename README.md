# Tournament round clock — a verified model

This project models the authoritative round clock of a tournament clock
server, and the display helpers of its front end.

The server keeps a single mutable record, `serverClockState`. Two things
change it:

- a tick that a 1 Hz interval driver calls while the clock runs;
- the HTTP command handlers (`start`, `pause`, `reset`, `reset-time`,
  `reset-rounds`, `next-round`, `previous-round`, `set-time`, `set-rounds`,
  `set-between-rounds`) and the `sync-settings` WebSocket message.

`GET /api/status` returns the record. With a `fields` query it returns only
the requested fields.

The front end's `formatTime`, `formatDuration`, `getStatusColor` and
`getStatusText` render the clock.

Modules:

- `Js` (js.dfy) holds the pieces of JavaScript semantics the code relies on:
  - `x || d` defaults: an absent or 0 payload field gives `d`;
  - truthiness of a timestamp;
  - `Math.floor(a / b)`;
  - the truncating `%`.
- `StatusQuery` (status_query.dfy) is the `fields` filter:
  - `split(',')`, `trim()` and `filter(Boolean)`;
  - the `hasOwnProperty` copy loop.
- `ClockModel` (clock_model.dfy) is the record as a datatype `ClockState`,
  plus one function per tick branch and per handler, from the old record to
  the new one. Each handler's contract says what it does to every field.
  The two tick branches, `CountdownTick` and `BetweenRoundsTick`, do the
  same for each case: every branch names the fields it changes and keeps
  all the others. `CountdownTick`'s ordinary second is stated in the lemma
  `CountdownSecond`. `Tick` dispatches to the two branches, and its own
  contract summarises them: settings and `Inv` kept, the round up by at
  most one. `Inv` is the invariant:
  - seconds in 0..59 and no negative minutes, for the displayed time, the
    round length and the between-rounds counter;
  - `1 <= currentRound <= totalRounds`;
  - `pauseStartTime` set exactly while paused.
- `Server` (server_clock.dfy) is the class `ServerClock`. It holds the
  record as one mutable field. There is one method per handler and one for
  the tick, and each assigns the fields one by one, in the order the source
  does. Each method is proved to produce the state the matching `ClockModel`
  function describes, and to keep `Valid()` (that is, `Inv`) where the
  payload allows.
- `ClockUtils` (clock_utils.dfy) holds the formatters and classifiers. A
  parser, `ParseClock`, is the inverse the round trips are proved against.
- `ClockProperties` (clock_properties.dfy) states properties of whole runs:
  - a round ticked down to its end;
  - a between-rounds interval ticked to its end;
  - a two-round run;
  - the pause toggle;
  - the invariant over any sequence of admissible commands;
  - a status query after `set-time`.

Time: wherever the source reads `Date.now()`, the model takes a parameter
`now`, in milliseconds. Payload fields are `Option` values, with `None` for
an absent field.

Behaviour of the code that the model keeps and a reader might not expect:

- Each tick moves the clock by exactly one second. There are no anchors,
  no drift correction and no multi-second catch-up.
- The round ends on the tick *after* the display reaches 0:00, when minutes
  would become -1. The displayed time is never stored negative.
- When the between-rounds interval ends, the next round is set up exactly
  as `next-round` does it. That includes `isRunning := false`, so round 2
  waits for a start (`BreakEnd`, `BreakToNextRound`, `TwoRoundRun`).
- Auto-advance without a between-rounds interval keeps the pause
  accounting and `isRunning`.
- `set-time` is accepted while running, and it stops the clock. A payload
  with `minutes: 0` gives 5 minutes, because of `minutes || 5`
  (`SetTimeZeroMinutes`).
- `isPaused` and `isBetweenRounds` are two independent flags, as in the
  code. A pause is accepted on a stopped clock (`PauseWhileStopped`).
- At the round-complete edge, the countdown computes elapsed time from the
  remaining value -1:59. When the interval starts, and when the last round
  ends, it stores that elapsed time: the round length plus one second.
  When the next round starts at once, without an interval, elapsed is
  stored as 0:00 (`CountdownTick`).
- Elapsed time is computed with `Math.floor` for the minutes and the
  truncating `%` for the seconds. The two agree only while the difference
  is not negative. A `sync-settings` message can set the round length below
  the time still shown, and the countdown does not reset the display. The
  next tick then stores a negative elapsed time whose minutes and seconds
  disagree. Elapsed plus remaining then falls a minute short of the round
  length, unless the excess is whole minutes. Example: 5:00 shown, the round
  shortened to 1:00, one tick: elapsed -4:-59, remaining 4:59, and the sum
  is 0 (`ShortenedRoundElapsed`). `CountdownSecond` and `CountdownRun` state
  both cases.
- `sync-settings` changes `totalRounds` without resetting the round. It can
  leave the round above the count (`SyncSettingsBreaksRoundBound`).
  These also break `Inv`:
  - `set-time` with negative minutes, or with seconds outside 0..59;
  - `set-rounds` with a negative count;
  - `sync-settings` with an `initialTime` whose minutes are negative or
    whose seconds are outside 0..59.

  `ApplyKeepsInv` states exactly which payloads keep `Inv`.

## Model

| member | source | states |
|---|---|---|
| Js.OrDefault | server.js:333-335 | `x \|\| d` is the payload value when it is present and non-zero, otherwise the default |
| Js.FloorDiv | server.js:98 | `Math.floor(a / b)` is the integer q with `b*q <= a < b*q + b` |
| Js.Rem | server.js:150 | `%` on a non-negative dividend is the remainder in 0..b-1 with `a == b*floor(a/b) + r`; on a negative dividend it is exactly the negated remainder of the magnitude, `a == -(b*floor(-a/b)) + r`, in -b+1..0 |
| Js.OrFalse | server.js:199 | `x \|\| false` (here and at line 357) is false for an absent flag and the flag itself otherwise |
| Js.Truthy | server.js:97 | a timestamp (here and at lines 212 and 226) is truthy exactly when it is present and not 0 |
| StatusQuery.Split | server.js:381-382 | `split(',')` gives at least one piece, no piece holds a comma, and joining the pieces with commas gives back the query |
| StatusQuery.TrimStart | server.js:383 | the result is a suffix of the input, everything dropped is white space, and it does not start with white space |
| StatusQuery.TrimEnd | server.js:383 | the result is a prefix of the input, everything dropped is white space, and it does not end with white space |
| StatusQuery.Trim | server.js:383 | `trim()` gives a slice of the input with only white space before and after it; the slice is either empty or a name with no white space at either end, and it adds no comma |
| StatusQuery.TrimmedSlice | server.js:383 | dropping leading and then trailing white space leaves a slice of the input with only white space before and after it |
| StatusQuery.TrimAndDropEmpty | server.js:383-384 | `map(trim).filter(Boolean)` keeps only trimmed non-empty names, at most one per piece, and every non-blank piece's trimmed form is kept |
| StatusQuery.RequestedFields | server.js:381-384 | the requested names are trimmed, non-empty and comma-free, and every non-blank piece of the query is among them |
| StatusQuery.SplitPair | server.js:381-382 | two comma-free names joined by a comma split back into exactly those two |
| StatusQuery.TrimKeepsName | server.js:383 | trimming a name without surrounding white space leaves it unchanged |
| StatusQuery.NamesFromPieces | server.js:383-384 | every kept name is the trimmed form of one of the pieces |
| StatusQuery.RequestedFieldsExactly | server.js:381-384 | a name is requested exactly when it is the non-empty trimmed form of some piece between commas |
| StatusQuery.RequestedPair | server.js:381-384 | the query `a,b` for two trimmed comma-free names requests exactly `[a, b]` |
| StatusQuery.Filtered | server.js:385-390 | the filtered object's keys are exactly the requested names that are keys of the state, each with the state's value |
| StatusQuery.CopyRequested | server.js:385-390 | the `forEach` copy loop builds exactly the filtered object |
| StatusQuery.FilteredPair | server.js:381-390 | the query `a,b` naming two keys of the state returns exactly those two keys with the state's values |
| ClockModel.Initial | server.js:19-38 | the start record is a stopped fresh round 1 of 3 at 5:00, with between-rounds off and 60 s, and it satisfies `Inv` |
| ClockModel.ElapsedAfter | server.js:148-150 | elapsed is round length minus remaining, with seconds in 0..59, whenever that difference is not negative |
| ClockModel.ElapsedAfterNegative | server.js:148-150 | when more is left than the round length, the stored seconds lie in -59..0 and elapsed falls a minute short of round length minus remaining unless the excess is whole minutes |
| ClockModel.NegativeSplit | server.js:149-150 | for a negative difference, floored minutes times 60 plus the truncated remainder fall 60 short of the difference unless it is whole minutes |
| ClockModel.FoldedPause | server.js:212-213 | as here and at lines 226-227: the whole seconds since a truthy pause start while paused (floor of the milliseconds over 1000), and 0 otherwise |
| ClockModel.CountdownTick | server.js:143-184 | the countdown keeps the pause fields, the settings and `Inv`, and touches the between-rounds counter only when the interval starts. At 0:00 exactly one of three transitions happens, each naming the fields it changes and keeping all others: the interval starts at 0:00 with the counter at 0 and elapsed the round length plus one second (seconds in 0..59); the next round starts at full length with elapsed 0:00, still running; or the clock stops at 0:00 after the last round, with elapsed as in the first case |
| ClockModel.CountdownSecond | server.js:144-150 | an ordinary second changes only the displayed and elapsed time. It lowers the remaining time by exactly one, with a 59-second borrow, and keeps seconds in 0..59. Elapsed plus remaining is the round length while no more is left than the round length, otherwise a minute short unless the excess is whole minutes |
| ClockModel.BetweenRoundsTick | server.js:106-141 | below its length, the interval counter goes up by one second, wrapping at 60, and is mirrored into the display, and no other field changes. At its length, the result is exactly `NextRound` (stopped, fresh round), or, after the last round, only the running and between-rounds flags change, both to false. `Inv` is kept |
| ClockModel.Tick | server.js:105-186 | a tick keeps the settings and `Inv`, moves the round up by at most one and only from below `totalRounds`, and never sets the pause flag |
| ClockModel.IntervalStep | server.js:90-101 | running and unpaused, the driver ticks. Paused with a truthy start time, only `currentPauseDuration` changes, to the whole seconds since the pause start. Paused with a falsy start time, or stopped and unpaused, nothing changes. `Inv` is kept |
| ClockModel.Start | server.js:211-221 | start runs and unpauses, folds the pause in progress into the total, and leaves the time, round and settings alone |
| ClockModel.Pause | server.js:223-239 | pause flips `isPaused`; pausing records `now`; resuming clears the start time and the current duration and adds the whole seconds paused to the total; `Inv` is kept |
| ClockModel.Reset | server.js:241-257 | reset gives a stopped fresh round 1 at the round length, with the settings kept |
| ClockModel.ResetTime | server.js:259-271 | reset-time is reset, except that the round and the between-rounds flag and counter are kept |
| ClockModel.ResetRounds | server.js:273-289 | reset-rounds gives the same state as reset |
| ClockModel.NextRound | server.js:291-309 | below the last round: a stopped fresh next round; otherwise no change; `Inv` is kept |
| ClockModel.PreviousRound | server.js:311-329 | above round 1: a stopped fresh previous round; otherwise no change; `Inv` is kept |
| ClockModel.SetTime | server.js:331-345 | the display and the round length both become the requested time (minutes default 5 when absent or 0, seconds default 0), stopped, with pause and elapsed cleared; `Inv` holds exactly when that time is well formed |
| ClockModel.SetRounds | server.js:347-353 | the round count becomes the payload (3 when absent or 0) and the round 1; nothing else changes; `Inv` holds exactly when the count is at least 1 |
| ClockModel.SetBetweenRounds | server.js:355-360 | enabled exactly when the payload says true; the length is the payload (60 when absent or 0); nothing else changes |
| ClockModel.SyncSettings | server.js:195-201 | the round length and count are replaced when given (a count of 0 keeps the old one); the between-rounds settings are always replaced; progress, pause and `lastUpdateTime` are untouched; `Inv` survives exactly when the new length is well formed and the count is not below the round |
| ClockModel.ToJson | server.js:394-395 | the state as a JSON object has exactly the 18 field names as keys, each with that field's value |
| ClockModel.FieldValue | server.js:388 | a field's JSON value is a boolean exactly for the four flags, the time pair exactly for `initialTime`, null exactly for an absent `pauseStartTime`, and never a string |
| ClockModel.ExtraMembers | server.js:396-398 | the added members are exactly `serverTime`, `api_version` and `connection_protocol`: the current time, `"1.0.0"` and `"http_rest_websocket"` |
| ClockModel.FullStatus | server.js:394-399 | the full status has the state's fields with the state's values, `serverTime` the current time, `api_version` `"1.0.0"` and `connection_protocol` `"http_rest_websocket"` |
| ClockModel.StatusBody | server.js:378-400 | with a non-empty `fields` query, the body has exactly the requested names that are fields of the state, with their values; otherwise it is the full status |
| Server.ServerClock.constructor | server.js:19-38 | the new clock holds the start record and is valid |
| Server.ServerClock.UpdateServerClock | server.js:105-186 | the field-by-field tick produces `Tick` of the old state and keeps `Valid` |
| Server.ServerClock.BetweenRoundsStep | server.js:106-141 | the between-rounds branch produces `BetweenRoundsTick` of the old state |
| Server.ServerClock.CountdownStep | server.js:143-184 | the countdown branch produces `CountdownTick` of the old state |
| Server.ServerClock.IntervalTick | server.js:90-101 | one run of the interval callback produces `IntervalStep` and keeps `Valid` |
| Server.ServerClock.Start | server.js:211-221 | the handler produces `ClockModel.Start` and keeps `Valid` |
| Server.ServerClock.Pause | server.js:223-239 | the handler produces `ClockModel.Pause` and keeps `Valid` |
| Server.ServerClock.Reset | server.js:241-257 | the handler produces `ClockModel.Reset` and keeps `Valid` |
| Server.ServerClock.ResetTime | server.js:259-271 | the handler produces `ClockModel.ResetTime` and keeps `Valid` |
| Server.ServerClock.ResetRounds | server.js:273-289 | the handler produces the same state as reset |
| Server.ServerClock.NextRound | server.js:291-309 | the handler produces `ClockModel.NextRound` and keeps `Valid` |
| Server.ServerClock.PreviousRound | server.js:311-329 | the handler produces `ClockModel.PreviousRound` and keeps `Valid` |
| Server.ServerClock.SetTime | server.js:331-345 | the handler produces `ClockModel.SetTime`; `Valid` is kept when the requested time is well formed |
| Server.ServerClock.SetRounds | server.js:347-353 | the handler produces `ClockModel.SetRounds`; `Valid` afterwards holds exactly when the count is at least 1 |
| Server.ServerClock.SetBetweenRounds | server.js:355-360 | the handler produces `ClockModel.SetBetweenRounds` and keeps `Valid` |
| Server.ServerClock.SyncSettings | server.js:195-201 | the message produces `ClockModel.SyncSettings` |
| Server.ServerClock.Status | server.js:378-400 | the response body is `StatusBody` of the current state |
| ClockUtils.NatToString | src/utils/clockUtils.ts:3 | `toString` of a non-negative number is non-empty decimal digits with no leading zero; one digit below 10, at most two below 100 |
| ClockUtils.IntToString | src/utils/clockUtils.ts:3 | `toString` of a negative number is `-` followed by the rendering of its magnitude |
| ClockUtils.PadStart | src/utils/clockUtils.ts:3 | `padStart` gives the longer of the input's length and the width, ends with the input, and has only fill characters before it |
| ClockUtils.WithColon | src/utils/clockUtils.ts:3 | the two parts with one colon between them, at the position of the left part's length |
| ClockUtils.FormatTime | src/utils/clockUtils.ts:2-4 | the result is at least 5 characters; for parts in 0..99 it is exactly 5 with the colon at index 2 |
| ClockUtils.TwoDigits | src/utils/clockUtils.ts:3 | a number in 0..99 padded to two places takes exactly two characters |
| ClockUtils.NatToStringValue | src/utils/clockUtils.ts:3 | the decimal rendering reads back as the number |
| ClockUtils.LeadingZeros | src/utils/clockUtils.ts:3 | leading zeros do not change a digit string's value |
| ClockUtils.AllZeros | src/utils/clockUtils.ts:3 | a string of zeros has value 0 |
| ClockUtils.PaddedValue | src/utils/clockUtils.ts:3 | zero-padding a rendered number keeps its value |
| ClockUtils.FormatTimeRoundTrip | src/utils/clockUtils.ts:2-4 | `formatTime(m, s)` for non-negative m, s reads back as exactly `(m, s)` |
| ClockUtils.FormatDuration | src/utils/clockUtils.ts:6-10 | for t >= 0 the text is the unpadded whole minutes, a colon and two more characters |
| ClockUtils.FormatDurationRoundTrip | src/utils/clockUtils.ts:6-10 | `formatDuration(t)` for t >= 0 reads back as `(floor(t/60), t mod 60)`, seconds below 60 and minutes*60 + seconds = t |
| ClockUtils.SplitAtColon | src/utils/clockUtils.ts:3 | two digit strings joined by a colon read back as their values |
| ClockUtils.RenderedHasNoColon | src/utils/clockUtils.ts:3 | a rendered number, padded or not, holds no colon |
| ClockUtils.DigitsHaveNoColon | src/utils/clockUtils.ts:3 | a string of decimal digits holds no colon |
| ClockUtils.OneColon | src/utils/clockUtils.ts:3 | colon-free parts joined with the colon hold exactly one colon |
| ClockUtils.FormatTimeOneColon | src/utils/clockUtils.ts:3 | `formatTime` of any two integers holds exactly one colon |
| ClockUtils.FormatDurationOneColon | src/utils/clockUtils.ts:9 | `formatDuration` of any integer holds exactly one colon |
| ClockUtils.GetStatusColor | src/utils/clockUtils.ts:12-16 | red exactly when stopped, whatever the pause flag; yellow exactly when running and paused; green exactly when running and unpaused |
| ClockUtils.GetStatusText | src/utils/clockUtils.ts:18-22 | PAUSED exactly when paused, running or not; RUNNING exactly when running and unpaused; READY exactly when neither |
| ClockUtils.StatusAgreement | src/utils/clockUtils.ts:12-22 | colour and label tell the same story exactly when the clock is not paused while stopped |
| ClockProperties.TicksSucc | server.js:90-94 | n+1 ticks are one tick after n ticks |
| ClockProperties.TicksAdd | server.js:90-94 | a+b ticks are a ticks followed by b ticks |
| ClockProperties.CountdownRun | server.js:144-150 | within a round, k ticks take exactly k seconds off the clock and keep `Inv`, the round, the pause and the settings; after them elapsed plus remaining is the round length while no more is left than the round length, otherwise a minute short unless the excess is whole minutes |
| ClockProperties.RoundEnd | server.js:152-178 | a round reaches 0:00 after as many ticks as it shows, and the next tick starts the break, starts the next round at full length, or stops after the last round |
| ClockProperties.BreakRun | server.js:136-141 | k ticks of the interval below its length add k seconds to the counter and keep `Inv`, the round and the pause |
| ClockProperties.BreakEnd | server.js:115-130 | the tick that completes the interval is exactly `next-round`, and leaves the clock stopped |
| ClockProperties.BreakToNextRound | server.js:106-141 | an interval from 0:00 ends after `betweenRoundsTime` ticks in exactly the state `next-round` gives |
| ClockProperties.FirstRoundOfTwo | server.js:152-162 | round 1 of 2 runs down to 0:00 in round-length ticks, and the next tick starts the interval, still running |
| ClockProperties.SecondRoundOfTwo | server.js:106-141 | the interval that follows round 1 of 2 ends, after `betweenRoundsTime` ticks, in round 2 at the full round length, stopped and out of the interval |
| ClockProperties.TwoRoundRun | server.js:105-186 | round 1 of 2 with the interval on: 0:00 after the round length, interval on the next tick, and `betweenRoundsTime` ticks later round 2 at full length but stopped |
| ClockProperties.TwoRoundScenario | server.js:195-201 | settings message, reset-time and start give a running round 1 of 2 at full length, with the interval configured |
| ClockProperties.PauseTwice | server.js:223-239 | pausing twice restores the pause flag and adds the whole seconds paused to the total (nothing for a falsy start time at 0), with time, round and settings unchanged |
| ClockProperties.TenSecondPause | server.js:223-239 | a ten-second pause adds exactly 10 to the total |
| ClockProperties.PauseDisplayMatchesResume | server.js:96-101 | while paused, the driver shows the pause so far, and resuming then adds exactly that duration |
| ClockProperties.PauseWhileStopped | server.js:232-236 | a pause on a stopped clock is accepted and shows red with the label PAUSED |
| ClockProperties.ApplyKeepsInv | server.js:195-360 | from a state satisfying `Inv`, a command keeps it exactly when its payload is admissible |
| ClockProperties.RunKeepsInv | server.js:195-360 | every sequence of admissible commands and ticks keeps `Inv` |
| ClockProperties.SyncSettingsBreaksRoundBound | server.js:198 | at round 3 of 3, a settings message with `totalRounds: 2` leaves round 3 of 2 |
| ClockProperties.ShortenedRoundElapsed | server.js:144-150 | from 5:00, a settings message that shortens the round to 1:00 followed by one tick stores elapsed -4:-59 beside 4:59 remaining, so elapsed plus remaining is 0 rather than the round length |
| ClockProperties.SetTimeZeroMinutes | server.js:333-335 | set-time with 0 minutes gives 5 minutes and the seconds asked for |
| ClockProperties.StatusOfQuery | server.js:380-391 | a non-empty query filters the state's own fields |
| ClockProperties.StatusPair | server.js:380-391 | a query `a,b` naming two fields returns exactly those two with the state's values |
| ClockProperties.StatusOfTwoFields | server.js:380-391 | the same, with each value being that field of the record |
| ClockProperties.TimeFields | server.js:20-21 | `minutes` and `seconds` are own fields holding the displayed time |
| ClockProperties.SetTimeThenStatus | server.js:331-391 | set-time to (m, s), m not 0, followed by the query `minutes,seconds`, returns exactly `{minutes: m, seconds: s}` |

## Left out

- Network I/O is not modelled: Express routing, the `{ success: true }` responses, the `broadcast` fan-out of actions and status, the `ws.send` on connection, and static file serving. A handler's observable effect is its change to the record.
- The scheduling of the interval (`setInterval`, `clearInterval`, `startServerTimer`) is not modelled. One run of its callback is `IntervalTick`, and a run of ticks is `ClockProperties.Ticks`.
- `queryNtpTime` and `GET /api/ntp-sync` are left out: UDP sockets, timeouts and floating-point offsets. The same goes for the static `GET /api/docs` document.
- WebSocket messages other than `sync-settings` change nothing. A message that fails to parse is caught and changes nothing. Neither case is modelled.
- Payloads are modelled as absent or integers (booleans for `enabled`; a minutes/seconds pair for `initialTime`). JSON strings, fractions, `null` and objects in those fields are not modelled, and neither is JavaScript's arithmetic on them.
- The `fields` query as an array (`?fields=a&fields=b`, which `String()` joins with commas) is not modelled; the query is a string or absent.
- Key order in the JSON bodies is not modelled: bodies are maps. `Server.ServerClock.Status` copies the requested fields in query order, but the result does not record that order.
- `lastUpdateTime` is set once at start and never updated by the code; the model keeps it as a setting.
- Number rendering covers integers. The exponent form that `toString` uses from 1e21 on, and non-integer times, are not modelled.
- `copyCommand` in src/utils/clockUtils.ts writes to the clipboard and is not modelled.
- `ClockModel.CountdownTick`: the ordinary-second case is stated in the lemma `CountdownSecond`, not in the function's own contract.
- `Server.ServerClock.SyncSettings` does not promise `Valid()`, because the message can break the round bound (`SyncSettingsBreaksRoundBound`).
