# Ball clock engine

A model of the ball-clock simulator in `ball-clock.go`. The clock holds N
numbered balls (27 to 127) on four tracks:

- the main reservoir;
- the minute track, which dumps at 5 balls;
- the five-minute track, which dumps at 12;
- the hour track, which dumps at 12.

Every minute the front ball of main goes to the back of the minute track.
A track that fills dumps: its last ball moves on to the next track, and the
rest go back to main, last-in first. The hour track's "next track" is main
itself. The program runs in one of two modes. Mode 1 counts minutes until
main holds every ball again in increasing order, and reports that count in
whole days. Mode 2 runs a requested number of minutes and reports the four
tracks.

The project has three modules:

- `Tracks` (`tracks.dfy`): sequences of ball numbers. It has the reservoir
  fill (`FillSequential`, specified by `Iota`) and the cycle check
  (`SequenceIsOrdered`, specified by `Ordered`), both as loops proved against
  those functions. It also has the reversal a dump applies, and the fact
  that an ordered arrangement of the balls 1..n is 1..n itself.
- `BallClock` (`ball_clock.dfy`): the engine.
  - The `Sequences` class has the four tracks as fields. Its `Dump` and
    `SimulateOneMinute` methods update the tracks in place, as the source
    does.
  - Each method is proved against a pure function of the snapshot `State`:
    `DumpState` and `Step`. `Run` is the clock after k minutes.
  - The source passes its tracks to `dump` by pointer. Here the `Track`
    selector names them instead. The call `dump(&Hour, &Main, &Main)`, where
    two of the pointers are the same, is the case `next == MainTrack`.
  - The lemmas prove that balls are conserved, that the tracks stay below
    their dump sizes, that main never runs empty, that the cycle check
    recognises exactly the starting state, and the exact order each dump
    leaves on main.
- `Driver` (`driver.dfy`): the program around the engine.
  - The inclusive range check on an already-parsed integer.
  - The simulation loop, with both stop conditions.
  - The conversion of minutes to days.
  - `RunClock`, which ties them together the way `main` does.

A mode-2 request for 0 minutes passes validation. The loop still
steps once before it tests the count, so the clock reports its state after
one minute rather than its initial state. `Simulate` and `RunClock` state
this: the number of minutes simulated is `Max(minutesToSimulate, 1)`.

## Model

| member | source | states |
|---|---|---|
| Tracks.FillSequential | ball-clock.go:28-34 | returns exactly size balls, the one at index i numbered i+1, i.e. `Iota(size)` |
| Tracks.IotaCount | ball-clock.go:28-34 | the filled reservoir holds each ball 1..n exactly once and no other number |
| Tracks.SequenceIsOrdered | ball-clock.go:37-44 | answers true exactly when every adjacent pair is strictly increasing (so always for length 0 or 1) |
| Tracks.OrderedPermutationIsIota | ball-clock.go:164 | a strictly increasing arrangement of exactly the balls 1..n is the sequence 1..n, so the cycle check can only accept the starting order |
| Tracks.ReversedAt | ball-clock.go:88-90 | position k of a reversed run holds the element at len(s)-1-k of the original |
| Tracks.ReversedMultiset | ball-clock.go:88-90 | returning balls in reverse order neither loses nor duplicates any |
| BallClock.DumpMain | ball-clock.go:84-93 | a dump appends to main the reversed prefix of the dumped track, followed by its last ball when main is also the next track (the aliased call on the hour track) |
| BallClock.DumpToNext | ball-clock.go:86-93 | dumping into a track other than main: that track gains exactly the old last ball at its end; main keeps its balls and then gains old[len-2], ..., old[0] in that order; the dumped track is empty; the fourth track is untouched |
| BallClock.DumpIntoMain | ball-clock.go:84-93 | dumping into main: main gains the reversed prefix and then the old last ball as its very last element; the dumped track is empty; the other two holding tracks are untouched |
| BallClock.DumpConserves | ball-clock.go:86-93 | a dump leaves the multiset of balls on the clock unchanged |
| BallClock.StepClosedForm | ball-clock.go:57-79 | the four outcomes of a minute: no dump, minute dump only, minute and five-minute dumps, or all three; each track dumps exactly when the incoming ball fills it, the same ball is carried up each level, and main gains the reversed tracks in cascade order |
| BallClock.StepConserves | ball-clock.go:57-79 | one minute leaves the multiset of balls on the clock unchanged |
| BallClock.StepKeepsBounds | ball-clock.go:68-78 | if the holding tracks are below 5, 12 and 12 balls before a minute, they still are after it |
| BallClock.MainHoldsTheRest | ball-clock.go:12-17 | on a valid clock main holds the balls that the holding tracks do not, at least N-26, so at least one when N >= 27 |
| BallClock.StepPreservesInv | ball-clock.go:57-79 | a valid clock of at least 27 balls has a ball to take from main, and after the minute it again holds a permutation of 1..N within the track bounds |
| BallClock.InitialInv | ball-clock.go:146-148 | the freshly built clock holds a permutation of 1..N within the track bounds |
| BallClock.RunInv | ball-clock.go:157-160 | however many minutes it runs, a valid clock stays valid |
| BallClock.RunNext | ball-clock.go:157-160 | on a valid clock, minute k+1 is exactly one more step after minute k, and main is non-empty at minute k |
| BallClock.CycleDoneIsInitial | ball-clock.go:164 | on a valid clock the mode-1 stop test (main holds N balls in increasing order) holds if and only if the clock is back at its starting state |
| BallClock.FirstDump | ball-clock.go:68-69 | five minutes after a clock of at least 27 balls is built, main ends with 4, 3, 2, 1, the five-minute track holds ball 5, and the other tracks are empty |
| BallClock.StepKeepsQueueOrder | ball-clock.go:59-63 | a minute takes the front ball of main and leaves the balls behind it at the front, in order |
| BallClock.EarlyMain | ball-clock.go:59-63 | for k <= N, after k minutes main starts with the untouched balls k+1..N in order |
| BallClock.NoEarlyReturn | ball-clock.go:157-166 | a clock of N balls is not back at its starting state at any minute from 1 to N-1 |
| BallClock.Sequences.constructor | ball-clock.go:146-148 | a new clock has main = 1..N and the holding tracks empty |
| BallClock.Sequences.Dump | ball-clock.go:86-93 | the in-place dump (descending loop over the prefix, append to next, truncate) leaves the tracks as `DumpState` says |
| BallClock.Sequences.SimulateOneMinute | ball-clock.go:57-79 | the in-place minute leaves the tracks as `Step` says |
| Driver.ValidateIntBetween | ball-clock.go:102-106 | accepts the number exactly when min <= number <= max, bounds included, and otherwise reports what was checked, both bounds and the value provided |
| Driver.ValidBallCountNeverUnderflows | ball-clock.go:132 | any ball count the range check accepts gives a clock whose main is non-empty at every minute |
| Driver.NestedDivision | ball-clock.go:180 | truncating division by 60 and then by 24 equals truncating division by 1440 |
| Driver.Days | ball-clock.go:180 | the days reported are the whole days in the minute count: days*1440 <= minutes < (days+1)*1440 |
| Driver.NotBackBeforeAt | ball-clock.go:157-166 | the loop's record of no earlier return rules out the starting state at every earlier minute |
| Driver.NextMinute | ball-clock.go:157-166 | each pass of the loop can take a ball, advances by exactly one step, and its cycle test recognises exactly the starting state |
| Driver.Simulate | ball-clock.go:157-167 | the loop leaves the clock at `Run` of the minutes counted. In mode 2 it stops after max(request, 1) minutes. In mode 1 it stops exactly when the clock is back at its start, and at no earlier minute, unless the fuel runs out first |
| Driver.RunClock | ball-clock.go:113-180 | the run is rejected exactly when the minute count (mode 2) or the ball count is out of range. The minute count is checked first, and each rejection carries its own label, bounds and value. Mode 2 reports the clock after max(request, 1) minutes. Mode 1 reports the first minute >= 1 at which the clock is back at its start, with its whole days |

## Left out

- Printing, JSON marshalling of the tracks and every output line are not modelled. They are formatting and I/O. Mode 2 reports the `State` value instead, and mode 1 reports the minute and day counts.
- Wall-clock timing and the floating-point millisecond and second figures are not modelled. They are nondeterministic I/O and float arithmetic.
- Parsing of the command-line strings with `strconv.Atoi` and the argument-count check are not modelled. They are library calls and command-line glue. `RunClock` takes the already-parsed integers and the `Mode`.
- The errors are the record `OutOfRange(what, min, max, provided)`, not the formatted message text.
- Driver.Simulate: mode 1 is capped by a `fuel` parameter, because the model does not prove that every clock returns to its start. Without the cap the loop would have no termination argument. The source relies on the return, so a run that exhausts the fuel (`NoCycleWithin`) has no counterpart in the source.
- The sentinel minute count `math.MaxInt64` that mode 1 sets is not modelled. Mode 1 is modelled by its own stop condition, and the sentinel never takes part in it.
- The published cycle lengths (27 balls cycle in 15 days, 30 balls in 84 days) are not proved. They take millions of steps, which the verifier cannot evaluate.
- BallClock.Run: when main is empty it stops instead of failing as the source's `Main[0]` would. `ValidBallCountNeverUnderflows` and `RunNext` show that a valid clock never reaches that case.
- The tracks are values (`seq<int>`). The sharing of backing arrays between Go slices is not modelled: re-slicing `Main[1:]`, truncating with `[:0]`, and `append` reusing capacity. None of it changes which balls a track holds.
- Integer width: ball numbers and minute counts are unbounded integers. In mode 2 the count never exceeds max(request, 1), which is at most 2^63-1. In mode 1 the count never exceeds the fuel. The 64-bit wrap-around therefore never arises.
