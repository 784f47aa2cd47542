/**
 The program around the engine: the range check on the parsed command-line
 integers, the simulation loop with its two stop conditions, and the
 conversion of the cycle length from minutes to whole days.
 */
module Driver {
  import opened Tracks
  import opened BallClock

  /** Largest value of a signed 64-bit integer: the upper bound on the minute count. */
  const MaxInt64: int := 0x7fff_ffff_ffff_ffff

  const MinutesPerDay: nat := 1440

  /** A parsed integer outside its inclusive bounds, named by what it counts. */
  datatype InputError = OutOfRange(what: string, min: int, max: int, provided: int)

  datatype Result<T> = Ok(value: T) | Err(error: InputError)

  /**
   Mode 1 runs until the reservoir is back in its starting order; mode 2
   runs a requested number of minutes.
   */
  datatype Mode = CycleLength | PointInTime(minutesToSimulate: int)

  /** What a run of the program reports. */
  datatype Outcome =
    | Rejected(error: InputError)
    | CycleFound(minutes: nat, days: nat)
    | NoCycleWithin(fuel: nat)
    | Reached(state: State)

  function Max(a: int, b: int): int
  {
    if a < b then b else a
  }

  /** Accepts `number` exactly when min <= number <= max, bounds included. */
  function ValidateIntBetween(number: int, min: int, max: int, what: string): (r: Result<int>)
    ensures r.Ok? <==> min <= number <= max
    ensures r.Ok? ==> r.value == number
    ensures r.Err? ==> r.error == OutOfRange(what, min, max, number)
  {
    if number < min || number > max then Err(OutOfRange(what, min, max, number)) else Ok(number)
  }

  /**
   A ball count that passes the range check gives a clock that never pops
   from an empty reservoir, however many minutes it runs.
   */
  lemma ValidBallCountNeverUnderflows(numBalls: int, k: nat)
    requires ValidateIntBetween(numBalls, MinBallCount, MaxBallCount, "number of balls").Ok?
    ensures |Run(Initial(numBalls), k).main| > 0
  {
    InitialInv(numBalls);
    RunInv(Initial(numBalls), numBalls, k);
    MainHoldsTheRest(Run(Initial(numBalls), k), numBalls);
  }

  /** Dividing by 60 and then by 24, both truncating, is dividing by 1440. */
  lemma NestedDivision(m: nat)
    ensures m / 60 / 24 == m / MinutesPerDay
  {
    var h, r1 := m / 60, m % 60;
    var d, r2 := h / 24, h % 24;
    assert m == 60 * h + r1;
    assert h == 24 * d + r2;
    assert m == 1440 * d + (60 * r2 + r1);
    assert 0 <= 60 * r2 + r1 < 1440;
  }

  /** Whole days in a number of minutes; the fraction of a day is dropped. */
  function Days(minutesSimulated: nat): (days: nat)
    ensures days == minutesSimulated / MinutesPerDay
    ensures days * MinutesPerDay <= minutesSimulated < (days + 1) * MinutesPerDay
  {
    NestedDivision(minutesSimulated);
    minutesSimulated / 60 / 24
  }

  /** No minute from 1 up to but excluding `m` brings the clock back to its starting state. */
  ghost predicate NotBackBefore(s0: State, n: nat, m: nat)
    decreases m
  {
    m <= 1 || (NotBackBefore(s0, n, m - 1) && Run(s0, m - 1) != Initial(n))
  }

  /** NotBackBefore(s0, n, m) rules out a return at every minute k with 1 <= k < m. */
  lemma {:induction false} NotBackBeforeAt(s0: State, n: nat, m: nat, k: nat)
    requires NotBackBefore(s0, n, m) && 1 <= k < m
    ensures Run(s0, k) != Initial(n)
    decreases m
  {
    assert NotBackBefore(s0, n, m - 1) && Run(s0, m - 1) != Initial(n);
    if k < m - 1 {
      NotBackBeforeAt(s0, n, m - 1, k);
    } else {
      assert k == m - 1;
    }
  }

  /** The run avoids the starting state one minute longer if it avoids it at minute m (or m is 0). */
  lemma NotBackBeforeNext(s0: State, n: nat, m: nat)
    requires NotBackBefore(s0, n, m)
    requires m == 0 || Run(s0, m) != Initial(n)
    ensures NotBackBefore(s0, n, m + 1)
  {
  }

  /**
   What the loop needs to know about minute m+1 of a valid clock: it can be
   taken, it is one more step, and the cycle check after it recognises
   exactly the starting state.
   */
  lemma NextMinute(s0: State, n: nat, m: nat)
    requires MinBallCount <= n && Inv(s0, n)
    ensures |Run(s0, m).main| > 0
    ensures Run(s0, m + 1) == Step(Run(s0, m))
    ensures CycleDone(Run(s0, m + 1), n) <==> Run(s0, m + 1) == Initial(n)
  {
    RunNext(s0, n, m);
    RunInv(s0, n, m + 1);
    CycleDoneIsInitial(Run(s0, m + 1), n);
  }

  /**
   The simulation loop: step, count the minute, then test the stop condition
   of the mode. Mode 2 stops once the count reaches the request, so it always
   runs at least one minute. Mode 1 stops at the first minute after which the
   reservoir holds every ball in increasing order; `fuel` caps it.
   */
  method Simulate(sequences: Sequences, numBalls: nat, mode: Mode, fuel: nat)
    returns (minutesSimulated: nat, finished: bool)
    requires MinBallCount <= numBalls && Inv(sequences.Snapshot(), numBalls)
    modifies sequences
    ensures sequences.Snapshot() == Run(old(sequences.Snapshot()), minutesSimulated)
    ensures mode.PointInTime? ==> finished && minutesSimulated == Max(mode.minutesToSimulate, 1)
    ensures mode.CycleLength? ==>
              (finished <==> minutesSimulated > 0 && sequences.Snapshot() == Initial(numBalls))
    ensures mode.CycleLength? && !finished ==> minutesSimulated == fuel
    ensures mode.CycleLength? ==> NotBackBefore(old(sequences.Snapshot()), numBalls, minutesSimulated)
  {
    ghost var s0 := sequences.Snapshot();
    var limit := if mode.PointInTime? then Max(mode.minutesToSimulate, 1) else fuel;
    finished := false;
    minutesSimulated := 0;
    while !finished && (mode.PointInTime? || minutesSimulated < fuel)
      invariant sequences.Snapshot() == Run(s0, minutesSimulated)
      invariant minutesSimulated <= limit
      invariant mode.PointInTime? ==> (finished <==> minutesSimulated >= limit)
      invariant mode.CycleLength? ==>
                  (finished <==> minutesSimulated > 0 && sequences.Snapshot() == Initial(numBalls))
      invariant mode.CycleLength? ==> NotBackBefore(s0, numBalls, minutesSimulated)
      decreases limit - minutesSimulated
    {
      NextMinute(s0, numBalls, minutesSimulated);
      assert mode.CycleLength? ==> NotBackBefore(s0, numBalls, minutesSimulated + 1) by {
        if mode.CycleLength? {
          NotBackBeforeNext(s0, numBalls, minutesSimulated);
        }
      }
      sequences.SimulateOneMinute();
      minutesSimulated := minutesSimulated + 1;
      if mode.PointInTime? && minutesSimulated >= mode.minutesToSimulate {
        finished := true;
      } else if mode.CycleLength? && |sequences.main| == numBalls {
        finished := SequenceIsOrdered(sequences.main);
      }
    }
  }

  /**
   The whole program without its input parsing and output: check the minute
   count (mode 2) and then the ball count, build the clock, run the loop and
   report the snapshot (mode 2) or the cycle length in minutes and whole days
   (mode 1).
   */
  method RunClock(numBalls: int, mode: Mode, fuel: nat) returns (outcome: Outcome)
    ensures outcome.Rejected? <==>
              (mode.PointInTime? && !(0 <= mode.minutesToSimulate <= MaxInt64))
              || !(MinBallCount <= numBalls <= MaxBallCount)
    ensures mode.PointInTime? && !(0 <= mode.minutesToSimulate <= MaxInt64) ==>
              outcome == Rejected(OutOfRange("minutes to simulate", 0, MaxInt64, mode.minutesToSimulate))
    ensures !(mode.PointInTime? && !(0 <= mode.minutesToSimulate <= MaxInt64))
            && !(MinBallCount <= numBalls <= MaxBallCount) ==>
              outcome == Rejected(OutOfRange("number of balls", MinBallCount, MaxBallCount, numBalls))
    ensures !outcome.Rejected? && mode.PointInTime? ==>
              outcome == Reached(Run(Initial(numBalls), Max(mode.minutesToSimulate, 1)))
    ensures !outcome.Rejected? && mode.CycleLength? ==> outcome.CycleFound? || outcome.NoCycleWithin?
    ensures outcome.CycleFound? ==>
              && 1 <= outcome.minutes
              && Run(Initial(numBalls), outcome.minutes) == Initial(numBalls)
              && NotBackBefore(Initial(numBalls), numBalls, outcome.minutes)
              && outcome.days == outcome.minutes / MinutesPerDay
    ensures outcome.NoCycleWithin? ==>
              && outcome.fuel == fuel
              && NotBackBefore(Initial(numBalls), numBalls, fuel + 1)
  {
    if mode.PointInTime? {
      var checked := ValidateIntBetween(mode.minutesToSimulate, 0, MaxInt64, "minutes to simulate");
      if checked.Err? {
        return Rejected(checked.error);
      }
    }
    var checked := ValidateIntBetween(numBalls, MinBallCount, MaxBallCount, "number of balls");
    if checked.Err? {
      return Rejected(checked.error);
    }
    var sequences := new Sequences(numBalls);
    InitialInv(numBalls);
    var minutesSimulated, finished := Simulate(sequences, numBalls, mode, fuel);
    if mode.PointInTime? {
      outcome := Reached(sequences.Snapshot());
    } else if finished {
      outcome := CycleFound(minutesSimulated, Days(minutesSimulated));
    } else {
      outcome := NoCycleWithin(fuel);
    }
  }
}
