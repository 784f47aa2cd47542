/**
 The ball clock engine: four tracks of numbered balls (the main reservoir,
 the minute, five-minute and hour tracks), the one-minute transition and the
 cascade of dumps it triggers when a track fills.
 */
module BallClock {
  import opened Tracks

  /** A track dumps when it holds this many balls. */
  const MinSize: nat := 5
  const FiveMinSize: nat := 12
  const HourSize: nat := 12

  /** Bounds on the number of balls a clock may be built with (inclusive). */
  const MinBallCount: nat := 27
  const MaxBallCount: nat := 127

  /** Names one of the four tracks, standing for the source's pointers to them. */
  datatype Track = MainTrack | MinTrack | FiveMinTrack | HourTrack

  /** The four tracks, each front (next to leave) to back (last added). */
  datatype State = State(main: seq<int>, min: seq<int>, fiveMin: seq<int>, hour: seq<int>)
  {
    function Get(t: Track): seq<int>
    {
      match t
      case MainTrack => main
      case MinTrack => min
      case FiveMinTrack => fiveMin
      case HourTrack => hour
    }

    function With(t: Track, balls: seq<int>): State
    {
      match t
      case MainTrack => this.(main := balls)
      case MinTrack => this.(min := balls)
      case FiveMinTrack => this.(fiveMin := balls)
      case HourTrack => this.(hour := balls)
    }
  }

  /** Main holds 1..n, the other tracks are empty: the clock at time zero. */
  function Initial(n: nat): State
  {
    State(Iota(n), [], [], [])
  }

  /** All balls on the clock, wherever they are. */
  ghost function Balls(s: State): multiset<int>
  {
    multiset(s.main) + multiset(s.min) + multiset(s.fiveMin) + multiset(s.hour)
  }

  /** Every holding track is below the size at which it dumps. */
  predicate Bounded(s: State)
  {
    |s.min| < MinSize && |s.fiveMin| < FiveMinSize && |s.hour| < HourSize
  }

  /** The clock holds exactly the balls 1..n, once each, and no track is full. */
  ghost predicate Inv(s: State, n: nat)
  {
    Balls(s) == multiset(Iota(n)) && Bounded(s)
  }

  /**
   A dump of track `src`: all balls but the last return to main, the one
   before the last first; then the last ball goes to `next` (which may be
   main itself); then `src` is emptied.
   */
  function DumpState(s: State, src: Track, next: Track): State
    requires src != MainTrack && |s.Get(src)| > 0
  {
    var d := s.Get(src);
    var s1 := s.With(MainTrack, s.main + Reversed(d[..|d| - 1]));
    var s2 := s1.With(next, s1.Get(next) + [d[|d| - 1]]);
    s2.With(src, [])
  }

  /**
   One minute: the front ball of main moves to the back of the minute track,
   and each track that thereby fills dumps into the next one.
   */
  function Step(s: State): State
    requires |s.main| > 0
  {
    var s1 := State(s.main[1..], s.min + [s.main[0]], s.fiveMin, s.hour);
    if |s1.min| == MinSize then
      var s2 := DumpState(s1, MinTrack, FiveMinTrack);
      if |s2.fiveMin| == FiveMinSize then
        var s3 := DumpState(s2, FiveMinTrack, HourTrack);
        if |s3.hour| == HourSize then DumpState(s3, HourTrack, MainTrack) else s3
      else s2
    else s1
  }

  /**
   The clock after k minutes. Should the reservoir ever be empty the clock
   stops where it is; RunInv and MainHoldsTheRest show that a valid clock
   never gets there.
   */
  function Run(s: State, k: nat): State
    decreases k
  {
    if k == 0 || |s.main| == 0 then s else Run(Step(s), k - 1)
  }

  /** However long it runs, a valid clock stays valid. */
  lemma {:induction false} RunInv(s: State, n: nat, k: nat)
    requires MinBallCount <= n && Inv(s, n)
    ensures Inv(Run(s, k), n)
    decreases k
  {
    if k > 0 {
      StepPreservesInv(s, n);
      RunInv(Step(s), n, k - 1);
    }
  }

  /** The cycle check: main holds n balls in strictly increasing order. */
  predicate CycleDone(s: State, n: nat)
  {
    |s.main| == n && Ordered(s.main)
  }

  /** What a dump does to main: the reversed prefix, then the carry ball if main is `next`. */
  lemma DumpMain(s: State, src: Track, next: Track)
    requires src != MainTrack && |s.Get(src)| > 0
    ensures var d := s.Get(src);
            DumpState(s, src, next).main
              == s.main + Reversed(d[..|d| - 1]) + (if next == MainTrack then [d[|d| - 1]] else [])
  {
  }

  /** What a dump does to the other tracks. */
  lemma DumpOthers(s: State, src: Track, next: Track)
    requires src != MainTrack && src != next && |s.Get(src)| > 0
    ensures var d := s.Get(src);
            var r := DumpState(s, src, next);
            && r.Get(src) == []
            && (next != MainTrack ==> r.Get(next) == s.Get(next) + [d[|d| - 1]])
            && (forall t :: t != MainTrack && t != src && t != next ==> r.Get(t) == s.Get(t))
  {
  }

  /**
   A dump into a track other than main: that track gains exactly the old
   last ball, main gains the others from the one before the last down to
   the first, the dumped track is emptied and the fourth track is untouched.
   */
  lemma DumpToNext(s: State, src: Track, next: Track)
    requires src != MainTrack && next != MainTrack && src != next
    requires |s.Get(src)| > 0
    ensures var d := s.Get(src);
            var r := DumpState(s, src, next);
            && r.Get(next) == s.Get(next) + [d[|d| - 1]]
            && |r.main| == |s.main| + |d| - 1
            && r.main[..|s.main|] == s.main
            && (forall j :: |s.main| <= j < |s.main| + |d| - 1 ==> r.main[j] == d[|s.main| + |d| - 2 - j])
            && r.Get(src) == []
            && (forall t :: t != MainTrack && t != src && t != next ==> r.Get(t) == s.Get(t))
  {
    var d := s.Get(src);
    var r := DumpState(s, src, next);
    DumpMain(s, src, next);
    DumpOthers(s, src, next);
    assert r.main == s.main + Reversed(d[..|d| - 1]) + [];
    forall j | |s.main| <= j < |s.main| + |d| - 1
      ensures r.main[j] == d[|s.main| + |d| - 2 - j]
    {
      AppendedReversedAt(s.main, d[..|d| - 1], [], j);
    }
    ReversedMultiset(d[..|d| - 1]);
  }

  /**
   A dump into main (the hour track's overflow): main gains the reversed
   prefix and then the old last ball as its very last element.
   */
  lemma DumpIntoMain(s: State, src: Track)
    requires src != MainTrack && |s.Get(src)| > 0
    ensures var d := s.Get(src);
            var r := DumpState(s, src, MainTrack);
            && |r.main| == |s.main| + |d|
            && r.main[..|s.main|] == s.main
            && (forall j :: |s.main| <= j < |s.main| + |d| - 1 ==> r.main[j] == d[|s.main| + |d| - 2 - j])
            && r.main[|r.main| - 1] == d[|d| - 1]
            && r.Get(src) == []
            && (forall t :: t != MainTrack && t != src ==> r.Get(t) == s.Get(t))
  {
    var d := s.Get(src);
    var r := DumpState(s, src, MainTrack);
    DumpMain(s, src, MainTrack);
    DumpOthers(s, src, MainTrack);
    forall j | |s.main| <= j < |s.main| + |d| - 1
      ensures r.main[j] == d[|s.main| + |d| - 2 - j]
    {
      AppendedReversedAt(s.main, d[..|d| - 1], [d[|d| - 1]], j);
    }
    ReversedMultiset(d[..|d| - 1]);
  }

  /** Replacing one track leaves every other track as it was. */
  lemma WithOther(s: State, t: Track, u: Track, balls: seq<int>)
    requires t != u
    ensures s.With(t, balls).Get(u) == s.Get(u)
  {
  }

  /** Appending to one track adds exactly the appended balls to the clock. */
  lemma BallsAppend(s: State, t: Track, extra: seq<int>)
    ensures Balls(s.With(t, s.Get(t) + extra)) == Balls(s) + multiset(extra)
  {
    match t
    case MainTrack =>
    case MinTrack =>
    case FiveMinTrack =>
    case HourTrack =>
  }

  /** Emptying one track removes exactly its balls from the clock. */
  lemma BallsEmpty(s: State, t: Track)
    ensures Balls(s.With(t, [])) + multiset(s.Get(t)) == Balls(s)
  {
    match t
    case MainTrack =>
    case MinTrack =>
    case FiveMinTrack =>
    case HourTrack =>
  }

  /** A dump moves balls between tracks and neither loses nor duplicates any. */
  lemma DumpConserves(s: State, src: Track, next: Track)
    requires src != MainTrack && src != next && |s.Get(src)| > 0
    ensures Balls(DumpState(s, src, next)) == Balls(s)
  {
    var d := s.Get(src);
    var prefix, last := d[..|d| - 1], d[|d| - 1];
    var s1 := s.With(MainTrack, s.main + Reversed(prefix));
    var s2 := s1.With(next, s1.Get(next) + [last]);
    var r := s2.With(src, []);
    assert DumpState(s, src, next) == r;
    assert Balls(s1) == Balls(s) + multiset(prefix) by {
      BallsAppend(s, MainTrack, Reversed(prefix));
      ReversedMultiset(prefix);
    }
    assert Balls(s2) == Balls(s1) + multiset{last} by {
      BallsAppend(s1, next, [last]);
    }
    assert Balls(r) + multiset(d) == Balls(s2) by {
      WithOther(s, MainTrack, src, s.main + Reversed(prefix));
      WithOther(s1, next, src, s1.Get(next) + [last]);
      BallsEmpty(s2, src);
    }
    assert Balls(s2) == Balls(s) + multiset(d) by {
      SplitLast(d);
      MultisetAssoc(Balls(s), multiset(prefix), multiset{last});
    }
    MultisetCancel(Balls(r), Balls(s), multiset(d));
  }

  /** Adding balls in two batches is adding them at once. */
  lemma MultisetAssoc(x: multiset<int>, y: multiset<int>, z: multiset<int>)
    ensures x + y + z == x + (y + z)
  {
  }

  /** Multiset sum cancels: adding the same balls to two clocks that then agree means they agreed. */
  lemma MultisetCancel(x: multiset<int>, y: multiset<int>, z: multiset<int>)
    requires x + z == y + z
    ensures x == y
  {
    assert forall b :: x[b] == (x + z)[b] - z[b] == (y + z)[b] - z[b] == y[b];
  }

  /**
   Closed form of one minute. With h the ball leaving main: the minute track
   dumps exactly when it reaches MinSize, the five-minute track exactly when
   that dump fills it, the hour track exactly when that second dump fills it;
   the ball carried up at every level is h, and main receives the reversed
   contents of each dumped track in cascade order, with h last after an hour
   dump.
   */
  lemma StepClosedForm(s: State)
    requires |s.main| > 0
    ensures var h := s.main[0];
            |s.min| + 1 != MinSize ==>
              Step(s) == State(s.main[1..], s.min + [h], s.fiveMin, s.hour)
    ensures var h := s.main[0];
            |s.min| + 1 == MinSize && |s.fiveMin| + 1 != FiveMinSize ==>
              Step(s) == State(s.main[1..] + Reversed(s.min), [], s.fiveMin + [h], s.hour)
    ensures var h := s.main[0];
            |s.min| + 1 == MinSize && |s.fiveMin| + 1 == FiveMinSize && |s.hour| + 1 != HourSize ==>
              Step(s) == State(s.main[1..] + Reversed(s.min) + Reversed(s.fiveMin), [], [], s.hour + [h])
    ensures var h := s.main[0];
            |s.min| + 1 == MinSize && |s.fiveMin| + 1 == FiveMinSize && |s.hour| + 1 == HourSize ==>
              Step(s) == State(s.main[1..] + Reversed(s.min) + Reversed(s.fiveMin) + Reversed(s.hour) + [h],
                               [], [], [])
  {
    var h := s.main[0];
    var s1 := State(s.main[1..], s.min + [h], s.fiveMin, s.hour);
    if |s1.min| == MinSize {
      var s2 := DumpState(s1, MinTrack, FiveMinTrack);
      assert s2 == State(s.main[1..] + Reversed(s.min), [], s.fiveMin + [h], s.hour) by {
        assert (s.min + [h])[..|s.min|] == s.min;
      }
      if |s2.fiveMin| == FiveMinSize {
        var s3 := DumpState(s2, FiveMinTrack, HourTrack);
        assert s3 == State(s.main[1..] + Reversed(s.min) + Reversed(s.fiveMin), [], [], s.hour + [h]) by {
          assert (s.fiveMin + [h])[..|s.fiveMin|] == s.fiveMin;
        }
        if |s3.hour| == HourSize {
          assert DumpState(s3, HourTrack, MainTrack) == State(
            s.main[1..] + Reversed(s.min) + Reversed(s.fiveMin) + Reversed(s.hour) + [h], [], [], []) by {
            assert (s.hour + [h])[..|s.hour|] == s.hour;
          }
        }
      }
    }
  }

  /** One minute neither loses nor duplicates a ball. */
  lemma StepConserves(s: State)
    requires |s.main| > 0
    ensures Balls(Step(s)) == Balls(s)
  {
    var s1 := State(s.main[1..], s.min + [s.main[0]], s.fiveMin, s.hour);
    assert s.main == [s.main[0]] + s.main[1..];
    assert Balls(s1) == Balls(s);
    if |s1.min| == MinSize {
      DumpConserves(s1, MinTrack, FiveMinTrack);
      var s2 := DumpState(s1, MinTrack, FiveMinTrack);
      if |s2.fiveMin| == FiveMinSize {
        DumpConserves(s2, FiveMinTrack, HourTrack);
        var s3 := DumpState(s2, FiveMinTrack, HourTrack);
        if |s3.hour| == HourSize {
          DumpConserves(s3, HourTrack, MainTrack);
        }
      }
    }
  }

  /** One minute keeps every holding track below its dump size. */
  lemma StepKeepsBounds(s: State)
    requires |s.main| > 0 && Bounded(s)
    ensures Bounded(Step(s))
  {
    StepClosedForm(s);
  }

  /**
   Main holds whatever the three holding tracks do not; with at least
   MinBallCount balls that is never nothing, since the holding tracks hold at
   most 4 + 11 + 11 = 26.
   */
  lemma MainHoldsTheRest(s: State, n: nat)
    requires Inv(s, n)
    ensures |s.main| == n - |s.min| - |s.fiveMin| - |s.hour|
    ensures |s.main| >= n - (MinSize - 1) - (FiveMinSize - 1) - (HourSize - 1)
    ensures MinBallCount <= n ==> |s.main| > 0
  {
    assert |Balls(s)| == |multiset(Iota(n))| == n;
  }

  /** A valid clock of at least MinBallCount balls can always step, and stays valid. */
  lemma StepPreservesInv(s: State, n: nat)
    requires MinBallCount <= n && Inv(s, n)
    ensures |s.main| > 0
    ensures Inv(Step(s), n)
  {
    MainHoldsTheRest(s, n);
    StepConserves(s);
    StepKeepsBounds(s);
  }

  /** The clock at time zero is valid. */
  lemma InitialInv(n: nat)
    ensures Inv(Initial(n), n)
  {
  }

  /**
   On a valid clock the cycle check holds exactly when the clock is back at
   its starting state.
   */
  lemma CycleDoneIsInitial(s: State, n: nat)
    requires Inv(s, n)
    ensures CycleDone(s, n) <==> s == Initial(n)
  {
    if CycleDone(s, n) {
      MainHoldsTheRest(s, n);
      assert s.min == [] && s.fiveMin == [] && s.hour == [];
      assert multiset(s.main) == Balls(s);
      OrderedPermutationIsIota(s.main, n);
    }
    if s == Initial(n) {
      IotaOrdered(n);
    }
  }

  /** A minute that does not fill the minute track only moves one ball. */
  lemma StepWithoutDump(s: State)
    requires |s.main| > 0 && |s.min| + 1 < MinSize
    ensures Step(s) == State(s.main[1..], s.min + [s.main[0]], s.fiveMin, s.hour)
  {
  }

  /**
   The first five minutes of any clock: the first minute-track dump sends
   ball 5 (the last one added) on to the five-minute track and balls 4, 3,
   2, 1 back to the end of main.
   */
  lemma FirstDump(n: nat)
    requires MinBallCount <= n
    ensures Run(Initial(n), 5) == State(Iota(n)[5..] + [4, 3, 2, 1], [], [5], [])
  {
    var t := Iota(n);
    var s4 := State(t[4..], [1, 2, 3, 4], [], []);
    var s5 := State(t[5..] + [4, 3, 2, 1], [], [5], []);
    FirstFourMinutes(n);
    assert Step(s4) == s5 by {
      assert t[4..][1..] == t[5..];
      assert s4.main[0] == 5;
      assert Reversed([1, 2, 3, 4]) == [4, 3, 2, 1];
      StepClosedForm(s4);
    }
    assert Run(s4, 1) == s5 by { assert Run(s5, 0) == s5; }
  }

  lemma FirstFourMinutes(n: nat)
    requires MinBallCount <= n
    ensures Run(Initial(n), 5) == Run(State(Iota(n)[4..], [1, 2, 3, 4], [], []), 1)
  {
    var t := Iota(n);
    var s0 := Initial(n);
    var s1 := State(t[1..], [1], [], []);
    var s2 := State(t[2..], [1, 2], [], []);
    var s3 := State(t[3..], [1, 2, 3], [], []);
    var s4 := State(t[4..], [1, 2, 3, 4], [], []);
    assert Step(s0) == s1 by { StepWithoutDump(s0); }
    assert Step(s1) == s2 by { assert t[1..][1..] == t[2..]; StepWithoutDump(s1); }
    assert Step(s2) == s3 by { assert t[2..][1..] == t[3..]; StepWithoutDump(s2); }
    assert Step(s3) == s4 by { assert t[3..][1..] == t[4..]; StepWithoutDump(s3); }
    assert Run(s0, 5) == Run(s1, 4) == Run(s2, 3) == Run(s3, 2) == Run(s4, 1);
  }

  /** On a valid clock, one more minute is one more step. */
  lemma {:induction false} RunNext(s: State, n: nat, k: nat)
    requires MinBallCount <= n && Inv(s, n)
    ensures Inv(Run(s, k), n) && |Run(s, k).main| > 0
    ensures Run(s, k + 1) == Step(Run(s, k))
    decreases k
  {
    StepPreservesInv(s, n);
    if k > 0 {
      RunNext(Step(s), n, k - 1);
    }
  }

  /**
   Main is a queue: a minute takes its front ball and only ever appends
   behind the balls that were already waiting.
   */
  lemma StepKeepsQueueOrder(s: State)
    requires |s.main| > 0
    ensures |Step(s).main| >= |s.main| - 1
    ensures Step(s).main[..|s.main| - 1] == s.main[1..]
  {
    StepClosedForm(s);
  }

  /**
   For the first n minutes the untouched tail of the starting reservoir is
   still at the front of main, in order: after k minutes main begins with
   balls k+1..n.
   */
  lemma {:induction false} EarlyMain(n: nat, k: nat)
    requires MinBallCount <= n && k <= n
    ensures |Run(Initial(n), k).main| >= n - k
    ensures Run(Initial(n), k).main[..n - k] == Iota(n)[k..]
    decreases k
  {
    if k > 0 {
      EarlyMain(n, k - 1);
      InitialInv(n);
      RunNext(Initial(n), n, k - 1);
      var s := Run(Initial(n), k - 1);
      StepKeepsQueueOrder(s);
      assert Step(s).main[..n - k] == s.main[1..][..n - k];
      assert s.main[1..][..n - k] == s.main[..n - k + 1][1..];
      assert Iota(n)[k - 1..][1..] == Iota(n)[k..];
    }
  }

  /** A clock of n balls cannot be back at its starting state before n minutes have passed. */
  lemma NoEarlyReturn(n: nat, k: nat)
    requires MinBallCount <= n && 1 <= k < n
    ensures Run(Initial(n), k) != Initial(n)
  {
    EarlyMain(n, k);
    assert Run(Initial(n), k).main[0] == Iota(n)[k..][0] == k + 1;
  }

  /** The four tracks of a running clock, updated in place minute by minute. */
  class Sequences {
    var main: seq<int>
    var min: seq<int>
    var fiveMin: seq<int>
    var hour: seq<int>

    function Snapshot(): State
      reads this
    {
      State(main, min, fiveMin, hour)
    }

    /** A clock of numBalls balls at time zero. */
    constructor (numBalls: nat)
      ensures Snapshot() == Initial(numBalls)
    {
      var balls := FillSequential(numBalls);
      main, min, fiveMin, hour := balls, [], [], [];
    }

    /** Replaces the contents of one track. */
    method Put(t: Track, balls: seq<int>)
      modifies this
      ensures Snapshot() == old(Snapshot()).With(t, balls)
    {
      match t
      case MainTrack => main := balls;
      case MinTrack => min := balls;
      case FiveMinTrack => fiveMin := balls;
      case HourTrack => hour := balls;
    }

    /** Dumps track `src`, sending its last ball to `next` and the rest to main. */
    method Dump(src: Track, next: Track)
      requires src != MainTrack && |Snapshot().Get(src)| > 0
      modifies this
      ensures Snapshot() == DumpState(old(Snapshot()), src, next)
    {
      ghost var s0 := Snapshot();
      var d := Snapshot().Get(src);
      var lastBall := d[|d| - 1];
      var index := |d| - 2;
      while index >= 0
        invariant -1 <= index <= |d| - 2
        invariant main == s0.main + Reversed(d[index + 1..|d| - 1])
        invariant min == s0.min && fiveMin == s0.fiveMin && hour == s0.hour
      {
        ReversedExtend(d, index, |d| - 1);
        main := main + [d[index]];
        index := index - 1;
      }
      var s1 := Snapshot();
      assert s1 == s0.With(MainTrack, s0.main + Reversed(d[..|d| - 1])) by {
        assert d[0..|d| - 1] == d[..|d| - 1];
      }
      Put(next, s1.Get(next) + [lastBall]);
      Put(src, []);
    }

    /** Advances the clock by one minute. */
    method SimulateOneMinute()
      requires |main| > 0
      modifies this
      ensures Snapshot() == Step(old(Snapshot()))
    {
      var ballToMove := main[0];
      main := main[1..];
      min := min + [ballToMove];
      if |min| == MinSize {
        Dump(MinTrack, FiveMinTrack);
        if |fiveMin| == FiveMinSize {
          Dump(FiveMinTrack, HourTrack);
          if |hour| == HourSize {
            Dump(HourTrack, MainTrack);
          }
        }
      }
    }
  }
}
