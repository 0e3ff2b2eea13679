/**
Weighted progress of a bulk process over six stages. Later stages do not count
until the earlier ones are complete; the percentage is rounded half to even. The
weights are percent points and ratios are exact.
*/
module PipelineProgress {
  datatype Stage = Download | Land | Promote | Matching | Review | Fulfillment

  const ORDER: seq<Stage> := [Download, Land, Promote, Matching, Review, Fulfillment]

  datatype Counts = Counts(total: nat, open: nat, success: nat, failed: nat, other: nat)

  const EMPTY := Counts(0, 0, 0, 0, 0)

  datatype Status = Complete | NeedsAttention | InProgress

  datatype Overall = Overall(percent: int, current: Stage, status: Status)

  function Index(k: Stage): nat {
    match k
    case Download => 0
    case Land => 1
    case Promote => 2
    case Matching => 3
    case Review => 4
    case Fulfillment => 5
  }

  /** Percent points of a stage. */
  function Weight(k: Stage): nat {
    match k
    case Download => 10
    case Land => 15
    case Promote => 20
    case Matching => 30
    case Review => 15
    case Fulfillment => 10
  }

  function CountsOf(stages: map<Stage, Counts>, k: Stage): Counts {
    if k in stages then stages[k] else EMPTY
  }

  function Ratio(c: Counts): real {
    if c.total == 0 then 0.0 else c.success as real / c.total as real
  }

  /** An incomplete stage, or an empty one that still has to happen, hides every later stage. */
  predicate Blocks(k: Stage, c: Counts) {
    || c.open > 0 || c.failed > 0 || (c.total > 0 && c.success < c.total)
    || (c.total == 0 && (k == Land || k == Promote || k == Matching))
  }

  function RoundHalfEven(x: real): int {
    var f := x.Floor;
    var d := x - f as real;
    if d < 0.5 || (d == 0.5 && f % 2 == 0) then f else f + 1
  }

  function Clamped(x: real): real {
    if x < 0.0 then 0.0 else if x > 100.0 then 100.0 else x
  }

  /** The points a stage earns by itself. */
  function Earned(k: Stage, c: Counts): real {
    match k
    case Download => 10.0 * Ratio(c)
    case Land => 15.0 * Ratio(c)
    case Promote => 20.0 * Ratio(c)
    case Matching => 30.0 * Ratio(c)
    case Review => 15.0 * Ratio(c)
    case Fulfillment => 10.0 * Ratio(c)
  }

  /** The points of stage i and, unless it blocks, of the later ones. */
  function Points(stages: map<Stage, Counts>, i: nat): real
    decreases 6 - i
  {
    if i >= 6 then 0.0
    else
      var c := CountsOf(stages, ORDER[i]);
      Earned(ORDER[i], c) + if Blocks(ORDER[i], c) then 0.0 else Points(stages, i + 1)
  }

  /** The first blocking stage from i on; fulfillment when none blocks. */
  function Current(stages: map<Stage, Counts>, i: nat): Stage
    decreases 6 - i
  {
    if i >= 6 then Fulfillment
    else if Blocks(ORDER[i], CountsOf(stages, ORDER[i])) then ORDER[i]
    else Current(stages, i + 1)
  }

  predicate AnyOpen(stages: map<Stage, Counts>) {
    exists k | k in stages :: stages[k].open > 0
  }

  predicate AnyFailed(stages: map<Stage, Counts>) {
    exists k | k in stages :: stages[k].failed > 0
  }

  function Percent(stages: map<Stage, Counts>): int {
    RoundHalfEven(Clamped(Points(stages, 0)))
  }

  function Derived(stages: map<Stage, Counts>): Overall {
    var percent := Percent(stages);
    var open, failed := AnyOpen(stages), AnyFailed(stages);
    if percent >= 100 && !open && !failed then Overall(percent, Fulfillment, Complete)
    else if failed && !open then Overall(percent, Current(stages, 0), NeedsAttention)
    else if open || percent < 100 then Overall(percent, Current(stages, 0), InProgress)
    else Overall(percent, Current(stages, 0), Complete)
  }

  /** The loop over the stages: what they earn up to the first that blocks, and which that is. */
  method EarnedAndCurrent(stages: map<Stage, Counts>) returns (weighted: real, currentStage: Stage)
    ensures weighted == Points(stages, 0) && currentStage == Current(stages, 0)
  {
    weighted := 0.0;
    currentStage := Download;
    var blocked := false;
    for i := 0 to |ORDER|
      invariant blocked ==> weighted == Points(stages, 0) && currentStage == Current(stages, 0)
      invariant !blocked ==> weighted + Points(stages, i) == Points(stages, 0)
      invariant !blocked ==> Current(stages, i) == Current(stages, 0)
    {
      var key := ORDER[i];
      var stage := CountsOf(stages, key);
      if !blocked {
        weighted := weighted + Earned(key, stage);
        if Blocks(key, stage) {
          currentStage := key;
          blocked := true;
        }
      }
    }
    if !blocked {
      currentStage := Fulfillment;
    }
  }

  method DeriveOverall(stages: map<Stage, Counts>) returns (overall: Overall)
    ensures overall == Derived(stages)
  {
    var weighted, currentStage := EarnedAndCurrent(stages);
    var percent := RoundHalfEven(Clamped(weighted));
    var anyOpen, anyFailed := AnyOpen(stages), AnyFailed(stages);
    var status;
    if percent >= 100 && !anyOpen && !anyFailed {
      status := Complete;
      currentStage := Fulfillment;
    } else if anyFailed && !anyOpen {
      status := NeedsAttention;
    } else if anyOpen || percent < 100 {
      status := InProgress;
    } else {
      status := Complete;
    }
    overall := Overall(percent, currentStage, status);
  }

  // ---- what complete means --------------------------------------------------------

  ghost predicate Bounded(stages: map<Stage, Counts>) {
    forall k: Stage :: CountsOf(stages, k).success <= CountsOf(stages, k).total
  }

  predicate Full(c: Counts) {
    c.total > 0 && c.success == c.total
  }

  lemma Quotient(s: real, t: real, bound: real)
    requires t > 0.0
    ensures s / t >= bound <==> s >= bound * t
    ensures s / t == bound <==> s == bound * t
  {
    var r := s / t;
    assert r * t == s;
    if r > bound {
      assert (r - bound) * t > 0.0;
    }
    if r < bound {
      assert (bound - r) * t > 0.0;
    }
  }

  lemma RatioBounds(c: Counts)
    requires c.success <= c.total
    ensures 0.0 <= Ratio(c) <= 1.0
    ensures Ratio(c) == 1.0 <==> Full(c)
    ensures Ratio(c) >= 0.95 <==> c.total > 0 && 20 * c.success >= 19 * c.total
  {
    if c.total > 0 {
      var s, t := c.success as real, c.total as real;
      Quotient(s, t, 0.0);
      Quotient(s, t, 1.0);
      Quotient(s, t, 0.95);
    }
  }

  /** Stage i and the later ones earn at most their weights. */
  function WeightsFrom(i: nat): nat
    decreases 6 - i
  {
    if i >= 6 then 0 else Weight(ORDER[i]) + WeightsFrom(i + 1)
  }

  lemma {:induction false} PointsBounds(stages: map<Stage, Counts>, i: nat)
    requires Bounded(stages)
    ensures 0.0 <= Points(stages, i) <= WeightsFrom(i) as real
    decreases 6 - i
  {
    if i < 6 {
      var k := ORDER[i];
      RatioBounds(CountsOf(stages, k));
      PointsBounds(stages, i + 1);
    }
  }

  /** All but half a point is earned exactly when nothing but fulfillment falls short, and that by at most 5%. */
  lemma {:induction false} NearlyAllPoints(stages: map<Stage, Counts>, i: nat)
    requires Bounded(stages) && !AnyOpen(stages) && !AnyFailed(stages) && i < 6
    ensures Points(stages, i) >= WeightsFrom(i) as real - 0.5 <==>
      (forall j | i <= j < 5 :: Full(CountsOf(stages, ORDER[j]))) && Ratio(CountsOf(stages, Fulfillment)) >= 0.95
    decreases 6 - i
  {
    if i == 5 {
      LastStagePoints(stages);
    } else {
      NearlyAllPoints(stages, i + 1);
      if Full(CountsOf(stages, ORDER[i])) {
        FullEarnsAll(stages, i);
      } else {
        PartialEarnsLess(stages, i);
      }
    }
  }

  lemma LastStagePoints(stages: map<Stage, Counts>)
    requires Bounded(stages)
    ensures Points(stages, 5) >= WeightsFrom(5) as real - 0.5 <==> Ratio(CountsOf(stages, Fulfillment)) >= 0.95
  {
    assert Points(stages, 6) == 0.0 && WeightsFrom(6) == 0;
  }

  lemma FullEarnsAll(stages: map<Stage, Counts>, i: nat)
    requires i < 6 && Full(CountsOf(stages, ORDER[i]))
    requires CountsOf(stages, ORDER[i]).open == 0 && CountsOf(stages, ORDER[i]).failed == 0
    ensures Points(stages, i) - Points(stages, i + 1) == (WeightsFrom(i) - WeightsFrom(i + 1)) as real
  {
    RatioBounds(CountsOf(stages, ORDER[i]));
  }

  lemma PartialEarnsLess(stages: map<Stage, Counts>, i: nat)
    requires Bounded(stages) && i < 5 && !Full(CountsOf(stages, ORDER[i]))
    ensures Points(stages, i) < WeightsFrom(i) as real - 0.5
  {
    assert WeightsFrom(5) == 10 && WeightsFrom(i + 1) >= 10;
    var k := ORDER[i];
    var c := CountsOf(stages, k);
    RatioBounds(c);
    if !Blocks(k, c) {
      assert c.total == 0;
      PointsBounds(stages, i + 1);
    }
  }

  lemma RoundReaches100(x: real)
    ensures RoundHalfEven(Clamped(x)) >= 100 <==> x >= 99.5
    ensures 0 <= RoundHalfEven(Clamped(x)) <= 100
  {
  }

  /**
   The status is complete exactly when nothing is open or failed, the first five
   stages are non-empty and fully successful, and fulfillment is non-empty and at
   least 95% successful.
   */
  lemma CompleteExactly(stages: map<Stage, Counts>)
    requires Bounded(stages)
    ensures Derived(stages).status.Complete? <==>
      && !AnyOpen(stages) && !AnyFailed(stages)
      && (forall k: Stage | k != Fulfillment :: Full(CountsOf(stages, k)))
      && var f := CountsOf(stages, Fulfillment); f.total > 0 && 20 * f.success >= 19 * f.total
  {
    RoundReaches100(Points(stages, 0));
    RatioBounds(CountsOf(stages, Fulfillment));
    assert WeightsFrom(0) == 100;
    if !AnyOpen(stages) && !AnyFailed(stages) {
      NearlyAllPoints(stages, 0);
      forall k: Stage | k != Fulfillment ensures ORDER[Index(k)] == k && Index(k) < 5 {
      }
      assert (forall j | 0 <= j < 5 :: Full(CountsOf(stages, ORDER[j])))
        ==> forall k: Stage | k != Fulfillment :: Full(CountsOf(stages, k)) by {
        if forall j | 0 <= j < 5 :: Full(CountsOf(stages, ORDER[j])) {
          forall k: Stage | k != Fulfillment ensures Full(CountsOf(stages, k)) {
            assert Full(CountsOf(stages, ORDER[Index(k)]));
          }
        }
      }
    }
  }

  ghost predicate SomeOpen(stages: map<Stage, Counts>) {
    exists k: Stage :: CountsOf(stages, k).open > 0
  }

  ghost predicate SomeFailed(stages: map<Stage, Counts>) {
    exists k: Stage :: CountsOf(stages, k).failed > 0
  }

  /** All of the first five stages, and 95 in 100 of fulfillment. */
  ghost predicate Achieved(stages: map<Stage, Counts>) {
    && (forall k: Stage | k != Fulfillment :: Full(CountsOf(stages, k)))
    && var f := CountsOf(stages, Fulfillment); f.total > 0 && 100 * f.success >= 95 * f.total
  }

  lemma OpenAndFailedStages(stages: map<Stage, Counts>)
    ensures AnyOpen(stages) <==> SomeOpen(stages)
    ensures AnyFailed(stages) <==> SomeFailed(stages)
  {
    forall k | k in stages ensures stages[k] == CountsOf(stages, k) {
    }
  }

  /**
   Failed work asks for attention exactly when nothing is open; open work means in progress, and
   so does quiet work that has not achieved its goal; only quiet work that has is complete.
   */
  lemma StatusExactly(stages: map<Stage, Counts>)
    requires Bounded(stages)
    ensures Derived(stages).status.NeedsAttention? <==> SomeFailed(stages) && !SomeOpen(stages)
    ensures Derived(stages).status.InProgress? <==>
      SomeOpen(stages) || (!SomeFailed(stages) && !Achieved(stages))
    ensures Derived(stages).status.Complete? <==>
      !SomeOpen(stages) && !SomeFailed(stages) && Achieved(stages)
  {
    CompleteExactly(stages);
    OpenAndFailedStages(stages);
  }

  /** Nothing of the stage is open, failed or missing, and a land, promote or matching stage has happened. */
  predicate Passed(k: Stage, c: Counts) {
    && c.open == 0 && c.failed == 0 && c.success >= c.total
    && (k in {Land, Promote, Matching} ==> c.total > 0)
  }

  /** The current stage is the first that has not passed, and fulfillment when the first five have. */
  lemma CurrentExactly(stages: map<Stage, Counts>, n: nat)
    requires Bounded(stages) && n < 6
    ensures Derived(stages).current == [Download, Land, Promote, Matching, Review, Fulfillment][n] <==>
      && (forall j | 0 <= j < n :: Passed(ORDER[j], CountsOf(stages, ORDER[j])))
      && (n < 5 ==> !Passed(ORDER[n], CountsOf(stages, ORDER[n])))
  {
    FirstBlocking(stages, 0, n);
    if Derived(stages).status.Complete? {
      CompleteExactly(stages);
      OpenAndFailedStages(stages);
      assert forall j | 0 <= j < 5 :: Passed(ORDER[j], CountsOf(stages, ORDER[j]));
    }
  }

  lemma {:induction false} FirstBlocking(stages: map<Stage, Counts>, i: nat, n: nat)
    requires i <= n < 6
    ensures Current(stages, i) == ORDER[n] <==>
      && (forall j | i <= j < n :: Passed(ORDER[j], CountsOf(stages, ORDER[j])))
      && (n < 5 ==> !Passed(ORDER[n], CountsOf(stages, ORDER[n])))
    decreases n - i
  {
    if i < n {
      FirstBlocking(stages, i + 1, n);
    } else {
      CurrentAtLeast(stages, i + 1);
    }
  }

  /** What a process shows on entering each stage, and at the end. */
  const MILESTONES: seq<int> := [0, 10, 25, 45, 75, 90, 100]

  predicate Quiet(c: Counts) {
    c.open == 0 && c.failed == 0
  }

  lemma {:induction false} FullPrefixEarns(stages: map<Stage, Counts>, i: nat, n: nat)
    requires i <= n < 6
    requires forall j | i <= j < n :: Full(CountsOf(stages, ORDER[j])) && Quiet(CountsOf(stages, ORDER[j]))
    requires n < 5 ==> !Passed(ORDER[n], CountsOf(stages, ORDER[n]))
    ensures Points(stages, i) ==
      (WeightsFrom(i) - WeightsFrom(n)) as real + Earned(ORDER[n], CountsOf(stages, ORDER[n]))
    ensures Current(stages, i) == ORDER[n]
    decreases n - i
  {
    if i < n {
      FullPrefixEarns(stages, i + 1, n);
      FullEarnsAll(stages, i);
    } else if n == 5 {
      assert Points(stages, 6) == 0.0;
    }
  }

  lemma Milestone(n: nat)
    requires n < 6
    ensures WeightsFrom(0) - WeightsFrom(n) == MILESTONES[n]
  {
    assert WeightsFrom(5) == 10;
    assert WeightsFrom(4) == 25;
    assert WeightsFrom(3) == 55;
    assert WeightsFrom(2) == 75;
  }

  /** The part of a stage's points that its successes earn, from one milestone to the next. */
  function Share(n: nat, c: Counts): real
    requires n < 6
  {
    if c.total == 0 then 0.0
    else (MILESTONES[n + 1] - MILESTONES[n]) as real * (c.success as real / c.total as real)
  }

  lemma StageShare(n: nat, c: Counts)
    requires n < 6
    ensures Earned(ORDER[n], c) == Share(n, c)
    ensures c.success == 0 ==> Share(n, c) == 0.0
  {
    match n
    case 0 =>
    case 1 =>
    case 2 =>
    case 3 =>
    case 4 =>
    case _ =>
  }

  /**
   With the first n stages full and quiet, the points lie between that stage's milestone and the
   next, as far along as the stage's successes among its total; 0 and 100 at the ends.
   */
  lemma PointsWithinStage(stages: map<Stage, Counts>, n: nat)
    requires n < 6
    requires forall j | 0 <= j < n :: Full(CountsOf(stages, ORDER[j])) && Quiet(CountsOf(stages, ORDER[j]))
    requires n < 5 ==> !Passed(ORDER[n], CountsOf(stages, ORDER[n]))
    ensures Points(stages, 0) == MILESTONES[n] as real + Share(n, CountsOf(stages, ORDER[n]))
  {
    FullPrefixEarns(stages, 0, n);
    Milestone(n);
    StageShare(n, CountsOf(stages, ORDER[n]));
  }

  /** With nothing achieved in that stage the percentage is its milestone. */
  lemma PercentOnEntering(stages: map<Stage, Counts>, n: nat)
    requires n < 6
    requires forall j | 0 <= j < n :: Full(CountsOf(stages, ORDER[j])) && Quiet(CountsOf(stages, ORDER[j]))
    requires n < 5 ==> !Passed(ORDER[n], CountsOf(stages, ORDER[n]))
    requires CountsOf(stages, ORDER[n]).success == 0
    ensures Percent(stages) == [0, 10, 25, 45, 75, 90][n]
  {
    PointsWithinStage(stages, n);
    StageShare(n, CountsOf(stages, ORDER[n]));
    WholeMilestone(MILESTONES[n]);
  }

  lemma WholeMilestone(m: int)
    requires 0 <= m <= 100
    ensures RoundHalfEven(Clamped(m as real)) == m
  {
  }

  lemma RoundIsNearest(x: real)
    ensures -0.5 <= RoundHalfEven(x) as real - x <= 0.5
    ensures x - x.Floor as real == 0.5 ==> RoundHalfEven(x) % 2 == 0
  {
  }

  /** With successes within totals no clamping occurs, and the percentage is the nearest integer, even on a tie. */
  lemma PercentIsNearest(stages: map<Stage, Counts>)
    requires Bounded(stages)
    ensures 0.0 <= Points(stages, 0) <= 100.0
    ensures -0.5 <= Percent(stages) as real - Points(stages, 0) <= 0.5
    ensures Points(stages, 0) - Points(stages, 0).Floor as real == 0.5 ==> Percent(stages) % 2 == 0
  {
    PointsBounds(stages, 0);
    WholeWeight();
    RoundIsNearest(Points(stages, 0));
  }

  lemma WholeWeight()
    ensures WeightsFrom(0) == 100
  {
    assert WeightsFrom(5) == 10;
    assert WeightsFrom(3) == 55;
  }

  // ---- progress never goes backwards -------------------------------------------------

  /** The same totals with no fewer successes and no more open or failed work. */
  ghost predicate Further(a: map<Stage, Counts>, b: map<Stage, Counts>) {
    forall k: Stage ::
      var c, d := CountsOf(a, k), CountsOf(b, k);
      c.total == d.total && c.success <= d.success <= d.total && d.open <= c.open && d.failed <= c.failed
  }

  lemma RatioGrows(c: Counts, d: Counts)
    requires c.total == d.total && c.success <= d.success <= d.total
    ensures 0.0 <= Ratio(c) <= Ratio(d)
  {
    RatioBounds(c);
    if c.total > 0 {
      Quotient(c.success as real, c.total as real, Ratio(c));
      Quotient(d.success as real, c.total as real, Ratio(c));
    }
  }

  lemma StageGrows(k: Stage, c: Counts, d: Counts)
    requires c.total == d.total && c.success <= d.success <= d.total && d.open <= c.open && d.failed <= c.failed
    ensures Earned(k, c) <= Earned(k, d) && (Blocks(k, d) ==> Blocks(k, c))
  {
    RatioGrows(c, d);
  }

  lemma {:induction false} PointsGrow(a: map<Stage, Counts>, b: map<Stage, Counts>, i: nat)
    requires Further(a, b)
    ensures Points(a, i) <= Points(b, i)
    decreases 6 - i
  {
    if i < 6 {
      StageGrows(ORDER[i], CountsOf(a, ORDER[i]), CountsOf(b, ORDER[i]));
      PointsGrow(a, b, i + 1);
      PointsBounds(b, i + 1);
    }
  }

  lemma {:induction false} CurrentAdvances(a: map<Stage, Counts>, b: map<Stage, Counts>, i: nat)
    requires Further(a, b)
    ensures Index(Current(a, i)) <= Index(Current(b, i))
    decreases 6 - i
  {
    if i < 6 {
      var k := ORDER[i];
      assert Index(k) == i;
      assert Blocks(k, CountsOf(b, k)) ==> Blocks(k, CountsOf(a, k));
      CurrentAdvances(a, b, i + 1);
      CurrentAtLeast(b, i + 1);
    }
  }

  lemma {:induction false} CurrentAtLeast(stages: map<Stage, Counts>, i: nat)
    ensures Index(Current(stages, i)) >= if i < 6 then i else 5
    decreases 6 - i
  {
    if i < 6 {
      CurrentAtLeast(stages, i + 1);
    }
  }

  lemma RoundMonotone(x: real, y: real)
    requires x <= y
    ensures RoundHalfEven(Clamped(x)) <= RoundHalfEven(Clamped(y))
  {
  }

  /** Percent stays in 0..100 and, with fixed totals, neither it nor the current stage moves back. */
  lemma ProgressNeverGoesBack(a: map<Stage, Counts>, b: map<Stage, Counts>)
    requires Further(a, b)
    ensures 0 <= Derived(a).percent <= Derived(b).percent <= 100
    ensures Index(Derived(a).current) <= Index(Derived(b).current)
    ensures Derived(a).status.Complete? ==> Derived(b).status.Complete?
  {
    PointsGrow(a, b, 0);
    CurrentAdvances(a, b, 0);
    RoundMonotone(Points(a, 0), Points(b, 0));
    RoundReaches100(Points(a, 0));
    RoundReaches100(Points(b, 0));
    forall k | k in b ensures b[k].open <= CountsOf(a, k).open && b[k].failed <= CountsOf(a, k).failed {
      assert CountsOf(b, k) == b[k];
    }
  }
}
