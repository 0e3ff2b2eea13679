/**
A bulk process card: ledger rows and rollup counters become stage counts, the
headline matching stage is the live vertical that lags most, and the overall
progress is derived from the six stages.
*/
module ProcessCard {
  import opened Common
  import opened PipelineProgress

  // ---- ledger stages -----------------------------------------------------------

  datatype Bucket = OpenWork | Succeeded | Broken | Unclassified

  function StatusBucket(status: string): Bucket {
    if status in ["pending", "claimed", "in_flight"] then OpenWork
    else if status == "success" then Succeeded
    else if status in ["submit_error", "outcome_error", "timeout", "abandoned", "failed"] then Broken
    else Unclassified
  }

  function Accumulated(c: Counts, status: string, n: nat): Counts {
    var d := c.(total := c.total + n);
    match StatusBucket(status)
    case OpenWork => d.(open := c.open + n)
    case Succeeded => d.(success := c.success + n)
    case Broken => d.(failed := c.failed + n)
    case Unclassified => d.(other := c.other + n)
  }

  datatype LedgerRow = LedgerRow(step: string, status: string, count: nat)

  /** How many attempts of a step fall into a bucket. */
  function CountIn(rows: seq<LedgerRow>, step: string, b: Bucket): nat {
    if rows == [] then 0
    else
      var last := rows[|rows| - 1];
      CountIn(rows[..|rows| - 1], step, b)
      + if last.step == step && StatusBucket(last.status) == b then last.count else 0
  }

  function StepCounts(rows: seq<LedgerRow>, step: string): Counts {
    var open, success := CountIn(rows, step, OpenWork), CountIn(rows, step, Succeeded);
    var failed, other := CountIn(rows, step, Broken), CountIn(rows, step, Unclassified);
    Counts(open + success + failed + other, open, success, failed, other)
  }

  lemma StepCountsExtend(rows: seq<LedgerRow>, row: LedgerRow, step: string)
    ensures StepCounts(rows + [row], step) ==
      if row.step == step then Accumulated(StepCounts(rows, step), row.status, row.count) else StepCounts(rows, step)
  {
    assert (rows + [row])[..|rows|] == rows;
  }

  method AccumulateIngestLedgerRows(rows: seq<LedgerRow>) returns (land: Counts, promote: Counts)
    ensures land == StepCounts(rows, "land") && promote == StepCounts(rows, "promote")
  {
    land, promote := EMPTY, EMPTY;
    for i := 0 to |rows|
      invariant land == StepCounts(rows[..i], "land") && promote == StepCounts(rows[..i], "promote")
    {
      var row := rows[i];
      assert rows[..i + 1] == rows[..i] + [row];
      StepCountsExtend(rows[..i], row, "land");
      StepCountsExtend(rows[..i], row, "promote");
      if row.step == "land" {
        land := Accumulated(land, row.status, row.count);
      } else if row.step == "promote" {
        promote := Accumulated(promote, row.status, row.count);
      }
    }
    assert rows[..|rows|] == rows;
  }

  /** Some attempt of the step is counted, and all counted ones succeeded. */
  ghost predicate AllSucceeded(rows: seq<LedgerRow>, step: string) {
    && (exists i :: 0 <= i < |rows| && rows[i].step == step && rows[i].count > 0)
    && (forall i :: 0 <= i < |rows| && rows[i].step == step && rows[i].count > 0 ==> rows[i].status == "success")
  }

  lemma {:induction false} BucketEmpty(rows: seq<LedgerRow>, step: string, b: Bucket)
    ensures CountIn(rows, step, b) == 0 <==>
      forall i :: 0 <= i < |rows| && rows[i].step == step && rows[i].count > 0 ==> StatusBucket(rows[i].status) != b
  {
    if rows != [] {
      BucketEmpty(rows[..|rows| - 1], step, b);
    }
  }

  lemma LedgerFull(rows: seq<LedgerRow>, step: string)
    ensures
      var c := StepCounts(rows, step);
      c.success <= c.total && (Full(c) && c.open == 0 && c.failed == 0 <==> AllSucceeded(rows, step))
  {
    BucketEmpty(rows, step, OpenWork);
    BucketEmpty(rows, step, Succeeded);
    BucketEmpty(rows, step, Broken);
    BucketEmpty(rows, step, Unclassified);
    forall i | 0 <= i < |rows|
      ensures StatusBucket(rows[i].status).Succeeded? <==> rows[i].status == "success" {
    }
  }

  // ---- rollup stages ------------------------------------------------------------

  datatype Rollup = Rollup(
    requestRows: nat,
    pending: nat, claimed: nat, inFlight: nat, matched: nat, failed: nat, abandoned: nat, unstarted: Option<nat>,
    reviewPending: nat, reviewApproved: nat,
    unset: nat, done: nat)

  function Minus(a: nat, b: nat): nat {
    if a < b then 0 else a - b
  }

  function MatchingFromRollup(r: Rollup): Counts {
    var bucketed := r.pending + r.claimed + r.inFlight + r.matched + r.failed + r.abandoned;
    var unstarted := match r.unstarted case None => Minus(r.requestRows, bucketed) case Some(n) => n;
    var open := r.pending + r.claimed + r.inFlight + unstarted;
    var failed := r.failed + r.abandoned;
    var total := open + r.matched + failed;
    if total == 0 && r.requestRows > 0 then Counts(r.requestRows, r.requestRows, r.matched, failed, 0)
    else Counts(total, open, r.matched, failed, 0)
  }

  function ReviewFromRollup(r: Rollup): Counts {
    if r.requestRows > 0 then
      var success := if r.reviewApproved < r.requestRows then r.reviewApproved else r.requestRows;
      var open := Minus(r.requestRows, success);
      Counts(r.requestRows, if open < r.reviewPending then r.reviewPending else open, success, 0, 0)
    else
      Counts(r.reviewPending + r.reviewApproved, r.reviewPending, r.reviewApproved, 0, 0)
  }

  function FulfillFromRollup(r: Rollup): Counts {
    var total := if r.requestRows < r.unset + r.done then r.unset + r.done else r.requestRows;
    Counts(total, r.unset, r.done, 0, Minus(total, r.unset + r.done))
  }

  /** Matching and fulfillment count every unit once; no stage has more successes than units. */
  lemma RollupConserves(r: Rollup)
    ensures var m := MatchingFromRollup(r); m.total == m.open + m.success + m.failed + m.other
    ensures var f := FulfillFromRollup(r);
      f.total == f.open + f.success + f.failed + f.other && f.total >= r.requestRows
    ensures var v := ReviewFromRollup(r);
      v.success <= v.total && v.success <= r.reviewApproved && v.open >= r.reviewPending
    ensures r.unstarted.None? ==> MatchingFromRollup(r).total >= r.requestRows
    ensures var m := MatchingFromRollup(r);
      m.success == r.matched && m.failed == r.failed + r.abandoned && m.open >= r.pending + r.claimed + r.inFlight
    ensures var f := FulfillFromRollup(r); f.success == r.done && f.open == r.unset
    ensures var v := ReviewFromRollup(r);
      && (v.success == v.total || v.success == r.reviewApproved)
      && (v.open == r.reviewPending || v.open + v.success == v.total)
      && v.open + v.success >= r.requestRows
  {
  }

  /** Something matched, and nothing is queued, running, failed, abandoned or unstarted. */
  predicate MatchingSettled(r: Rollup) {
    && r.matched > 0
    && r.pending == r.claimed == r.inFlight == r.failed == r.abandoned == 0
    && (match r.unstarted case None => r.requestRows <= r.matched case Some(n) => n == 0)
  }

  lemma MatchingSettledExactly(r: Rollup)
    ensures Settled(MatchingFromRollup(r)) <==> MatchingSettled(r)
  {
  }

  // ---- the headline matching stage -------------------------------------------------

  datatype VerticalEntry = VerticalEntry(live: bool, catalogOnly: bool, matching: Counts)

  predicate IsCandidate(v: VerticalEntry) {
    v.live && !v.catalogOnly && v.matching.total > 0
  }

  /** The first of the candidates that lag most; the fallback when there is none. */
  ghost predicate IsHeadline(verticals: seq<VerticalEntry>, fallback: Counts, stage: Counts) {
    if forall i :: 0 <= i < |verticals| ==> !IsCandidate(verticals[i]) then stage == fallback
    else
      exists w :: 0 <= w < |verticals| && stage == verticals[w].matching && IsWorst(verticals, w)
  }

  ghost predicate IsWorst(verticals: seq<VerticalEntry>, w: nat)
    requires w < |verticals|
  {
    IsCandidate(verticals[w]) && LagsMost(verticals, w)
  }

  ghost predicate LagsMost(verticals: seq<VerticalEntry>, w: nat)
    requires w < |verticals|
  {
    forall i :: 0 <= i < |verticals| && IsCandidate(verticals[i]) ==>
      && Ratio(verticals[w].matching) <= Ratio(verticals[i].matching)
      && (i < w ==> Ratio(verticals[w].matching) < Ratio(verticals[i].matching))
  }

  method MatchingStageFromLiveVerticals(verticals: seq<VerticalEntry>, fallback: Counts) returns (stage: Counts)
    ensures IsHeadline(verticals, fallback, stage)
  {
    var found := false;
    var worst := 0;
    for i := 0 to |verticals|
      invariant found ==> worst < i && IsCandidate(verticals[worst]) && LagsMost(verticals[..i], worst)
      invariant !found ==> forall j :: 0 <= j < i ==> !IsCandidate(verticals[j])
    {
      if IsCandidate(verticals[i]) && (!found || Ratio(verticals[i].matching) < Ratio(verticals[worst].matching)) {
        found := true;
        worst := i;
      }
    }
    assert verticals[..|verticals|] == verticals;
    if !found {
      return fallback;
    }
    assert IsWorst(verticals, worst);
    stage := verticals[worst].matching;
  }

  /** The headline hides no lagging vertical: it is full exactly when every live counted vertical is. */
  lemma HeadlineFullMeansAll(verticals: seq<VerticalEntry>, fallback: Counts, stage: Counts)
    requires IsHeadline(verticals, fallback, stage)
    requires forall i :: 0 <= i < |verticals| ==> verticals[i].matching.success <= verticals[i].matching.total
    requires exists v | v in verticals :: v.live && !v.catalogOnly && v.matching.total > 0
    ensures Full(stage) <==>
      forall v | v in verticals && v.live && !v.catalogOnly && v.matching.total > 0 :: Full(v.matching)
  {
    var w :| 0 <= w < |verticals| && stage == verticals[w].matching && IsWorst(verticals, w);
    forall i | 0 <= i < |verticals|
      ensures Ratio(verticals[i].matching) <= 1.0
      ensures Ratio(verticals[i].matching) == 1.0 <==> Full(verticals[i].matching) {
      RatioBounds(verticals[i].matching);
    }
  }

  // ---- the whole card ------------------------------------------------------------------

  datatype Source = Source(
    downloadStatus: string, ledger: seq<LedgerRow>, rollup: Rollup, verticals: seq<VerticalEntry>)

  ghost predicate VerticalsBounded(src: Source) {
    forall i :: 0 <= i < |src.verticals| ==> src.verticals[i].matching.success <= src.verticals[i].matching.total
  }

  function CardStages(src: Source, matching: Counts): map<Stage, Counts> {
    map[
      Download := Accumulated(EMPTY, src.downloadStatus, 1),
      Land := StepCounts(src.ledger, "land"),
      Promote := StepCounts(src.ledger, "promote"),
      Matching := matching,
      Review := ReviewFromRollup(src.rollup),
      Fulfillment := FulfillFromRollup(src.rollup)]
  }

  method AssembleCard(src: Source) returns (overall: Overall, matching: Counts)
    ensures IsHeadline(src.verticals, MatchingFromRollup(src.rollup), matching)
    ensures overall == Derived(CardStages(src, matching))
  {
    var land, promote := AccumulateIngestLedgerRows(src.ledger);
    matching := MatchingStageFromLiveVerticals(src.verticals, MatchingFromRollup(src.rollup));
    overall := DeriveOverall(map[
      Download := Accumulated(EMPTY, src.downloadStatus, 1),
      Land := land,
      Promote := promote,
      Matching := matching,
      Review := ReviewFromRollup(src.rollup),
      Fulfillment := FulfillFromRollup(src.rollup)]);
  }

  /** Review is settled: something was approved, at least every row, and no review is waiting. */
  predicate ReviewSettled(r: Rollup) {
    r.reviewPending == 0 && r.reviewApproved > 0 && r.reviewApproved >= r.requestRows
  }

  predicate FulfillmentSettled(r: Rollup) {
    r.unset == 0 && r.done > 0 && 20 * r.done >= 19 * r.requestRows
  }

  lemma ReviewFullExactly(r: Rollup)
    ensures
      var v := ReviewFromRollup(r);
      Full(v) && v.open == 0 && v.failed == 0 <==> ReviewSettled(r)
  {
  }

  lemma FulfillmentFullExactly(r: Rollup)
    ensures
      var f := FulfillFromRollup(r);
      f.total > 0 && 20 * f.success >= 19 * f.total && f.open == 0 && f.failed == 0 <==> FulfillmentSettled(r)
  {
  }

  /**
   A card reads complete exactly when the download succeeded, every counted land and
   promote attempt did, the headline matching stage is full with nothing open or failed,
   review is settled, and at most one request in twenty is still to be fulfilled.
   */
  lemma CardCompleteExactly(src: Source, matching: Counts)
    requires IsHeadline(src.verticals, MatchingFromRollup(src.rollup), matching)
    requires VerticalsBounded(src)
    ensures Derived(CardStages(src, matching)).status.Complete? <==>
      && src.downloadStatus == "success"
      && AllSucceeded(src.ledger, "land") && AllSucceeded(src.ledger, "promote")
      && Settled(matching)
      && ReviewSettled(src.rollup) && FulfillmentSettled(src.rollup)
  {
    HeadlineBounded(src, matching);
    CardBounded(src, matching);
    CompleteByStage(CardStages(src, matching));
    CardSettled(src, matching);
  }

  /** Without a live counted vertical the card is complete exactly when each of its counters is settled. */
  lemma CardCompleteByCounters(src: Source)
    requires VerticalsBounded(src)
    requires forall v | v in src.verticals :: !v.live || v.catalogOnly || v.matching.total == 0
    ensures var r := src.rollup;
      Derived(CardStages(src, MatchingFromRollup(r))).status.Complete? <==>
        && src.downloadStatus == "success"
        && AllSucceeded(src.ledger, "land") && AllSucceeded(src.ledger, "promote")
        && MatchingSettled(r) && ReviewSettled(r) && FulfillmentSettled(r)
  {
    CardCompleteExactly(src, MatchingFromRollup(src.rollup));
    MatchingSettledExactly(src.rollup);
  }

  /** Some counted land or promote attempt has one of these statuses. */
  ghost predicate AttemptIn(rows: seq<LedgerRow>, step: string, statuses: set<string>) {
    exists i :: 0 <= i < |rows| && rows[i].step == step && rows[i].count > 0 && rows[i].status in statuses
  }

  const FAILED_STATUSES: set<string> := {"submit_error", "outcome_error", "timeout", "abandoned", "failed"}
  const OPEN_STATUSES: set<string> := {"pending", "claimed", "in_flight"}

  /** Something failed: the download, an attempt, or units of the headline matching stage. */
  ghost predicate CardFailed(src: Source, matching: Counts) {
    || src.downloadStatus in FAILED_STATUSES
    || AttemptIn(src.ledger, "land", FAILED_STATUSES) || AttemptIn(src.ledger, "promote", FAILED_STATUSES)
    || matching.failed > 0
  }

  /** Something is open: the download, an attempt, matching, a review waiting or missing, a request to fulfill. */
  ghost predicate CardOpen(src: Source, matching: Counts) {
    || src.downloadStatus in OPEN_STATUSES
    || AttemptIn(src.ledger, "land", OPEN_STATUSES) || AttemptIn(src.ledger, "promote", OPEN_STATUSES)
    || matching.open > 0
    || src.rollup.reviewPending > 0 || src.rollup.reviewApproved < src.rollup.requestRows
    || src.rollup.unset > 0
  }

  lemma LedgerBuckets(rows: seq<LedgerRow>, step: string)
    ensures StepCounts(rows, step).failed > 0 <==> AttemptIn(rows, step, FAILED_STATUSES)
    ensures StepCounts(rows, step).open > 0 <==> AttemptIn(rows, step, OPEN_STATUSES)
  {
    BucketEmpty(rows, step, Broken);
    BucketEmpty(rows, step, OpenWork);
    forall i | 0 <= i < |rows|
      ensures StatusBucket(rows[i].status).Broken? <==> rows[i].status in FAILED_STATUSES
      ensures StatusBucket(rows[i].status).OpenWork? <==> rows[i].status in OPEN_STATUSES {
    }
  }

  lemma CardOpenAndFailed(src: Source, matching: Counts)
    ensures SomeFailed(CardStages(src, matching)) <==> CardFailed(src, matching)
    ensures SomeOpen(CardStages(src, matching)) <==> CardOpen(src, matching)
  {
    var stages := CardStages(src, matching);
    LedgerBuckets(src.ledger, "land");
    LedgerBuckets(src.ledger, "promote");
    assert CountsOf(stages, Download).failed > 0 <==> src.downloadStatus in FAILED_STATUSES;
    assert CountsOf(stages, Download).open > 0 <==> src.downloadStatus in OPEN_STATUSES;
    assert CountsOf(stages, Land) == StepCounts(src.ledger, "land");
    assert CountsOf(stages, Promote) == StepCounts(src.ledger, "promote");
    assert CountsOf(stages, Matching) == matching;
    assert CountsOf(stages, Review) == ReviewFromRollup(src.rollup);
    assert CountsOf(stages, Fulfillment) == FulfillFromRollup(src.rollup);
  }

  /**
   A card asks for attention exactly when something failed and nothing is open, and is in progress
   exactly when something is open, or nothing failed and one of the conditions of a complete card is missing.
   */
  lemma CardStatusExactly(src: Source, matching: Counts)
    requires IsHeadline(src.verticals, MatchingFromRollup(src.rollup), matching)
    requires VerticalsBounded(src)
    ensures
      var status := Derived(CardStages(src, matching)).status;
      var achieved :=
        && src.downloadStatus == "success"
        && AllSucceeded(src.ledger, "land") && AllSucceeded(src.ledger, "promote")
        && Settled(matching)
        && ReviewSettled(src.rollup) && FulfillmentSettled(src.rollup);
      && (status.NeedsAttention? <==> CardFailed(src, matching) && !CardOpen(src, matching))
      && (status.InProgress? <==> CardOpen(src, matching) || (!CardFailed(src, matching) && !achieved))
  {
    HeadlineBounded(src, matching);
    CardBounded(src, matching);
    StatusExactly(CardStages(src, matching));
    CardOpenAndFailed(src, matching);
    CardCompleteExactly(src, matching);
  }

  /** Without a live counted vertical the matching counters decide. */
  lemma MatchingOpenAndFailed(r: Rollup)
    ensures MatchingFromRollup(r).failed > 0 <==> r.failed > 0 || r.abandoned > 0
    ensures MatchingFromRollup(r).open > 0 <==>
      || r.pending > 0 || r.claimed > 0 || r.inFlight > 0
      || (match r.unstarted
          case Some(n) => n > 0 || (r.requestRows > 0 && r.matched == r.failed == r.abandoned == 0)
          case None => r.requestRows > r.matched + r.failed + r.abandoned)
  {
  }

  predicate Settled(c: Counts) {
    Full(c) && c.open == 0 && c.failed == 0
  }

  ghost predicate AllSettled(stages: map<Stage, Counts>) {
    forall k: Stage ::
      var c := CountsOf(stages, k);
      && c.open == 0 && c.failed == 0
      && if k == Fulfillment then c.total > 0 && 20 * c.success >= 19 * c.total else Full(c)
  }

  lemma CompleteByStage(stages: map<Stage, Counts>)
    requires Bounded(stages)
    ensures Derived(stages).status.Complete? <==> AllSettled(stages)
  {
    CompleteExactly(stages);
    QuietStages(stages);
  }

  lemma CardBounded(src: Source, matching: Counts)
    requires matching.success <= matching.total
    ensures Bounded(CardStages(src, matching))
  {
    LedgerFull(src.ledger, "land");
    LedgerFull(src.ledger, "promote");
    RollupConserves(src.rollup);
  }

  lemma CardSettled(src: Source, matching: Counts)
    ensures AllSettled(CardStages(src, matching)) <==>
      && src.downloadStatus == "success"
      && AllSucceeded(src.ledger, "land") && AllSucceeded(src.ledger, "promote")
      && Settled(matching)
      && ReviewSettled(src.rollup) && FulfillmentSettled(src.rollup)
  {
    var stages := CardStages(src, matching);
    LedgerFull(src.ledger, "land");
    LedgerFull(src.ledger, "promote");
    ReviewFullExactly(src.rollup);
    FulfillmentFullExactly(src.rollup);
    assert Settled(CountsOf(stages, Download)) <==> src.downloadStatus == "success";
    assert CountsOf(stages, Land) == StepCounts(src.ledger, "land");
    assert CountsOf(stages, Promote) == StepCounts(src.ledger, "promote");
    assert CountsOf(stages, Matching) == matching;
    assert CountsOf(stages, Review) == ReviewFromRollup(src.rollup);
    assert CountsOf(stages, Fulfillment) == FulfillFromRollup(src.rollup);
  }

  lemma HeadlineBounded(src: Source, matching: Counts)
    requires IsHeadline(src.verticals, MatchingFromRollup(src.rollup), matching)
    requires VerticalsBounded(src)
    ensures matching.success <= matching.total
  {
  }

  lemma QuietStages(stages: map<Stage, Counts>)
    ensures !AnyOpen(stages) && !AnyFailed(stages) <==>
      forall k: Stage :: CountsOf(stages, k).open == 0 && CountsOf(stages, k).failed == 0
  {
    OpenAndFailedStages(stages);
  }
}
