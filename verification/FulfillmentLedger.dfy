/**
The fulfillment attempts of one request, oldest first. Interim access, owner status,
interim upload and reopen write the same table and share the interim step; other
workers add and move rows of their own. Operations run one at a time.

The table has a trigger under which a statement touching a terminal row fails as a
whole; `guarded` says whether it is installed.
*/
module FulfillmentLedger {
  import opened AttemptRows
  import opened Common

  datatype Step = Interim | Other(name: string)

  datatype Detail = Detail(vertical: Option<string>, artifact: bool)

  /** An attempt, keyed by its step. */
  type Attempt = Row<Step, Detail>

  datatype Refusal = NotInitiated | TerminalRow

  datatype Op =
    | Initiate
    | OwnerStatus(vertical: string, completed: bool)
    | Upload(files: seq<string>)
    | Reopen
    | WorkerInsert(name: string, number: nat)
    | WorkerMove(index: nat, status: Status)

  // ---- queries ------------------------------------------------------------------------

  predicate OpenFor(row: Attempt, vertical: string) {
    IsOpen(row.status) && row.data.vertical == Some(vertical)
  }

  /** The most recent open attempt of a vertical. */
  function LatestOpen(rows: seq<Attempt>, vertical: string): (found: Option<nat>)
    ensures found.Some? ==> found.value < |rows| && OpenFor(rows[found.value], vertical)
    ensures forall i :: (if found.Some? then found.value < i else 0 <= i) && i < |rows| ==> !OpenFor(rows[i], vertical)
  {
    if rows == [] then None
    else if OpenFor(rows[|rows| - 1], vertical) then Some(|rows| - 1)
    else LatestOpen(rows[..|rows| - 1], vertical)
  }

  /** Whether the most recent interim attempt has an upload location. */
  predicate Provisioned(rows: seq<Attempt>) {
    if rows == [] then false
    else if rows[|rows| - 1].key == Interim then rows[|rows| - 1].data.artifact
    else Provisioned(rows[..|rows| - 1])
  }

  // ---- statements ------------------------------------------------------------------------

  function CloseOpen(row: Attempt): Attempt {
    if IsOpen(row.status) then row.(status := Abandoned) else row
  }

  predicate Uploadable(row: Attempt) {
    row.key == Interim && row.status != Success
  }

  function Delivered(row: Attempt): Attempt {
    if Uploadable(row) then row.(status := Success, data := row.data.(artifact := true)) else row
  }

  function Each(rows: seq<Attempt>, f: Attempt -> Attempt): (r: seq<Attempt>)
    ensures |r| == |rows| && forall i :: 0 <= i < |rows| ==> r[i] == f(rows[i])
  {
    seq(|rows|, i requires 0 <= i < |rows| => f(rows[i]))
  }

  predicate HitsTerminal(rows: seq<Attempt>) {
    exists i | 0 <= i < |rows| :: Uploadable(rows[i]) && !IsOpen(rows[i].status)
  }

  function OwnerOutcome(completed: bool): Status {
    if completed then Success else InFlight
  }

  function Inserted(rows: seq<Attempt>, status: Status, vertical: Option<string>, artifact: bool): seq<Attempt> {
    rows + [Row(Interim, MaxNumber(rows, Interim) + 1, status, Detail(vertical, artifact))]
  }

  predicate Uploads(files: seq<string>) {
    exists i | 0 <= i < |files| :: files[i] != ""
  }

  predicate Refused(rows: seq<Attempt>, op: Op, guarded: bool) {
    op.Upload? && (!Provisioned(rows) || (Uploads(op.files) && guarded && HitsTerminal(rows)))
  }

  /** The effect of an operation that is not refused. */
  function Applied(rows: seq<Attempt>, op: Op): seq<Attempt> {
    match op
    case Initiate => Inserted(rows, Pending, None, true)
    case OwnerStatus(vertical, completed) => (
      match LatestOpen(rows, vertical)
      case Some(i) => rows[i := rows[i].(status := OwnerOutcome(completed))]
      case None => Inserted(rows, OwnerOutcome(completed), Some(vertical), false)
    )
    case Upload(files) => if Uploads(files) then Each(rows, Delivered) else rows
    case Reopen => Each(rows, CloseOpen)
    case WorkerInsert(name, number) => rows + [Row(Other(name), number, Pending, Detail(None, false))]
    case WorkerMove(i, status) =>
      if i < |rows| && IsOpen(rows[i].status) then rows[i := rows[i].(status := status)] else rows
  }

  function Next(rows: seq<Attempt>, op: Op, guarded: bool): seq<Attempt> {
    if Refused(rows, op, guarded) then rows else Applied(rows, op)
  }

  // ---- what every operation keeps -----------------------------------------------------------

  ghost predicate OneOpen(rows: seq<Attempt>) {
    forall i, j, v :: 0 <= i < j < |rows| && OpenFor(rows[i], v) ==> !OpenFor(rows[j], v)
  }

  lemma StepKeepsNumbers(rows: seq<Attempt>, op: Op, guarded: bool)
    requires Numbered(rows, Interim)
    ensures Numbered(Next(rows, op, guarded), Interim)
  {
    var after := Next(rows, op, guarded);
    if |after| == |rows| {
      NumberedSame(rows, after, Interim);
    } else {
      assert after == rows + [after[|rows|]];
      MaxIsCount(rows, Interim);
      NumberedAppend(rows, after[|rows|], Interim);
    }
  }

  lemma StepKeepsOneOpen(rows: seq<Attempt>, op: Op, guarded: bool)
    requires OneOpen(rows)
    ensures OneOpen(Next(rows, op, guarded))
  {
    var after := Next(rows, op, guarded);
    forall i, j, v | 0 <= i < j < |after| && OpenFor(after[i], v) ensures !OpenFor(after[j], v) {
      if j < |rows| {
        assert OpenFor(rows[i], v) && (OpenFor(after[j], v) ==> OpenFor(rows[j], v));
      }
    }
  }

  /** Success is never undone; under the guard no terminal attempt changes at all. */
  lemma StepKeepsTerminal(rows: seq<Attempt>, op: Op, guarded: bool, i: nat)
    requires i < |rows| && !IsOpen(rows[i].status)
    ensures i < |Next(rows, op, guarded)|
    ensures guarded || rows[i].status == Success ==> Next(rows, op, guarded)[i] == rows[i]
  {
  }

  ghost predicate Run(states: seq<seq<Attempt>>, ops: seq<Op>, guarded: bool) {
    && |states| == |ops| + 1
    && states[0] == []
    && forall k :: 0 <= k < |ops| ==> states[k + 1] == Next(states[k], ops[k], guarded)
  }

  lemma {:induction false} RunKeeps(states: seq<seq<Attempt>>, ops: seq<Op>, guarded: bool, k: nat)
    requires Run(states, ops, guarded) && k < |states|
    ensures Numbered(states[k], Interim) && OneOpen(states[k])
  {
    if k > 0 {
      RunKeeps(states, ops, guarded, k - 1);
      StepKeepsNumbers(states[k - 1], ops[k - 1], guarded);
      StepKeepsOneOpen(states[k - 1], ops[k - 1], guarded);
    }
  }

  /**
   In every run the interim attempts are numbered exactly 1..n, each number once, and
   each vertical has at most one open attempt.
   */
  lemma NumbersAreOneToN(states: seq<seq<Attempt>>, ops: seq<Op>, guarded: bool, k: nat)
    requires Run(states, ops, guarded) && k < |states|
    ensures forall m: nat :: NumberTaken(states[k], Interim, m) <==> 1 <= m <= KeyCount(states[k], Interim)
    ensures forall m: nat, i, j :: Carries(states[k], i, Interim, m) && Carries(states[k], j, Interim, m) ==> i == j
    ensures OneOpen(states[k])
  {
    RunKeeps(states, ops, guarded, k);
    var rows := states[k];
    forall m: nat ensures NumberTaken(rows, Interim, m) <==> 1 <= m <= KeyCount(rows, Interim) {
      TakenExactly(rows, Interim, m);
    }
    forall m: nat, i, j | Carries(rows, i, Interim, m) && Carries(rows, j, Interim, m) ensures i == j {
      CarriedOnce(rows, Interim, m, i, j);
    }
  }

  /** Across a run success stays success; under the guard every terminal attempt stays as it is. */
  lemma {:induction false} TerminalForever(states: seq<seq<Attempt>>, ops: seq<Op>, guarded: bool,
                                           k: nat, l: nat, i: nat)
    requires Run(states, ops, guarded) && k <= l < |states| && i < |states[k]|
    requires !IsOpen(states[k][i].status) && (guarded || states[k][i].status == Success)
    ensures i < |states[l]| && states[l][i] == states[k][i]
  {
    if k < l {
      TerminalForever(states, ops, guarded, k, l - 1, i);
      StepKeepsTerminal(states[l - 1], ops[l - 1], guarded, i);
    }
  }

  const STILL_OPEN: set<Status> := {Pending, Claimed, InFlight}

  /** A reopen abandons each pending, claimed and in-flight attempt and changes nothing else. */
  lemma ReopenLeavesNothingOpen(rows: seq<Attempt>, guarded: bool)
    ensures var after := Next(rows, Reopen, guarded);
      && |after| == |rows|
      && (forall i :: 0 <= i < |rows| ==> after[i].status !in STILL_OPEN)
      && (forall i :: 0 <= i < |rows| && rows[i].status in STILL_OPEN ==>
           after[i] == rows[i].(status := Abandoned))
      && (forall i :: 0 <= i < |rows| && rows[i].status !in STILL_OPEN ==> after[i] == rows[i])
  {
    assert Next(rows, Reopen, guarded) == Each(rows, CloseOpen);
  }

  lemma InsertedIsNext(rows: seq<Attempt>, status: Status, vertical: Option<string>, artifact: bool)
    requires Numbered(rows, Interim)
    ensures Inserted(rows, status, vertical, artifact)
         == rows + [Row(Interim, KeyCount(rows, Interim) + 1, status, Detail(vertical, artifact))]
  {
    MaxIsCount(rows, Interim);
  }

  /** An initiation adds one pending interim attempt with a location, numbered after those there are. */
  lemma InitiateExactly(rows: seq<Attempt>, guarded: bool)
    requires Numbered(rows, Interim)
    ensures Next(rows, Initiate, guarded)
         == rows + [Row(Interim, KeyCount(rows, Interim) + 1, Pending, Detail(None, true))]
  {
    InsertedIsNext(rows, Pending, None, true);
  }

  predicate FailedInterim(row: Attempt) {
    row.key == Interim && row.status in {SubmitError, OutcomeError, Timeout, Abandoned}
  }

  /** After it an upload is refused only by the trigger, for an interim attempt that failed or was abandoned. */
  lemma InitiationProvisions(rows: seq<Attempt>, files: seq<string>, guarded: bool)
    ensures !Refused(Next(rows, Initiate, false), Upload(files), false)
    ensures Refused(Next(rows, Initiate, guarded), Upload(files), guarded) ==>
      guarded && exists i :: 0 <= i < |rows| && FailedInterim(rows[i])
  {
    var after := Next(rows, Initiate, guarded);
    if guarded && HitsTerminal(after) {
      var i :| 0 <= i < |after| && Uploadable(after[i]) && !IsOpen(after[i].status);
      assert i < |rows| && after[i] == rows[i];
    }
  }

  ghost predicate HasAttempt(rows: seq<Attempt>, vertical: string, status: Status) {
    exists i :: 0 <= i < |rows| && rows[i].data.vertical == Some(vertical) && rows[i].status == status
  }

  ghost predicate HasOpen(rows: seq<Attempt>, vertical: string) {
    exists i :: 0 <= i < |rows| && rows[i].data.vertical == Some(vertical) && rows[i].status in STILL_OPEN
  }

  /** Attempt i was open for the vertical and has the new status; nothing else differs. */
  ghost predicate OneRewritten(rows: seq<Attempt>, after: seq<Attempt>, i: nat, vertical: string, status: Status)
    requires i < |rows|
  {
    && rows[i].data.vertical == Some(vertical) && rows[i].status in STILL_OPEN
    && after == rows[i := rows[i].(status := status)]
  }

  /** Completing a vertical leaves it a successful attempt and none open; any other owner status leaves it in flight. */
  lemma OwnerStatusLeaves(rows: seq<Attempt>, vertical: string, completed: bool, guarded: bool)
    requires OneOpen(rows)
    ensures var after := Next(rows, OwnerStatus(vertical, completed), guarded);
      && HasAttempt(after, vertical, if completed then Success else InFlight)
      && (HasOpen(after, vertical) <==> !completed)
  {
    var after := Next(rows, OwnerStatus(vertical, completed), guarded);
    match LatestOpen(rows, vertical) {
      case Some(i) =>
        OnlyOpenOne(rows, vertical, i);
        assert after[i].data.vertical == Some(vertical);
        assert forall j :: 0 <= j < |rows| && j != i ==> after[j] == rows[j];
      case None =>
        assert after[|rows|].data.vertical == Some(vertical);
        assert forall j :: 0 <= j < |rows| ==> after[j] == rows[j] && !OpenFor(rows[j], vertical);
    }
  }

  /**
   An open attempt of the vertical is the one attempt an owner status rewrites; without one the
   next interim number is added, without a location.
   */
  lemma OwnerStatusExactly(rows: seq<Attempt>, vertical: string, completed: bool, guarded: bool)
    requires Numbered(rows, Interim)
    ensures
      var after := Next(rows, OwnerStatus(vertical, completed), guarded);
      var status := if completed then Success else InFlight;
      if HasOpen(rows, vertical)
      then exists i :: 0 <= i < |rows| && OneRewritten(rows, after, i, vertical, status)
      else after == rows + [Row(Interim, KeyCount(rows, Interim) + 1, status, Detail(Some(vertical), false))]
  {
    OpenIsFound(rows, vertical);
    match LatestOpen(rows, vertical) {
      case Some(i) => OwnerRewrites(rows, vertical, completed, guarded, i);
      case None => OwnerInserts(rows, vertical, completed, guarded);
    }
  }

  lemma OpenIsFound(rows: seq<Attempt>, vertical: string)
    ensures HasOpen(rows, vertical) <==> LatestOpen(rows, vertical).Some?
  {
    assert forall i :: 0 <= i < |rows| ==>
      (OpenFor(rows[i], vertical) <==> rows[i].data.vertical == Some(vertical) && rows[i].status in STILL_OPEN);
  }

  lemma OwnerRewrites(rows: seq<Attempt>, vertical: string, completed: bool, guarded: bool, i: nat)
    requires LatestOpen(rows, vertical) == Some(i)
    ensures i < |rows| && OneRewritten(rows, Next(rows, OwnerStatus(vertical, completed), guarded), i, vertical,
      if completed then Success else InFlight)
  {
  }

  lemma OwnerInserts(rows: seq<Attempt>, vertical: string, completed: bool, guarded: bool)
    requires Numbered(rows, Interim) && LatestOpen(rows, vertical).None?
    ensures Next(rows, OwnerStatus(vertical, completed), guarded)
         == rows + [Row(Interim, KeyCount(rows, Interim) + 1, if completed then Success else InFlight,
                        Detail(Some(vertical), false))]
  {
    InsertedIsNext(rows, if completed then Success else InFlight, Some(vertical), false);
  }

  lemma OnlyOpenOne(rows: seq<Attempt>, vertical: string, i: nat)
    requires OneOpen(rows) && i < |rows| && OpenFor(rows[i], vertical)
    ensures forall j :: 0 <= j < |rows| && OpenFor(rows[j], vertical) ==> j == i
  {
  }

  /** An accepted upload leaves every interim attempt successful with a location, and no other touched. */
  lemma UploadExactly(rows: seq<Attempt>, files: seq<string>, guarded: bool)
    requires !Refused(rows, Upload(files), guarded) && exists i :: 0 <= i < |files| && files[i] != ""
    ensures var after := Next(rows, Upload(files), guarded);
      && |after| == |rows|
      && (forall i :: 0 <= i < |rows| && rows[i].key == Interim ==>
           && after[i].status == Success && after[i].number == rows[i].number
           && (rows[i].status == Success ==> after[i] == rows[i])
           && (rows[i].status != Success ==> after[i].data == Detail(rows[i].data.vertical, true)))
      && (forall i :: 0 <= i < |rows| && rows[i].key != Interim ==> after[i] == rows[i])
  {
    assert Next(rows, Upload(files), guarded) == Each(rows, Delivered);
  }

  /** An upload rewrites a terminal attempt exactly when an interim one failed or was abandoned, unguarded. */
  lemma UploadRewritesExactly(rows: seq<Attempt>, files: seq<string>, guarded: bool)
    requires Provisioned(rows) && Uploads(files)
    ensures (exists i :: 0 <= i < |rows| && !IsOpen(rows[i].status) && Next(rows, Upload(files), guarded)[i] != rows[i])
      <==> !guarded && HitsTerminal(rows)
  {
    var after := Next(rows, Upload(files), guarded);
    if !guarded && HitsTerminal(rows) {
      var i :| 0 <= i < |rows| && Uploadable(rows[i]) && !IsOpen(rows[i].status);
      assert after[i] != rows[i];
    }
  }

  /** Under the guard one failed or abandoned interim attempt blocks every later upload. */
  lemma FailedInterimBlocksUploads(states: seq<seq<Attempt>>, ops: seq<Op>, k: nat, l: nat, i: nat)
    requires Run(states, ops, true) && k <= l < |ops| && i < |states[k]|
    requires states[k][i].key == Interim && !IsOpen(states[k][i].status) && states[k][i].status != Success
    requires ops[l].Upload?
    ensures states[l + 1] == states[l]
  {
    TerminalForever(states, ops, true, k, l, i);
    assert Uploadable(states[l][i]);
  }

  /** Reopening after an initiation is enough for that. */
  lemma ReopenThenUploadFails(files: seq<string>)
    requires Uploads(files)
    ensures
      var rows := Next(Next(Next([], Initiate, true), Reopen, true), Initiate, true);
      Refused(rows, Upload(files), true) && !Refused(rows, Upload(files), false)
  {
    var rows := Next(Next(Next([], Initiate, true), Reopen, true), Initiate, true);
    assert Uploadable(rows[0]) && !IsOpen(rows[0].status);
  }

  /** An owner status that opens a new attempt makes uploads wait for another initiation. */
  lemma OwnerStatusHidesInitiation(rows: seq<Attempt>, vertical: string, completed: bool, guarded: bool)
    ensures Provisioned(Next(rows, OwnerStatus(vertical, completed), guarded)) <==>
      Provisioned(rows) && LatestOpen(rows, vertical).Some?
  {
    match LatestOpen(rows, vertical) {
      case Some(i) => ProvisionedByShape(rows, rows[i := rows[i].(status := OwnerOutcome(completed))]);
      case None =>
    }
  }

  lemma {:induction false} ProvisionedByShape(a: seq<Attempt>, b: seq<Attempt>)
    requires |a| == |b|
    requires forall i :: 0 <= i < |a| ==> a[i].key == b[i].key && a[i].data.artifact == b[i].data.artifact
    ensures Provisioned(a) == Provisioned(b)
  {
    if a != [] {
      ProvisionedByShape(a[..|a| - 1], b[..|b| - 1]);
    }
  }

  // ---- the code ----------------------------------------------------------------------------

  class Ledger {
    const guarded: bool
    var attempts: seq<Attempt>

    constructor (guarded: bool)
      ensures attempts == [] && this.guarded == guarded
    {
      this.guarded := guarded;
      attempts := [];
    }

    method InitiateInterimAccess()
      modifies this
      ensures attempts == Next(old(attempts), Initiate, guarded)
    {
      var nextAttempt := MaxNumber(attempts, Interim) + 1;
      attempts := attempts + [Row(Interim, nextAttempt, Pending, Detail(None, true))];
    }

    method InsertOwnerAttempt(vertical: string, status: Status) returns (index: nat)
      modifies this
      ensures attempts == Inserted(old(attempts), status, Some(vertical), false) && index == |old(attempts)|
    {
      var number := MaxNumber(attempts, Interim) + 1;
      index := |attempts|;
      attempts := attempts + [Row(Interim, number, status, Detail(Some(vertical), false))];
    }

    method UpdateOwnerAttempt(index: nat, status: Status)
      requires index < |attempts|
      modifies this
      ensures attempts == Applied(old(attempts), WorkerMove(index, status))
    {
      if IsOpen(attempts[index].status) {
        attempts := attempts[index := attempts[index].(status := status)];
      }
    }

    method ApplyOwnerStatus(vertical: string, completed: bool) returns (index: nat)
      modifies this
      ensures attempts == Next(old(attempts), OwnerStatus(vertical, completed), guarded)
      ensures index < |attempts| && attempts[index].data.vertical == Some(vertical)
      ensures attempts[index].status == if completed then Success else InFlight
    {
      var status := OwnerOutcome(completed);
      match LatestOpen(attempts, vertical) {
        case Some(i) =>
          index := i;
          UpdateOwnerAttempt(index, status);
        case None =>
          index := InsertOwnerAttempt(vertical, status);
      }
    }

    method UploadInterimFiles(files: seq<string>) returns (result: Result<nat, Refusal>)
      modifies this
      ensures attempts == Next(old(attempts), Upload(files), guarded)
      ensures result.Err? <==> Refused(old(attempts), Upload(files), guarded)
      ensures result == Err(NotInitiated) <==> !Provisioned(old(attempts))
      ensures result.Ok? ==> (result.value > 0 <==> Uploads(files))
    {
      if !Provisioned(attempts) {
        return Err(NotInitiated);
      }
      var uploaded := 0;
      for i := 0 to |files|
        invariant uploaded > 0 <==> Uploads(files[..i])
        invariant attempts == old(attempts)
      {
        assert files[..i + 1][..i] == files[..i];
        UploadsExtend(files[..i], files[i]);
        assert files[..i + 1] == files[..i] + [files[i]];
        if files[i] != "" {
          uploaded := uploaded + 1;
        }
      }
      assert files[..|files|] == files;
      assert uploaded > 0 <==> Uploads(files);
      if uploaded > 0 {
        if guarded && HitsTerminal(attempts) {
          return Err(TerminalRow);
        }
        attempts := Each(attempts, Delivered);
      }
      result := Ok(uploaded);
    }

    method ReopenFulfillment()
      modifies this
      ensures attempts == Next(old(attempts), Reopen, guarded)
    {
      attempts := Each(attempts, CloseOpen);
    }
  }

  lemma UploadsExtend(files: seq<string>, file: string)
    ensures Uploads(files + [file]) <==> Uploads(files) || file != ""
  {
    var all := files + [file];
    if Uploads(files) {
      var i :| 0 <= i < |files| && files[i] != "";
      assert all[i] != "";
    }
    if file != "" {
      assert all[|files|] != "";
    }
  }
}
