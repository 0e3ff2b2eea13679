/**
The owner's connector wizard for one connection: choosing live or upload mode, live
credentials and their test, uploads, cadence, and the completion stamp; and the test an
administrator may run on the same row. Operations run one at a time; the results of
parsing a file and of testing credentials are inputs.
*/
module ConnectorWizard {
  import opened Common

  datatype Mode = Live | Upload

  datatype Status = Pending | Invited | Connected | Failed

  /** The connection row with the metadata the wizard reads. */
  datatype Conn = Conn(
    mode: Option<Mode>, cadence: bool, uploaded: bool, rotated: bool,
    lastTestOk: Option<bool>, status: Status, secret: bool, completed: bool)

  const FRESH := Conn(None, false, false, false, None, Pending, false, false)

  /** What the catalog says about a system. */
  datatype System = System(name: string, approaches: set<Mode>)

  predicate PingOnly(system: System) {
    system.name in ["paylocity", "lever"]
  }

  predicate CompletesWithoutUpload(system: System) {
    system.name in ["auth0", "paylocity", "lever"]
  }

  datatype Parse = Parsed | NeedsAttention | Unusable

  datatype Op =
    | SetMode(mode: Mode)
    | SetCadence
    | SaveMapping
    | UploadFile(outcome: Parse)
    | ExtractSheet(outcome: Parse)
    | SaveCredentials(stored: bool, testOk: bool)
    | TestLive(testOk: bool)
    | RedeemSheets
    | AdminTest(testOk: bool)
    | CompleteWizard(cadenceGiven: bool)

  // ---- predicates of the wizard -----------------------------------------------------------

  predicate LiveTestFailed(c: Conn) {
    c.lastTestOk == Some(false) || c.status.Failed?
  }

  predicate CredentialsReady(c: Conn) {
    c.rotated || c.lastTestOk == Some(true) || c.status.Connected?
  }

  predicate LiveOverridesUpload(c: Conn, system: System) {
    CompletesWithoutUpload(system) && !c.uploaded && CredentialsReady(c)
  }

  predicate Ready(c: Conn, system: System) {
    && c.mode.Some?
    && c.cadence
    && match c.mode.value
       case Upload => c.uploaded || LiveOverridesUpload(c, system)
       case Live => CredentialsReady(c)
  }

  // ---- operations ---------------------------------------------------------------------------

  function TestResult(c: Conn, ok: bool): Conn {
    c.(lastTestOk := Some(ok), status := if ok then Connected else Failed)
  }

  function Ingested(c: Conn, system: System, outcome: Parse, allowLive: bool): Conn {
    if c.mode == Some(Live) && !allowLive && !LiveTestFailed(c) && !PingOnly(system) then c
    else
      match outcome
      case NeedsAttention => c
      case Unusable => TestResult(c, false)
      case Parsed =>
        var mode := if c.mode != Some(Live) || LiveTestFailed(c) || PingOnly(system) then Some(Upload) else c.mode;
        TestResult(c.(uploaded := true, mode := mode), true)
  }

  function LiveOutcome(c: Conn, testOk: bool): Conn {
    var tested := TestResult(c, testOk);
    if testOk then tested.(rotated := true, mode := Some(Live)) else tested
  }

  function WithCadence(c: Conn, given: bool): Conn {
    if given then c.(cadence := true) else c
  }

  function Completed(c: Conn, system: System): Conn {
    if !Ready(c, system) then c
    else c.(completed := true, mode := if LiveOverridesUpload(c, system) then Some(Live) else c.mode)
  }

  function Next(c: Conn, system: System, op: Op): Conn {
    match op
    case SetMode(mode) => if mode in system.approaches then c.(mode := Some(mode)) else c
    case SetCadence => c.(cadence := true)
    case SaveMapping => c
    case UploadFile(outcome) => Ingested(c, system, outcome, false)
    case ExtractSheet(outcome) => Ingested(c, system, outcome, true)
    case SaveCredentials(stored, testOk) =>
      if Live !in system.approaches || c.mode == Some(Upload) || !stored then c
      else LiveOutcome(c.(status := Invited, secret := true), testOk)
    case TestLive(testOk) =>
      if Live !in system.approaches || c.mode == Some(Upload) || !c.secret then c else LiveOutcome(c, testOk)
    case RedeemSheets =>
      if Live !in system.approaches then c
      else c.(mode := Some(Live), rotated := true, status := Invited, secret := true)
    case AdminTest(testOk) => if c.secret then TestResult(c, testOk) else c
    case CompleteWizard(given) => Completed(WithCadence(c, given), system)
  }

  /** The operation writes a completion stamp. */
  predicate Stamps(c: Conn, system: System, op: Op) {
    op.CompleteWizard? && Ready(WithCadence(c, op.cadenceGiven), system)
  }

  /** The two shapes a completed connection may have. */
  predicate Settled(c: Conn) {
    && c.cadence
    && ((c.mode == Some(Live) && CredentialsReady(c)) || (c.mode == Some(Upload) && c.uploaded))
  }

  // ---- what holds in every run -------------------------------------------------------------------

  ghost predicate Run(states: seq<Conn>, system: System, ops: seq<Op>) {
    && |states| == |ops| + 1
    && states[0] == FRESH
    && forall k :: 0 <= k < |ops| ==> states[k + 1] == Next(states[k], system, ops[k])
  }

  /** Readiness always goes back to stored credentials or to a successful upload. */
  predicate Inv(c: Conn) {
    && (CredentialsReady(c) ==> c.secret || c.uploaded)
    && (c.rotated ==> c.secret)
  }

  /** Unless an administrator tested them, such credentials passed the wizard's own test. */
  predicate Tested(c: Conn) {
    CredentialsReady(c) ==> c.rotated || c.uploaded
  }

  /** Everything an operation keeps: the upload marker, credentials and the stamp stay. */
  predicate Keeps(before: Conn, after: Conn) {
    && (before.uploaded ==> after.uploaded)
    && (before.rotated ==> after.rotated)
    && (before.secret ==> after.secret)
    && (before.completed ==> after.completed)
    && (before.cadence ==> after.cadence)
  }

  lemma StepKeeps(c: Conn, system: System, op: Op)
    requires Inv(c)
    ensures Inv(Next(c, system, op)) && Keeps(c, Next(c, system, op))
    ensures Tested(c) && !op.AdminTest? ==> Tested(Next(c, system, op))
  {
  }

  lemma StampStep(c: Conn, system: System, op: Op)
    ensures Next(c, system, op).completed <==> c.completed || Stamps(c, system, op)
  {
  }

  lemma {:induction false} RunInv(states: seq<Conn>, system: System, ops: seq<Op>, k: nat)
    requires Run(states, system, ops) && k < |states|
    ensures Inv(states[k])
    ensures (forall m | 0 <= m < k :: !ops[m].AdminTest?) ==> Tested(states[k])
  {
    if k > 0 {
      RunInv(states, system, ops, k - 1);
      StepKeeps(states[k - 1], system, ops[k - 1]);
      assert states[k] == Next(states[k - 1], system, ops[k - 1]);
    }
  }

  /** Over any stretch of a run the upload marker, the credentials, the cadence and the stamp are never lost. */
  lemma {:induction false} NothingIsLost(states: seq<Conn>, system: System, ops: seq<Op>, i: nat, j: nat)
    requires Run(states, system, ops) && i <= j < |states|
    ensures Keeps(states[i], states[j])
    decreases j
  {
    if i < j {
      NothingIsLost(states, system, ops, i, j - 1);
      RunInv(states, system, ops, j - 1);
      StepKeeps(states[j - 1], system, ops[j - 1]);
      assert states[j] == Next(states[j - 1], system, ops[j - 1]);
    }
  }

  /**
   In every run a completion stamp is written exactly when the wizard is ready, it leaves
   the connection live with credentials ready or in upload mode with a recorded upload,
   and credentials were stored or a file was uploaded at some time; without tests by an
   administrator, the credentials also passed the wizard's own test.
   */
  lemma StampsLeaveSettled(states: seq<Conn>, system: System, ops: seq<Op>, k: nat)
    requires Run(states, system, ops) && k < |ops| && ops[k].CompleteWizard?
    ensures Stamps(states[k], system, ops[k]) ==> Settled(states[k + 1]) && states[k + 1].completed
    ensures Stamps(states[k], system, ops[k]) ==> states[k + 1].secret || states[k + 1].uploaded
    ensures Stamps(states[k], system, ops[k]) && (forall m | 0 <= m < k :: !ops[m].AdminTest?) ==>
      states[k + 1].rotated || states[k + 1].uploaded
    ensures !Stamps(states[k], system, ops[k]) ==> states[k + 1] == WithCadence(states[k], ops[k].cadenceGiven)
  {
    RunInv(states, system, ops, k + 1);
  }

  /** Credentials have been rotated, or the last test passed, or the status says connected. */
  predicate Proven(c: Conn) {
    c.rotated || c.lastTestOk == Some(true) || c.status == Connected
  }

  /** What makes a connection live: the owner's choice, a passed test, a redeemed sheet, a completion without upload. */
  predicate GoesLive(c: Conn, system: System, op: Op) {
    match op
    case SetMode(m) => m == Live && Live in system.approaches
    case SaveCredentials(stored, ok) => stored && ok && Live in system.approaches && c.mode != Some(Upload)
    case TestLive(ok) => c.secret && ok && Live in system.approaches && c.mode != Some(Upload)
    case RedeemSheets => Live in system.approaches
    case CompleteWizard(given) =>
      && (c.cadence || given) && c.mode == Some(Upload) && !c.uploaded && Proven(c)
      && system.name in {"auth0", "paylocity", "lever"}
    case _ => false
  }

  /** What puts it in upload mode: the owner's choice, or a file that parses without a working live connection. */
  predicate GoesUpload(c: Conn, system: System, op: Op) {
    match op
    case SetMode(m) => m == Upload && Upload in system.approaches
    case UploadFile(Parsed) => AcceptsUpload(c, system)
    case ExtractSheet(Parsed) => AcceptsUpload(c, system)
    case _ => false
  }

  predicate AcceptsUpload(c: Conn, system: System) {
    c.mode != Some(Live) || c.lastTestOk == Some(false) || c.status == Failed || system.name in {"paylocity", "lever"}
  }

  /** In every run the mode changes exactly so: a failed test, an administrator's test and every other step keep it. */
  lemma ModeChangesExactly(states: seq<Conn>, system: System, ops: seq<Op>, k: nat)
    requires Run(states, system, ops) && k < |ops|
    ensures states[k + 1].mode ==
      if GoesLive(states[k], system, ops[k]) then Some(Live)
      else if GoesUpload(states[k], system, ops[k]) then Some(Upload)
      else states[k].mode
  {
    assert states[k + 1] == Next(states[k], system, ops[k]);
    ModeAfter(states[k], system, ops[k]);
  }

  lemma ModeAfter(c: Conn, system: System, op: Op)
    ensures Next(c, system, op).mode ==
      if GoesLive(c, system, op) then Some(Live) else if GoesUpload(c, system, op) then Some(Upload) else c.mode
  {
    match op {
      case UploadFile(outcome) => FileMode(c, system, outcome);
      case ExtractSheet(outcome) => FileMode(c, system, outcome);
      case CompleteWizard(given) => StampMode(c, system, given);
      case _ =>
    }
  }

  lemma FileMode(c: Conn, system: System, outcome: Parse)
    ensures Next(c, system, UploadFile(outcome)).mode == Next(c, system, ExtractSheet(outcome)).mode
         == if outcome == Parsed && AcceptsUpload(c, system) then Some(Upload) else c.mode
  {
  }

  lemma StampMode(c: Conn, system: System, given: bool)
    ensures Next(c, system, CompleteWizard(given)).mode ==
      if GoesLive(c, system, CompleteWizard(given)) then Some(Live) else c.mode
  {
  }

  /** A failed live test, run with credentials on a system that allows live, records the failure and keeps all else. */
  lemma FailedTestKeeps(c: Conn, system: System)
    requires Live in system.approaches && c.mode != Some(Upload) && c.secret
    ensures Next(c, system, TestLive(false)) == c.(lastTestOk := Some(false), status := Failed)
    ensures Next(c, system, SaveCredentials(true, false)) == Next(c, system, TestLive(false))
    ensures Next(c, system, TestLive(true))
         == c.(lastTestOk := Some(true), status := Connected, rotated := true, mode := Some(Live))
    ensures Next(c, system, SaveCredentials(true, true)) == Next(c, system, TestLive(true))
    ensures AcceptsUpload(Next(c, system, TestLive(false)), system)
  {
  }

  /** Redeeming a shared sheet stores credentials without a test; an administrator's test records its result only. */
  lemma RedeemAndAdminExactly(c: Conn, system: System, ok: bool)
    ensures
      var redeemed := c.(mode := Some(Live), rotated := true, status := Invited, secret := true);
      Next(c, system, RedeemSheets) == if Live in system.approaches then redeemed else c
    ensures
      var tested := c.(lastTestOk := Some(ok), status := if ok then Connected else Failed);
      Next(c, system, AdminTest(ok)) == if c.secret then tested else c
  {
  }

  /** A good file leaves the marker and a passed test, an unusable one a failed test, an unclear one nothing. */
  lemma FileExactly(c: Conn, system: System, outcome: Parse)
    ensures
      var sheet, file := Next(c, system, ExtractSheet(outcome)), Next(c, system, UploadFile(outcome));
      && (outcome == Parsed ==> sheet.uploaded && sheet.lastTestOk == Some(true) && sheet.status == Connected)
      && (outcome == Unusable ==> sheet == c.(lastTestOk := Some(false), status := Failed))
      && (outcome == NeedsAttention ==> sheet == c)
      && file == (if AcceptsUpload(c, system) then sheet else c)
  {
  }

  /**
   The stamp is written exactly with a cadence and, in upload mode, a file or proven credentials
   of three systems; in live mode, proven credentials.
   */
  lemma StampsExactly(c: Conn, system: System, given: bool)
    ensures Stamps(c, system, CompleteWizard(given)) <==>
      && (c.cadence || given)
      && match c.mode
         case None => false
         case Some(Live) => Proven(c)
         case Some(Upload) => c.uploaded || (Proven(c) && system.name in {"auth0", "paylocity", "lever"})
  {
  }

  ghost predicate StampAt(states: seq<Conn>, system: System, ops: seq<Op>, i: int) {
    0 <= i < |ops| && i < |states| && Stamps(states[i], system, ops[i])
  }

  lemma NextCompleted(states: seq<Conn>, system: System, ops: seq<Op>, k: nat)
    requires Run(states, system, ops) && k < |ops|
    ensures states[k + 1].completed <==> states[k].completed || StampAt(states, system, ops, k)
  {
    assert states[k + 1] == Next(states[k], system, ops[k]);
    StampStep(states[k], system, ops[k]);
  }

  /** A connection carries the stamp exactly when some earlier completion was ready. */
  lemma {:induction false} CompletedExactly(states: seq<Conn>, system: System, ops: seq<Op>, k: nat)
    requires Run(states, system, ops) && k < |states|
    ensures states[k].completed <==> exists i :: i < k && StampAt(states, system, ops, i)
  {
    if k > 0 {
      CompletedExactly(states, system, ops, k - 1);
      NextCompleted(states, system, ops, k - 1);
    }
  }

  /** A stamp may find a live connection whose credentials were never stored: an upload counted as the test. */
  lemma LiveWithoutCredentials(system: System)
    requires Live in system.approaches && Upload in system.approaches
    ensures exists states, ops: seq<Op> :: Run(states, system, ops) && StampedBare(states[|ops|])
  {
    var ops := [SetMode(Upload), UploadFile(Parsed), SetMode(Live), CompleteWizard(true)];
    var s1 := Next(FRESH, system, ops[0]);
    var s2 := Next(s1, system, ops[1]);
    var s3 := Next(s2, system, ops[2]);
    var s4 := Next(s3, system, ops[3]);
    var states := [FRESH, s1, s2, s3, s4];
    assert Run(states, system, ops);
    assert StampedBare(states[|ops|]);
  }

  predicate StampedBare(c: Conn) {
    c.completed && c.mode == Some(Live) && !c.secret
  }

  /**
   In every run a stamp leaves a live connection whose credentials were never stored
   exactly when the connection was live, had an upload behind it, and no credentials.
   */
  lemma BareStampExactly(states: seq<Conn>, system: System, ops: seq<Op>, k: nat)
    requires Run(states, system, ops) && k < |ops| && Stamps(states[k], system, ops[k])
    ensures StampedBare(states[k + 1]) <==>
      states[k].mode == Some(Live) && states[k].uploaded && !states[k].secret
  {
    RunInv(states, system, ops, k);
    RunInv(states, system, ops, k + 1);
  }

  // ---- the code -----------------------------------------------------------------------------------

  class Connection {
    const system: System
    var mode: Option<Mode>
    var cadence: bool
    var uploaded: bool
    var rotated: bool
    var lastTestOk: Option<bool>
    var status: Status
    var secret: bool
    var completed: bool

    ghost function View(): Conn
      reads this
    {
      Conn(mode, cadence, uploaded, rotated, lastTestOk, status, secret, completed)
    }

    constructor (system: System)
      ensures this.system == system && View() == FRESH
    {
      this.system := system;
      mode, cadence, uploaded, rotated := None, false, false, false;
      lastTestOk, status, secret, completed := None, Pending, false, false;
    }

    method SetTestResult(ok: bool)
      modifies this
      ensures View() == TestResult(old(View()), ok)
    {
      lastTestOk := Some(ok);
      status := if ok then Connected else Failed;
    }

    method SetSystemMode(wanted: Mode) returns (allowed: bool)
      modifies this
      ensures View() == Next(old(View()), system, SetMode(wanted))
      ensures allowed <==> wanted in system.approaches
    {
      allowed := wanted in system.approaches;
      if allowed {
        mode := Some(wanted);
      }
    }

    method IngestOwnerCsv(outcome: Parse, allowLive: bool)
      modifies this
      ensures View() == Ingested(old(View()), system, outcome, allowLive)
    {
      var liveFailed := lastTestOk == Some(false) || status.Failed?;
      if mode == Some(Live) && !allowLive && !(liveFailed || PingOnly(system)) {
        return;
      }
      if outcome != Parsed {
        if outcome != NeedsAttention {
          SetTestResult(false);
        }
        return;
      }
      uploaded := true;
      if mode != Some(Live) || liveFailed || PingOnly(system) {
        mode := Some(Upload);
      }
      status := Connected;
      SetTestResult(true);
    }

    method ApplyLiveTestOutcome(testOk: bool)
      modifies this
      ensures View() == LiveOutcome(old(View()), testOk)
    {
      SetTestResult(testOk);
      if testOk {
        rotated := true;
        if mode != Some(Live) {
          mode := Some(Live);
        }
        status := Connected;
        return;
      }
      status := Failed;
    }

    method SaveLiveCredentials(stored: bool, testOk: bool)
      modifies this
      ensures View() == Next(old(View()), system, SaveCredentials(stored, testOk))
    {
      if Live !in system.approaches || mode == Some(Upload) || !stored {
        return;
      }
      status := Invited;
      secret := true;
      ApplyLiveTestOutcome(testOk);
    }

    method TestLiveConnection(testOk: bool)
      modifies this
      ensures View() == Next(old(View()), system, TestLive(testOk))
    {
      if Live !in system.approaches || mode == Some(Upload) || !secret {
        return;
      }
      ApplyLiveTestOutcome(testOk);
    }

    /** The administrator's connection test, on stored credentials: it rotates nothing and leaves the mode. */
    method TestAsAdmin(testOk: bool)
      modifies this
      ensures View() == Next(old(View()), system, AdminTest(testOk))
    {
      if secret {
        SetTestResult(testOk);
      }
    }

    method CompleteSystemWizard(cadenceGiven: bool) returns (stamped: bool)
      modifies this
      ensures View() == Next(old(View()), system, CompleteWizard(cadenceGiven))
      ensures stamped <==> Stamps(old(View()), system, CompleteWizard(cadenceGiven))
    {
      if cadenceGiven {
        cadence := true;
      }
      var credentials := rotated || lastTestOk == Some(true) || status.Connected?;
      var overrides := CompletesWithoutUpload(system) && !uploaded && credentials;
      if mode.None? || !cadence {
        return false;
      }
      if mode == Some(Upload) && !uploaded && !overrides {
        return false;
      }
      if mode == Some(Live) && !credentials {
        return false;
      }
      completed := true;
      if overrides {
        mode := Some(Live);
      }
      stamped := true;
    }
  }
}
