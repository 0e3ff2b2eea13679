/**
The fulfillment kickoff of one request: a disposition per vertical, kickoff gates, and
the calls that record a disposition, approve a kickoff, or reopen a vertical. An
approved kickoff is meant to lock its vertical's disposition until a reopen. The calls
are given statement by statement, for interleavings, and as sequential operations.
*/
module FulfillmentKickoff {
  import opened Common

  type Vertical = string

  /** The response status with the record ids selected for it. */
  datatype Disposition = Disposition(status: int, selection: seq<string>)

  datatype GateStatus = Pending | Approved | Rejected

  datatype Gate = Gate(vertical: Vertical, status: GateStatus)

  datatype Rows = Rows(dispositions: map<Vertical, Disposition>, gates: seq<Gate>)

  datatype Outcome = Started | AlreadyApproved | Recorded | Raised

  /** Deleted and opted out need a selection; not found must have none. */
  predicate IsValid(d: Disposition) {
    d.status in {3, 4, 5} && (d.status == 5 <==> d.selection == [])
  }

  /** A kickoff's edit as it reaches the upsert: where a selection is needed and none is given, the latest match. */
  function Filled(edit: Disposition, latestMatch: seq<string>): Disposition {
    if edit.selection == [] && edit.status in {3, 4} then edit.(selection := latestMatch) else edit
  }

  // ---- queries and statements -------------------------------------------------------------

  predicate HasGate(gates: seq<Gate>, v: Vertical, s: GateStatus) {
    exists i | 0 <= i < |gates| :: IsGate(gates, i, v, s)
  }

  predicate IsGate(gates: seq<Gate>, i: int, v: Vertical, s: GateStatus) {
    0 <= i < |gates| && gates[i] == Gate(v, s)
  }

  /** The newest pending gate of a vertical. */
  function PendingGate(gates: seq<Gate>, v: Vertical): (id: Option<nat>)
    ensures id.Some? ==> id.value < |gates| && gates[id.value] == Gate(v, Pending)
    ensures id.None? ==> forall i | 0 <= i < |gates| :: gates[i] != Gate(v, Pending)
  {
    if gates == [] then None
    else if gates[|gates| - 1] == Gate(v, Pending) then Some(|gates| - 1)
    else PendingGate(gates[..|gates| - 1], v)
  }

  predicate Locks(r: Rows, v: Vertical) {
    HasGate(r.gates, v, Approved)
  }

  function Decided(r: Rows, id: nat, s: GateStatus): Rows
    requires id < |r.gates|
  {
    if r.gates[id].status == Pending then r.(gates := r.gates[id := r.gates[id].(status := s)]) else r
  }

  function Superseded(gates: seq<Gate>, v: Vertical): (q: seq<Gate>)
    ensures |q| == |gates|
    ensures forall i :: 0 <= i < |gates| ==> q[i] == (if gates[i].vertical == v then Gate(v, Rejected) else gates[i])
  {
    seq(|gates|, i requires 0 <= i < |gates| => if gates[i].vertical == v then Gate(v, Rejected) else gates[i])
  }

  // ---- statement by statement -----------------------------------------------------------------

  /** Where a call stands; kick says whether a kickoff follows the disposition. */
  datatype Pc =
    | ReadExisting(v: Vertical, d: Disposition, kick: bool)
    | CheckLock(v: Vertical, d: Disposition, kick: bool)
    | Upsert(v: Vertical, d: Disposition, kick: bool)
    | FetchDisposition(v: Vertical)
    | CheckApproved(v: Vertical)
    | EnsureApproved(v: Vertical)
    | EnsurePending(v: Vertical)
    | InsertGate(v: Vertical)
    | SelectPending(v: Vertical)
    | Decide(v: Vertical, id: nat)
    | Done(outcome: Outcome)

  /**
   What a caller asks for: a kickoff, with or without an edit, or an edit alone. The
   records of the request's latest match stand by for a kickoff's edit that selects none.
   */
  datatype Ask =
    | Kickoff(v: Vertical, edit: Option<Disposition>, latestMatch: seq<string>)
    | Record(v: Vertical, d: Disposition)

  function Entry(ask: Ask): Pc {
    match ask
    case Kickoff(v, None, _) => FetchDisposition(v)
    case Kickoff(v, Some(edit), latestMatch) =>
      var d := Filled(edit, latestMatch);
      if IsValid(d) then ReadExisting(v, d, true) else Done(Raised)
    case Record(v, d) => if IsValid(d) then ReadExisting(v, d, false) else Done(Raised)
  }

  predicate PcOk(r: Rows, pc: Pc) {
    pc.Decide? ==> pc.id < |r.gates| && r.gates[pc.id].vertical == pc.v
  }

  /** One statement with the code up to the next one; ruleOn says whether the approval rule is configured. */
  function Statement(r: Rows, pc: Pc, ruleOn: bool): (Rows, Pc)
    requires PcOk(r, pc)
  {
    match pc
    case ReadExisting(v, d, kick) =>
      (r, if v in r.dispositions && r.dispositions[v] != d then CheckLock(v, d, kick) else Upsert(v, d, kick))
    case CheckLock(v, d, kick) => (r, if Locks(r, v) then Done(Raised) else Upsert(v, d, kick))
    case Upsert(v, d, kick) =>
      (r.(dispositions := r.dispositions[v := d]), if kick then CheckApproved(v) else Done(Recorded))
    case FetchDisposition(v) => (r, if v in r.dispositions then CheckApproved(v) else Done(Raised))
    case CheckApproved(v) => (r, if Locks(r, v) then Done(AlreadyApproved) else EnsureApproved(v))
    case EnsureApproved(v) => (r, if Locks(r, v) then SelectPending(v) else EnsurePending(v))
    case EnsurePending(v) => (r, if PendingGate(r.gates, v).Some? then SelectPending(v) else InsertGate(v))
    case InsertGate(v) =>
      if ruleOn then (r.(gates := r.gates + [Gate(v, Pending)]), SelectPending(v)) else (r, Done(Raised))
    case SelectPending(v) =>
      (r, if PendingGate(r.gates, v).Some? then Decide(v, PendingGate(r.gates, v).value) else Done(Raised))
    case Decide(v, id) => (Decided(r, id, Approved), Done(if r.gates[id].status == Pending then Started else Raised))
    case Done(_) => (r, pc)
  }

  datatype State = State(rows: Rows, calls: seq<Pc>)

  datatype Action =
    | Begin(ask: Ask)
    | Advance(c: nat, ruleOn: bool)
    | ReopenVertical(v: Vertical)
    | OutsideDecision(id: nat, approve: bool)

  ghost predicate WellTyped(s: State) {
    forall c | 0 <= c < |s.calls| :: PcOk(s.rows, s.calls[c])
  }

  function Step(s: State, a: Action): State
    requires WellTyped(s)
  {
    match a
    case Begin(ask) => s.(calls := s.calls + [Entry(ask)])
    case Advance(c, ruleOn) =>
      if c < |s.calls| then
        assert PcOk(s.rows, s.calls[c]);
        var (r, pc) := Statement(s.rows, s.calls[c], ruleOn);
        State(r, s.calls[c := pc])
      else s
    case ReopenVertical(v) => s.(rows := s.rows.(gates := Superseded(s.rows.gates, v)))
    case OutsideDecision(id, approve) =>
      if id < |s.rows.gates| then s.(rows := Decided(s.rows, id, if approve then Approved else Rejected)) else s
  }

  // ---- what every interleaving keeps --------------------------------------------------------------

  /** A call past its disposition. */
  predicate PastDisposition(pc: Pc) {
    pc.CheckApproved? || pc.EnsureApproved? || pc.EnsurePending? || pc.InsertGate? || pc.SelectPending? || pc.Decide?
  }

  /** Every gate, and every call about to open or decide one, has a disposition behind it. */
  ghost predicate Inv(s: State) {
    && WellTyped(s)
    && (forall i | 0 <= i < |s.rows.gates| :: s.rows.gates[i].vertical in s.rows.dispositions)
    && (forall c | 0 <= c < |s.calls| && PastDisposition(s.calls[c]) :: s.calls[c].v in s.rows.dispositions)
  }

  /** Gates keep their vertical, approval comes only from pending, and rejection is final. */
  ghost predicate GatesMove(a: seq<Gate>, b: seq<Gate>) {
    && |a| <= |b|
    && forall i | 0 <= i < |a| ::
      && b[i].vertical == a[i].vertical
      && (a[i].status == Rejected ==> b[i].status == Rejected)
      && (a[i].status == Approved ==> b[i].status != Pending)
  }

  lemma StepMoves(s: State, a: Action)
    requires Inv(s)
    ensures GatesMove(s.rows.gates, Step(s, a).rows.gates)
    ensures s.rows.dispositions.Keys <= Step(s, a).rows.dispositions.Keys
  {
    if a.Advance? && a.c < |s.calls| {
      assert PcOk(s.rows, s.calls[a.c]);
    }
  }

  lemma AdvancedCall(s: State, c: nat, ruleOn: bool)
    requires Inv(s) && c < |s.calls|
    ensures var t := Step(s, Advance(c, ruleOn));
      && PcOk(t.rows, t.calls[c])
      && (PastDisposition(t.calls[c]) ==> t.calls[c].v in t.rows.dispositions)
      && (forall i | 0 <= i < |t.rows.gates| :: t.rows.gates[i].vertical in t.rows.dispositions)
  {
    assert PcOk(s.rows, s.calls[c]);
    assert PastDisposition(s.calls[c]) ==> s.calls[c].v in s.rows.dispositions;
  }

  lemma StepKeepsInv(s: State, a: Action)
    requires Inv(s)
    ensures Inv(Step(s, a))
  {
    var t := Step(s, a);
    StepMoves(s, a);
    if a.Advance? && a.c < |s.calls| {
      AdvancedCall(s, a.c, a.ruleOn);
    }
    forall c | 0 <= c < |t.calls|
      ensures PcOk(t.rows, t.calls[c])
      ensures PastDisposition(t.calls[c]) ==> t.calls[c].v in t.rows.dispositions {
      if c < |s.calls| && !(a.Advance? && c == a.c) {
        assert PcOk(s.rows, s.calls[c]) && t.calls[c] == s.calls[c];
      }
    }
  }

  function Exec(s: State, acts: seq<Action>): (t: State)
    requires Inv(s)
    ensures Inv(t)
    decreases |acts|
  {
    if acts == [] then s
    else
      StepKeepsInv(s, acts[0]);
      Exec(Step(s, acts[0]), acts[1..])
  }

  const FRESH := State(Rows(map[], []), [])

  /** However calls, reopens and outside decisions interleave, a kicked-off vertical has a disposition. */
  lemma KickedOffHasDisposition(acts: seq<Action>, v: Vertical)
    ensures Locks(Exec(FRESH, acts).rows, v) ==> v in Exec(FRESH, acts).rows.dispositions
  {
    var s := Exec(FRESH, acts);
    if Locks(s.rows, v) {
      var i :| 0 <= i < |s.rows.gates| && IsGate(s.rows.gates, i, v, Approved);
      assert s.rows.gates[i].vertical == v;
    }
  }

  /** Over every run a gate is approved at most once, from pending, and a rejected gate never comes back. */
  lemma {:induction false} GatesOnlyMoveOn(s: State, acts: seq<Action>)
    requires Inv(s)
    ensures GatesMove(s.rows.gates, Exec(s, acts).rows.gates)
    decreases |acts|
  {
    if acts != [] {
      StepKeepsInv(s, acts[0]);
      StepMoves(s, acts[0]);
      GatesOnlyMoveOn(Step(s, acts[0]), acts[1..]);
    }
  }

  // ---- one call at a time ---------------------------------------------------------------------------

  /** The upsert: refused when it would change the disposition of a kicked-off vertical. */
  predicate UpsertRefused(r: Rows, v: Vertical, d: Disposition) {
    !IsValid(d) || (v in r.dispositions && r.dispositions[v] != d && Locks(r, v))
  }

  function WithDisposition(r: Rows, v: Vertical, d: Disposition): Rows {
    r.(dispositions := r.dispositions[v := d])
  }

  /** Approve the vertical's newest pending gate, opening one if there is none. */
  function KickedOff(r: Rows, v: Vertical, ruleOn: bool): (Rows, Outcome) {
    if Locks(r, v) then (r, AlreadyApproved)
    else
      match PendingGate(r.gates, v)
      case Some(id) => (r.(gates := r.gates[id := Gate(v, Approved)]), Started)
      case None => if ruleOn then (r.(gates := r.gates + [Gate(v, Approved)]), Started) else (r, Raised)
  }

  function Answered(r: Rows, ask: Ask, ruleOn: bool): (Rows, Outcome) {
    match ask
    case Record(v, d) => if UpsertRefused(r, v, d) then (r, Raised) else (WithDisposition(r, v, d), Recorded)
    case Kickoff(v, None, _) => if v !in r.dispositions then (r, Raised) else KickedOff(r, v, ruleOn)
    case Kickoff(v, Some(edit), latestMatch) =>
      var d := Filled(edit, latestMatch);
      if UpsertRefused(r, v, d) then (r, Raised) else KickedOff(WithDisposition(r, v, d), v, ruleOn)
  }

  function Rank(pc: Pc): nat {
    match pc
    case ReadExisting(_, _, _) => 10
    case CheckLock(_, _, _) => 9
    case Upsert(_, _, _) => 8
    case FetchDisposition(_) => 7
    case CheckApproved(_) => 6
    case EnsureApproved(_) => 5
    case EnsurePending(_) => 4
    case InsertGate(_) => 3
    case SelectPending(_) => 2
    case Decide(_, _) => 1
    case Done(_) => 0
  }

  lemma StatementOk(r: Rows, pc: Pc, ruleOn: bool)
    requires PcOk(r, pc)
    ensures PcOk(Statement(r, pc, ruleOn).0, Statement(r, pc, ruleOn).1)
    ensures !pc.Done? ==> Rank(Statement(r, pc, ruleOn).1) < Rank(pc)
  {
  }

  /** The statements of one call with nothing in between. */
  function Undisturbed(r: Rows, pc: Pc, ruleOn: bool): (Rows, Outcome)
    requires PcOk(r, pc)
    decreases Rank(pc)
  {
    if pc.Done? then (r, pc.outcome)
    else
      StatementOk(r, pc, ruleOn);
      var (q, next) := Statement(r, pc, ruleOn);
      Undisturbed(q, next, ruleOn)
  }

  lemma DecideAlone(r: Rows, v: Vertical, id: nat, ruleOn: bool)
    requires id < |r.gates| && r.gates[id] == Gate(v, Pending)
    ensures Undisturbed(r, Decide(v, id), ruleOn) == (r.(gates := r.gates[id := Gate(v, Approved)]), Started)
  {
    assert Undisturbed(r, Decide(v, id), ruleOn) == Undisturbed(Decided(r, id, Approved), Done(Started), ruleOn);
  }

  lemma SelectAlone(r: Rows, v: Vertical, ruleOn: bool)
    requires PendingGate(r.gates, v).Some?
    ensures Undisturbed(r, SelectPending(v), ruleOn)
      == (r.(gates := r.gates[PendingGate(r.gates, v).value := Gate(v, Approved)]), Started)
  {
    DecideAlone(r, v, PendingGate(r.gates, v).value, ruleOn);
  }

  lemma InsertAlone(r: Rows, v: Vertical, ruleOn: bool)
    ensures Undisturbed(r, InsertGate(v), ruleOn)
      == if ruleOn then (r.(gates := r.gates + [Gate(v, Approved)]), Started) else (r, Raised)
  {
    if ruleOn {
      var q := r.(gates := r.gates + [Gate(v, Pending)]);
      assert PendingGate(q.gates, v) == Some(|r.gates|);
      SelectAlone(q, v, ruleOn);
      assert q.gates[|r.gates| := Gate(v, Approved)] == r.gates + [Gate(v, Approved)];
      assert Undisturbed(r, InsertGate(v), ruleOn) == Undisturbed(q, SelectPending(v), ruleOn);
    }
  }

  lemma KickAlone(r: Rows, v: Vertical, ruleOn: bool)
    ensures Undisturbed(r, CheckApproved(v), ruleOn) == KickedOff(r, v, ruleOn)
  {
    if !Locks(r, v) {
      assert Undisturbed(r, CheckApproved(v), ruleOn) == Undisturbed(r, EnsureApproved(v), ruleOn)
        == Undisturbed(r, EnsurePending(v), ruleOn);
      if PendingGate(r.gates, v).Some? {
        SelectAlone(r, v, ruleOn);
      } else {
        InsertAlone(r, v, ruleOn);
      }
    }
  }

  lemma UpsertAlone(r: Rows, v: Vertical, d: Disposition, kick: bool, ruleOn: bool)
    requires IsValid(d)
    ensures Undisturbed(r, ReadExisting(v, d, kick), ruleOn) ==
      if UpsertRefused(r, v, d) then (r, Raised)
      else if kick then KickedOff(WithDisposition(r, v, d), v, ruleOn)
      else (WithDisposition(r, v, d), Recorded)
  {
    var q := WithDisposition(r, v, d);
    assert Undisturbed(r, Upsert(v, d, kick), ruleOn)
      == Undisturbed(q, if kick then CheckApproved(v) else Done(Recorded), ruleOn);
    if kick {
      KickAlone(q, v, ruleOn);
    }
    if v in r.dispositions && r.dispositions[v] != d {
      assert Undisturbed(r, ReadExisting(v, d, kick), ruleOn) == Undisturbed(r, CheckLock(v, d, kick), ruleOn);
      assert Undisturbed(r, CheckLock(v, d, kick), ruleOn)
        == if Locks(r, v) then (r, Raised) else Undisturbed(r, Upsert(v, d, kick), ruleOn);
    } else {
      assert Undisturbed(r, ReadExisting(v, d, kick), ruleOn) == Undisturbed(r, Upsert(v, d, kick), ruleOn);
    }
  }

  /** A call's statements, run without interference, are the sequential operation. */
  lemma StatementsComposeToAnswer(r: Rows, ask: Ask, ruleOn: bool)
    ensures Undisturbed(r, Entry(ask), ruleOn) == Answered(r, ask, ruleOn)
  {
    match ask {
      case Record(v, d) =>
        if IsValid(d) {
          UpsertAlone(r, v, d, false, ruleOn);
        }
      case Kickoff(v, edit, latestMatch) =>
        match edit {
          case Some(e) =>
            var d := Filled(e, latestMatch);
            if IsValid(d) {
              UpsertAlone(r, v, d, true, ruleOn);
            }
          case None =>
            if v in r.dispositions {
              KickAlone(r, v, ruleOn);
            }
        }
    }
  }

  // ---- what is stored -------------------------------------------------------------------------------

  /** A recorded deletion or opt-out names the records it is about; not found names none. */
  predicate Sound(d: Disposition) {
    || ((d.status == 3 || d.status == 4) && |d.selection| > 0)
    || (d.status == 5 && |d.selection| == 0)
  }

  /** Every stored disposition, and every one on its way to the write. */
  ghost predicate StoresSound(s: State) {
    && (forall v | v in s.rows.dispositions :: Sound(s.rows.dispositions[v]))
    && (forall c | 0 <= c < |s.calls| :: OnItsWaySound(s.calls[c]))
  }

  predicate OnItsWaySound(pc: Pc) {
    pc.ReadExisting? || pc.CheckLock? || pc.Upsert? ==> Sound(pc.d)
  }

  lemma StepStoresSound(s: State, a: Action)
    requires Inv(s) && StoresSound(s)
    ensures StoresSound(Step(s, a))
  {
    if a.Advance? && a.c < |s.calls| {
      assert PcOk(s.rows, s.calls[a.c]) && OnItsWaySound(s.calls[a.c]);
    }
    forall c | 0 <= c < |Step(s, a).calls| ensures OnItsWaySound(Step(s, a).calls[c]) {
      if c < |s.calls| {
        assert OnItsWaySound(s.calls[c]);
      }
    }
  }

  lemma {:induction false} ExecStoresSound(s: State, acts: seq<Action>)
    requires Inv(s) && StoresSound(s)
    ensures StoresSound(Exec(s, acts))
    decreases |acts|
  {
    if acts != [] {
      StepKeepsInv(s, acts[0]);
      StepStoresSound(s, acts[0]);
      ExecStoresSound(Step(s, acts[0]), acts[1..]);
    }
  }

  /** However the calls interleave, every stored deletion or opt-out has a selection, and no not-found has one. */
  lemma StoredAreSound(acts: seq<Action>, v: Vertical)
    requires v in Exec(FRESH, acts).rows.dispositions
    ensures Sound(Exec(FRESH, acts).rows.dispositions[v])
  {
    ExecStoresSound(FRESH, acts);
  }

  ghost predicate KickedOffBefore(r: Rows, v: Vertical) {
    exists i :: 0 <= i < |r.gates| && r.gates[i] == Gate(v, Approved)
  }

  /**
   A recorded edit stores the caller's status and selection, or the records of the latest match for
   a kickoff that needs a selection and gives none. It is refused exactly when the result is not
   sound or would change the disposition of a kicked-off vertical, and then nothing is stored.
   */
  lemma EditStoresExactly(r: Rows, v: Vertical, edit: Disposition, latestMatch: seq<string>, ruleOn: bool)
    ensures
      var selection := if edit.selection == [] && (edit.status == 3 || edit.status == 4)
                       then latestMatch else edit.selection;
      var d := Disposition(edit.status, selection);
      var refused := !Sound(d) || (KickedOffBefore(r, v) && v in r.dispositions && r.dispositions[v] != d);
      var (q, outcome) := Answered(r, Kickoff(v, Some(edit), latestMatch), ruleOn);
      && q.dispositions == (if refused then r.dispositions else r.dispositions[v := d])
      && (refused ==> q == r && outcome == Raised)
    ensures
      var refused := !Sound(edit) || (KickedOffBefore(r, v) && v in r.dispositions && r.dispositions[v] != edit);
      Answered(r, Record(v, edit), ruleOn)
        == if refused then (r, Raised) else (r.(dispositions := r.dispositions[v := edit]), Recorded)
  {
    LocksMeans(r, v);
    LocksMeans(WithDisposition(r, v, Filled(edit, latestMatch)), v);
  }

  lemma LocksMeans(r: Rows, v: Vertical)
    ensures Locks(r, v) <==> KickedOffBefore(r, v)
  {
    if KickedOffBefore(r, v) {
      var i :| 0 <= i < |r.gates| && r.gates[i] == Gate(v, Approved);
      assert IsGate(r.gates, i, v, Approved);
    }
  }

  /** Gate id is the vertical's newest pending one. */
  ghost predicate NewestPending(r: Rows, v: Vertical, id: nat) {
    && id < |r.gates| && r.gates[id] == Gate(v, Pending)
    && forall i :: id < i < |r.gates| ==> r.gates[i] != Gate(v, Pending)
  }

  /**
   A kickoff without an edit needs a disposition. It approves the newest pending gate, or a new one
   where the rule allows, and does nothing on a vertical that is kicked off already.
   */
  lemma KickoffExactly(r: Rows, v: Vertical, ruleOn: bool, id: nat)
    requires v in r.dispositions
    ensures var (q, outcome) := Answered(r, Kickoff(v, None, []), ruleOn);
      && (KickedOffBefore(r, v) ==> (q, outcome) == (r, AlreadyApproved))
      && (!KickedOffBefore(r, v) && NewestPending(r, v, id) ==>
            q == r.(gates := r.gates[id := Gate(v, Approved)]) && outcome == Started)
      && (!KickedOffBefore(r, v) && Gate(v, Pending) !in r.gates ==>
            if ruleOn then q == r.(gates := r.gates + [Gate(v, Approved)]) && outcome == Started
            else (q, outcome) == (r, Raised))
  {
    LocksMeans(r, v);
    if NewestPending(r, v, id) {
      NewestIsFound(r.gates, v, id);
    }
  }

  lemma {:induction false} NewestIsFound(gates: seq<Gate>, v: Vertical, id: nat)
    requires id < |gates| && gates[id] == Gate(v, Pending)
    requires forall i :: id < i < |gates| ==> gates[i] != Gate(v, Pending)
    ensures PendingGate(gates, v) == Some(id)
  {
    if gates[|gates| - 1] != Gate(v, Pending) {
      NewestIsFound(gates[..|gates| - 1], v, id);
    }
  }

  // ---- the lock, sequentially ---------------------------------------------------------------------

  datatype Op = Serve(ask: Ask, ruleOn: bool) | Reopen(v: Vertical)

  function Apply(r: Rows, op: Op): Rows {
    match op
    case Serve(ask, ruleOn) => Answered(r, ask, ruleOn).0
    case Reopen(v) => r.(gates := Superseded(r.gates, v))
  }

  ghost predicate Run(states: seq<Rows>, ops: seq<Op>) {
    && |states| == |ops| + 1
    && forall k :: 0 <= k < |ops| ==> states[k + 1] == Apply(states[k], ops[k])
  }

  /** A vertical is kicked off with this disposition. */
  predicate LockedWith(r: Rows, v: Vertical, d: Disposition) {
    Locks(r, v) && v in r.dispositions && r.dispositions[v] == d
  }

  lemma KickKeepsLock(r: Rows, w: Vertical, ruleOn: bool, v: Vertical, d: Disposition)
    requires LockedWith(r, v, d)
    ensures LockedWith(KickedOff(r, w, ruleOn).0, v, d)
  {
    var i :| 0 <= i < |r.gates| && IsGate(r.gates, i, v, Approved);
    assert IsGate(KickedOff(r, w, ruleOn).0.gates, i, v, Approved);
  }

  lemma StepKeepsLock(r: Rows, op: Op, v: Vertical, d: Disposition)
    requires LockedWith(r, v, d) && op != Reopen(v)
    ensures LockedWith(Apply(r, op), v, d)
  {
    match op {
      case Reopen(w) =>
        var i :| 0 <= i < |r.gates| && IsGate(r.gates, i, v, Approved);
        assert IsGate(Apply(r, op).gates, i, v, Approved);
      case Serve(ask, ruleOn) =>
        match ask {
          case Record(w, e) =>
          case Kickoff(w, edit, latestMatch) =>
            KickKeepsLock(r, w, ruleOn, v, d);
            if edit.Some? && !UpsertRefused(r, w, Filled(edit.value, latestMatch)) {
              KickKeepsLock(WithDisposition(r, w, Filled(edit.value, latestMatch)), w, ruleOn, v, d);
            }
        }
    }
  }

  /** With calls one at a time, a kicked-off vertical keeps its disposition until it is reopened itself. */
  lemma {:induction false} LockedUntilReopen(states: seq<Rows>, ops: seq<Op>, k: nat, l: nat,
                                             v: Vertical, d: Disposition)
    requires Run(states, ops) && k <= l < |states| && LockedWith(states[k], v, d)
    requires forall m :: k <= m < l ==> ops[m] != Reopen(v)
    ensures LockedWith(states[l], v, d)
  {
    if k < l {
      LockedUntilReopen(states, ops, k, l - 1, v, d);
      StepKeepsLock(states[l - 1], ops[l - 1], v, d);
    }
  }

  /** After a reopen any edit that is valid with its selection filled in is accepted, and a kickoff starts on it. */
  lemma ReopenUnlocks(r: Rows, v: Vertical, edit: Disposition, latestMatch: seq<string>)
    requires Sound(edit) || (edit.selection == [] && edit.status in {3, 4} && latestMatch != [])
    ensures
      var after := Answered(Apply(r, Reopen(v)), Kickoff(v, Some(edit), latestMatch), true);
      && after.1 == Started
      && LockedWith(after.0, v, if Sound(edit) then edit else Disposition(edit.status, latestMatch))
  {
    var q := WithDisposition(Apply(r, Reopen(v)), v, Filled(edit, latestMatch));
    assert PendingGate(q.gates, v).None?;
    assert IsGate(KickedOff(q, v, true).0.gates, |q.gates|, v, Approved);
  }

  // ---- the lock, interleaved -----------------------------------------------------------------------

  function RaceState(v: Vertical, d: Disposition, e: Disposition, k: nat): State {
    var before, after := map[v := d], map[v := e];
    match k
    case 0 => State(Rows(before, []), [])
    case 1 => State(Rows(before, []), [ReadExisting(v, e, false)])
    case 2 => State(Rows(before, []), [CheckLock(v, e, false)])
    case 3 => State(Rows(before, []), [Upsert(v, e, false)])
    case 4 => State(Rows(before, []), [Upsert(v, e, false), FetchDisposition(v)])
    case 5 => State(Rows(before, []), [Upsert(v, e, false), CheckApproved(v)])
    case 6 => State(Rows(before, []), [Upsert(v, e, false), EnsureApproved(v)])
    case 7 => State(Rows(before, []), [Upsert(v, e, false), EnsurePending(v)])
    case 8 => State(Rows(before, []), [Upsert(v, e, false), InsertGate(v)])
    case 9 => State(Rows(before, [Gate(v, Pending)]), [Upsert(v, e, false), SelectPending(v)])
    case 10 => State(Rows(before, [Gate(v, Pending)]), [Upsert(v, e, false), Decide(v, 0)])
    case 11 => State(Rows(before, [Gate(v, Approved)]), [Upsert(v, e, false), Done(Started)])
    case _ => State(Rows(after, [Gate(v, Approved)]), [Done(Recorded), Done(Started)])
  }

  function RaceAction(v: Vertical, e: Disposition, k: nat): Action {
    if k == 0 then Begin(Record(v, e))
    else if k == 3 then Begin(Kickoff(v, None, []))
    else if k == 1 || k == 2 || k == 11 then Advance(0, true)
    else Advance(1, true)
  }

  ghost predicate RaceMoves(v: Vertical, d: Disposition, e: Disposition, k: nat) {
    && WellTyped(RaceState(v, d, e, k))
    && Step(RaceState(v, d, e, k), RaceAction(v, e, k)) == RaceState(v, d, e, k + 1)
  }

  lemma RaceStep(v: Vertical, d: Disposition, e: Disposition, k: nat)
    requires IsValid(e) && d != e && k < 12
    ensures RaceMoves(v, d, e, k)
  {
    assert PendingGate([Gate(v, Pending)], v) == Some(0);
  }

  /** Interleaved, an edit that passed its lock check before the kickoff still changes the disposition after it. */
  lemma EditCanSlipPastTheLock(v: Vertical, d: Disposition, e: Disposition)
    requires IsValid(e) && d != e
    ensures LockedWith(RaceState(v, d, e, 11).rows, v, d) && LockedWith(RaceState(v, d, e, 12).rows, v, e)
    ensures forall k | 0 <= k < 12 :: RaceMoves(v, d, e, k)
  {
    forall k | 0 <= k < 12 ensures RaceMoves(v, d, e, k) {
      RaceStep(v, d, e, k);
    }
    assert IsGate([Gate(v, Approved)], 0, v, Approved);
  }

  /**
   Nothing else does: while a vertical is kicked off only its reopen, or a call already
   at its write, can change its disposition, and no further call gets to write another.
   */
  lemma OnlyOverlapChanges(s: State, a: Action, v: Vertical, d: Disposition)
    requires Inv(s) && LockedWith(s.rows, v, d)
    ensures
      || LockedWith(Step(s, a).rows, v, d)
      || a == ReopenVertical(v)
      || (a.Advance? && a.c < |s.calls| && s.calls[a.c].Upsert? && s.calls[a.c].v == v && s.calls[a.c].d != d)
    ensures a.Advance? && a.c < |s.calls| && !s.calls[a.c].Upsert? ==>
      var pc := Step(s, a).calls[a.c]; pc.Upsert? && pc.v == v ==> pc.d == d
  {
    var t := Step(s, a);
    var i :| 0 <= i < |s.rows.gates| && IsGate(s.rows.gates, i, v, Approved);
    if a.Advance? && a.c < |s.calls| {
      assert PcOk(s.rows, s.calls[a.c]);
    }
    if a != ReopenVertical(v) {
      assert IsGate(t.rows.gates, i, v, Approved);
    }
  }

  /** A call stands at its write of another disposition for the vertical. */
  predicate Overtakes(pc: Pc, v: Vertical, d: Disposition) {
    pc.Upsert? && pc.v == v && pc.d != d
  }

  /**
   Over runs: a vertical kicked off while no call stands at its write of another
   disposition keeps its disposition, and stays kicked off, however everything else
   interleaves, until it is reopened.
   */
  lemma {:induction false} LockedThroughInterleaving(s: State, acts: seq<Action>, v: Vertical, d: Disposition)
    requires Inv(s) && LockedWith(s.rows, v, d)
    requires forall c | 0 <= c < |s.calls| :: !Overtakes(s.calls[c], v, d)
    requires ReopenVertical(v) !in acts
    ensures LockedWith(Exec(s, acts).rows, v, d)
    decreases |acts|
  {
    if acts != [] {
      var t := Step(s, acts[0]);
      assert acts[0] in acts;
      StepKeepsInv(s, acts[0]);
      OnlyOverlapChanges(s, acts[0], v, d);
      NoneOvertakes(s, acts[0], v, d);
      LockedThroughInterleaving(t, acts[1..], v, d);
    }
  }

  /** The call's next statement writes its disposition over the locked one. */
  lemma OvertakingBreaksLock(s: State, c: nat, v: Vertical, d: Disposition)
    requires Inv(s) && LockedWith(s.rows, v, d)
    requires c < |s.calls| && Overtakes(s.calls[c], v, d)
    ensures !LockedWith(Exec(s, [Advance(c, true)]).rows, v, d)
  {
    var a := Advance(c, true);
    StepKeepsInv(s, a);
    assert PcOk(s.rows, s.calls[c]);
    assert [a][1..] == [];
    assert Exec(s, [a]) == Exec(Step(s, a), []);
  }

  /** Every run without its reopen keeps the vertical kicked off with this disposition. */
  ghost predicate LockHolds(s: State, v: Vertical, d: Disposition)
    requires Inv(s)
  {
    forall acts: seq<Action> | ReopenVertical(v) !in acts :: LockedWith(Exec(s, acts).rows, v, d)
  }

  /** The lock holds over all interleavings exactly when no call stands at its write of another disposition. */
  lemma LockHoldsExactly(s: State, v: Vertical, d: Disposition)
    requires Inv(s) && LockedWith(s.rows, v, d)
    ensures LockHolds(s, v, d) <==> forall c | 0 <= c < |s.calls| :: !Overtakes(s.calls[c], v, d)
  {
    if forall c | 0 <= c < |s.calls| :: !Overtakes(s.calls[c], v, d) {
      forall acts: seq<Action> | ReopenVertical(v) !in acts ensures LockedWith(Exec(s, acts).rows, v, d) {
        LockedThroughInterleaving(s, acts, v, d);
      }
    } else {
      var c :| 0 <= c < |s.calls| && Overtakes(s.calls[c], v, d);
      OvertakingBreaksLock(s, c, v, d);
      assert ReopenVertical(v) !in [Advance(c, true)];
    }
  }

  lemma NoneOvertakes(s: State, a: Action, v: Vertical, d: Disposition)
    requires Inv(s) && LockedWith(s.rows, v, d)
    requires forall c | 0 <= c < |s.calls| :: !Overtakes(s.calls[c], v, d)
    ensures forall c | 0 <= c < |Step(s, a).calls| :: !Overtakes(Step(s, a).calls[c], v, d)
  {
    OnlyOverlapChanges(s, a, v, d);
    if a.Advance? && a.c < |s.calls| {
      assert PcOk(s.rows, s.calls[a.c]);
    }
  }

  // ---- the code -------------------------------------------------------------------------------------

  class Kickoffs {
    var dispositions: map<Vertical, Disposition>
    var gates: seq<Gate>

    ghost function View(): Rows
      reads this
    {
      Rows(dispositions, gates)
    }

    constructor ()
      ensures View() == FRESH.rows
    {
      dispositions, gates := map[], [];
    }

    method UpsertDisposition(v: Vertical, d: Disposition) returns (recorded: bool)
      modifies this
      ensures View() == Answered(old(View()), Record(v, d), true).0
      ensures recorded <==> !UpsertRefused(old(View()), v, d)
    {
      if !IsValid(d) {
        return false;
      }
      if v in dispositions {
        var changed := dispositions[v] != d;
        if changed && HasGate(gates, v, Approved) {
          return false;
        }
      }
      dispositions := dispositions[v := d];
      recorded := true;
    }

    method ApproveGate(v: Vertical, ruleOn: bool) returns (outcome: Outcome)
      requires !HasGate(gates, v, Approved)
      modifies this`gates
      ensures (View(), outcome) == KickedOff(old(View()), v, ruleOn)
    {
      if PendingGate(gates, v).None? {
        if !ruleOn {
          return Raised;
        }
        gates := gates + [Gate(v, Pending)];
        assert gates[|gates| - 1 := Gate(v, Approved)] == old(gates) + [Gate(v, Approved)];
      }
      var pendingId := PendingGate(gates, v);
      if pendingId.None? {
        return Raised;
      }
      gates := gates[pendingId.value := Gate(v, Approved)];
      outcome := Started;
    }

    method KickoffVertical(v: Vertical, edit: Option<Disposition>, latestMatch: seq<string>, ruleOn: bool)
      returns (outcome: Outcome)
      modifies this
      ensures (View(), outcome) == Answered(old(View()), Kickoff(v, edit, latestMatch), ruleOn)
    {
      if edit.Some? {
        var selected := edit.value.selection;
        if selected == [] && edit.value.status in {3, 4} {
          selected := latestMatch;
        }
        var recorded := UpsertDisposition(v, Disposition(edit.value.status, selected));
        if !recorded {
          return Raised;
        }
      } else if v !in dispositions {
        return Raised;
      }
      if HasGate(gates, v, Approved) {
        return AlreadyApproved;
      }
      outcome := ApproveGate(v, ruleOn);
    }

    method ReopenKickoff(v: Vertical) returns (reopened: bool)
      modifies this`gates
      ensures View() == Apply(old(View()), Reopen(v))
      ensures reopened <==> HasGate(old(gates), v, Pending) || HasGate(old(gates), v, Approved)
    {
      reopened := HasGate(gates, v, Pending) || HasGate(gates, v, Approved);
      gates := Superseded(gates, v);
    }
  }
}
