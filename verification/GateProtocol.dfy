/**
Any number of promote and decline calls, interleaved at every SQL statement.
Context updates are unlocked read-modify-writes, so a stored decision can be
lost; the history of decisions written cannot. The safety results are about the
history: no call closes a gate or mirrors a DROP status before every catalog
pair has been decided.
*/
module GateProtocol {
  import opened Common
  import opened MatchingRows

  /** Where a call stands: the statement it issues next, with what it has read so far. */
  datatype Pc =
    | Ensure
    | InsertGate
    | SelectGate
    | ReadDecision(id: nat)
    | WriteDecision(id: nat, snapshot: Context)
    | Upsert(target: Option<nat>)
    | ReadVertical(id: nat)
    | CheckVertical(id: nat, seen: set<Vertical>)
    | ReadDeclined(id: nat)
    | WriteDeclined(id: nat, snapshot: Context)
    | ReadDispositions(target: Option<nat>, recorded: bool)
    | CheckCatalog(target: Option<nat>, recorded: bool, seen: set<Vertical>)
    | FetchDisposition(target: Option<nat>)
    | Mirror(target: Option<nat>, status: int)
    | Decide(target: Option<nat>)
    | Finished(outcome: Outcome)

  datatype Outcome =
    | StillPending
    | Closed(verdict: Verdict)
    | AlreadyApproved
    | Raised

  function AfterDecision(cat: Catalog, req: Review, id: nat): Pc {
    if req.Decline? then ReadVertical(id)
    else if req.Records(cat) then Upsert(Some(id))
    else ReadDispositions(Some(id), false)
  }

  /** One statement of one call, together with the code up to its next statement. */
  function CallStep(cat: Catalog, r: Rows, req: Review, pc: Pc, ch: Choice): (Rows, Pc)
    requires PcInBounds(r, pc)
    requires pc.Upsert? ==> req.Promote? && req.status.Some?
    requires pc.ReadDispositions? && pc.recorded ==> req.Promote? && req.status.Some?
    requires pc.CheckCatalog? && pc.recorded ==> req.Promote? && req.status.Some?
  {
    match pc
    case Ensure =>
      (r, if ch.approved || LatestPending(r).Some? || !ch.ruleConfigured then SelectGate else InsertGate)
    case InsertGate => (WithNewGate(r), SelectGate)
    case SelectGate =>
      (match LatestPending(r)
       case Some(id) => (r, ReadDecision(id))
       case None =>
         if req.Decline? then (r, Finished(Raised))
         else if req.Records(cat) then (r, Upsert(None))
         else (r, ReadDispositions(None, false)))
    case ReadDecision(id) => (r, WriteDecision(id, r.gates[id].context))
    case WriteDecision(id, snapshot) =>
      (WithContext(r, id, snapshot.With(req.pair, req.Verdict())), AfterDecision(cat, req, id))
    case Upsert(target) =>
      if UpsertRaises(req, ch) then (r, Finished(Raised))
      else (WithDisposition(r, cat.Stored(req.pair.vertical), req.status.value), ReadDispositions(target, true))
    case ReadVertical(id) => (r, CheckVertical(id, r.dispositions.Keys))
    case CheckVertical(id, seen) =>
      (r, if Undecided(cat, seen, PendingContext(r), Some(req.pair.vertical)) == {}
          then ReadDeclined(id) else ReadDispositions(Some(id), false))
    case ReadDeclined(id) => (r, WriteDeclined(id, r.gates[id].context))
    case WriteDeclined(id, snapshot) =>
      (WithContext(r, id, snapshot.(declinedVerticals := snapshot.declinedVerticals + {req.pair.vertical})),
       ReadDispositions(Some(id), false))
    case ReadDispositions(target, recorded) => (r, CheckCatalog(target, recorded, r.dispositions.Keys))
    case CheckCatalog(target, recorded, seen) =>
      if Undecided(cat, seen, PendingContext(r), None) != {} then
        (r, Finished(if target.None? && !ch.approved then Raised else StillPending))
      else if recorded && req.pair.vertical == VERTICAL_DATA then (r, Mirror(target, req.status.value))
      else (r, FetchDisposition(target))
    case FetchDisposition(target) =>
      var v := cat.Stored(VERTICAL_DATA);
      (r, if v in r.dispositions && r.dispositions[v] in PROMOTE_CODES
          then Mirror(target, r.dispositions[v]) else Decide(target))
    case Mirror(target, status) => (WithResponse(r, status), Decide(target))
    case Decide(target) =>
      (match target
       case None => (r, Finished(if ch.approved then AlreadyApproved else Raised))
       case Some(id) =>
         (WithDecision(r, id, req.Verdict()),
          Finished(if r.gates[id].status.Pending? then Closed(req.Verdict()) else Raised)))
    case Finished(_) => (r, pc)
  }

  function Target(pc: Pc): Option<nat> {
    match pc
    case ReadDecision(id) => Some(id)
    case WriteDecision(id, _) => Some(id)
    case ReadVertical(id) => Some(id)
    case CheckVertical(id, _) => Some(id)
    case ReadDeclined(id) => Some(id)
    case WriteDeclined(id, _) => Some(id)
    case Upsert(t) => t
    case ReadDispositions(t, _) => t
    case CheckCatalog(t, _, _) => t
    case FetchDisposition(t) => t
    case Mirror(t, _) => t
    case Decide(t) => t
    case _ => None
  }

  ghost predicate PcInBounds(r: Rows, pc: Pc) {
    Target(pc).Some? ==> Target(pc).value < |r.gates|
  }

  // ---- whole runs ---------------------------------------------------------------

  datatype Call = Call(req: Review, pc: Pc)

  /**
   The tables, the calls in flight, and the history: pairs whose decision was ever
   written, the gate each was written to, and verticals ever disposed.
   */
  datatype State = State(
    rows: Rows,
    calls: seq<Call>,
    decidedEver: set<Pair>,
    written: set<GateWrite>,
    disposedEver: set<Vertical>)

  datatype GateWrite = GateWrite(gate: nat, pair: Pair)

  /**
   What can happen next: the calls of this module, triage, and other writers of the same
   rows. A disposition edit elsewhere is two statements: the disposition, and for a Data
   disposition the DROP response, whatever it was. The fulfillment dispatcher mirrors its
   status with the same statement.
   */
  datatype Action =
    | Begin(req: Review)
    | Advance(c: nat, ch: Choice)
    | OpenGate
    | OutsideDecision(id: nat, verdict: Verdict)
    | OutsideDisposition(v: Vertical, status: int)
    | OutsideStatus(status: int)
    | Rematch
    | TriageReject(status: int)

  /** Only a promote with a status gets here. */
  predicate HasRecorded(pc: Pc) {
    pc.Upsert? || (pc.ReadDispositions? && pc.recorded) || (pc.CheckCatalog? && pc.recorded)
  }

  ghost predicate CallOk(cat: Catalog, r: Rows, call: Call) {
    && PcInBounds(r, call.pc)
    && Valid(cat, call.req)
    && (HasRecorded(call.pc) ==> call.req.Promote? && call.req.status.Some?)
  }

  ghost predicate WellTyped(cat: Catalog, s: State) {
    forall c | 0 <= c < |s.calls| :: CallOk(cat, s.rows, s.calls[c])
  }

  /** Actions that make no sense in the current state leave it as it is. */
  ghost function Step(cat: Catalog, s: State, a: Action): State
    requires WellTyped(cat, s)
  {
    match a
    case Begin(req) => if Valid(cat, req) then s.(calls := s.calls + [Call(req, Ensure)]) else s
    case Advance(c, ch) => if c < |s.calls| then AdvanceCall(cat, s, c, ch) else s
    case OpenGate => s.(rows := WithNewGate(s.rows))
    case OutsideDecision(id, verdict) =>
      if id < |s.rows.gates| then s.(rows := WithDecision(s.rows, id, verdict)) else s
    case OutsideDisposition(v, status) =>
      s.(rows := WithDisposition(s.rows, v, status), disposedEver := s.disposedEver + {v})
    case OutsideStatus(status) => s.(rows := WithSyncedResponse(s.rows, status))
    case Rematch => s.(rows := WithRematch(s.rows))
    case TriageReject(status) => if status in DROP_CODES then s.(rows := WithResponse(s.rows, status)) else s
  }

  ghost function AdvanceCall(cat: Catalog, s: State, c: nat, ch: Choice): State
    requires WellTyped(cat, s) && c < |s.calls|
  {
    var call := s.calls[c];
    assert CallOk(cat, s.rows, call);
    var (r, pc) := CallStep(cat, s.rows, call.req, call.pc, ch);
    State(r, s.calls[c := Call(call.req, pc)],
      if call.pc.WriteDecision? then s.decidedEver + {call.req.pair} else s.decidedEver,
      if call.pc.WriteDecision? then s.written + {GateWrite(call.pc.id, call.req.pair)} else s.written,
      if call.pc.Upsert? && pc.ReadDispositions? then s.disposedEver + {cat.Stored(call.req.pair.vertical)}
        else s.disposedEver)
  }

  /** A fresh request: no calls yet, no gate carrying decisions, no dispositions. */
  ghost predicate Init(s: State) {
    && s.calls == [] && s.decidedEver == {} && s.written == {}
    && s.rows.dispositions.Keys == s.disposedEver
    && forall i | 0 <= i < |s.rows.gates| :: s.rows.gates[i].context == EMPTY
  }

  // ---- the safety invariant ---------------------------------------------------

  /** Every listed pair was decided at some time, or is its vertical's only one and that was disposed. */
  ghost predicate Covered(cat: Catalog, s: State, scope: Option<Vertical>) {
    forall p | p in Listing(cat, scope) ::
      p in s.decidedEver || (OnlySystem(cat, p.vertical) && p.vertical in s.disposedEver)
  }

  /** Stored decisions come from the history, even those a later write may drop. */
  ghost predicate Known(cat: Catalog, s: State, ctx: Context) {
    && ctx.Systems() <= s.decidedEver
    && forall v | v in ctx.declinedVerticals :: Covered(cat, s, Some(v))
  }

  ghost predicate PcSafe(cat: Catalog, s: State, call: Call) {
    match call.pc
    case WriteDecision(_, snapshot) => Known(cat, s, snapshot)
    case CheckVertical(_, seen) => seen <= s.disposedEver
    case ReadDeclined(_) => Covered(cat, s, Some(call.req.pair.vertical))
    case WriteDeclined(_, snapshot) => Known(cat, s, snapshot) && Covered(cat, s, Some(call.req.pair.vertical))
    case CheckCatalog(_, _, seen) => seen <= s.disposedEver
    case FetchDisposition(_) => Covered(cat, s, None)
    case Mirror(_, _) => Covered(cat, s, None)
    case Decide(_) => Covered(cat, s, None)
    case Finished(outcome) => outcome.Closed? ==> Covered(cat, s, None)
    case _ => true
  }

  ghost predicate Inv(cat: Catalog, s: State) {
    && WellTyped(cat, s)
    && s.rows.dispositions.Keys <= s.disposedEver
    && (forall i | 0 <= i < |s.rows.gates| :: Known(cat, s, s.rows.gates[i].context))
    && (forall c | 0 <= c < |s.calls| :: PcSafe(cat, s, s.calls[c]))
  }

  /** The history only grows. */
  ghost predicate Grows(s: State, t: State) {
    s.decidedEver <= t.decidedEver && s.disposedEver <= t.disposedEver
  }

  lemma CoveredGrows(cat: Catalog, s: State, t: State, scope: Option<Vertical>)
    requires Grows(s, t) && Covered(cat, s, scope)
    ensures Covered(cat, t, scope)
  {
  }

  lemma KnownGrows(cat: Catalog, s: State, t: State, ctx: Context)
    requires Grows(s, t) && Known(cat, s, ctx)
    ensures Known(cat, t, ctx)
  {
    forall v | v in ctx.declinedVerticals ensures Covered(cat, t, Some(v)) {
      CoveredGrows(cat, s, t, Some(v));
    }
  }

  lemma PcSafeGrows(cat: Catalog, s: State, t: State, call: Call)
    requires Grows(s, t) && PcSafe(cat, s, call)
    ensures PcSafe(cat, t, call)
  {
    match call.pc
    case WriteDecision(_, snapshot) => KnownGrows(cat, s, t, snapshot);
    case ReadDeclined(_) => CoveredGrows(cat, s, t, Some(call.req.pair.vertical));
    case WriteDeclined(_, snapshot) =>
      KnownGrows(cat, s, t, snapshot);
      CoveredGrows(cat, s, t, Some(call.req.pair.vertical));
    case _ =>
  }

  /** An empty undecided set read from known data means the scope is covered. */
  lemma NoneLeftMeansCovered(cat: Catalog, s: State, seen: set<Vertical>, ctx: Context, scope: Option<Vertical>)
    requires seen <= s.disposedEver && Known(cat, s, ctx)
    requires Undecided(cat, seen, ctx, scope) == {}
    ensures Covered(cat, s, scope)
  {
    forall p | p in Listing(cat, scope)
      ensures p in s.decidedEver || (OnlySystem(cat, p.vertical) && p.vertical in s.disposedEver)
    {
      assert p !in Undecided(cat, seen, ctx, scope);
      if p !in ctx.Systems() && p.vertical !in seen {
        assert p.vertical in ctx.declinedVerticals;
        assert Covered(cat, s, Some(p.vertical));
        assert p in Listing(cat, Some(p.vertical));
      }
    }
  }

  lemma PendingContextKnown(cat: Catalog, s: State)
    requires Inv(cat, s)
    ensures Known(cat, s, PendingContext(s.rows))
  {
  }

  lemma StatementOk(cat: Catalog, r: Rows, req: Review, pc: Pc, ch: Choice)
    requires CallOk(cat, r, Call(req, pc))
    ensures var (r', pc') := CallStep(cat, r, req, pc, ch);
      CallOk(cat, r', Call(req, pc')) && |r'.gates| >= |r.gates|
  {
  }

  lemma CallStepOk(cat: Catalog, s: State, c: nat, ch: Choice)
    requires Inv(cat, s) && c < |s.calls|
    ensures var t := AdvanceCall(cat, s, c, ch);
      && Grows(s, t) && CallOk(cat, t.rows, t.calls[c])
      && |t.rows.gates| >= |s.rows.gates|
      && t.rows.dispositions.Keys <= t.disposedEver
  {
    StatementOk(cat, s.rows, s.calls[c].req, s.calls[c].pc, ch);
    assert CallOk(cat, s.rows, s.calls[c]);
  }

  lemma CallStepSafe(cat: Catalog, s: State, c: nat, ch: Choice)
    requires Inv(cat, s) && c < |s.calls|
    ensures var t := AdvanceCall(cat, s, c, ch); PcSafe(cat, t, t.calls[c])
  {
    var t := AdvanceCall(cat, s, c, ch);
    var call := s.calls[c];
    assert CallOk(cat, s.rows, call) && PcSafe(cat, s, call);
    PendingContextKnown(cat, s);
    match call.pc
    case CheckVertical(id, seen) =>
      if t.calls[c].pc.ReadDeclined? {
        NoneLeftMeansCovered(cat, s, seen, PendingContext(s.rows), Some(call.req.pair.vertical));
      }
    case CheckCatalog(target, recorded, seen) =>
      if !t.calls[c].pc.Finished? {
        NoneLeftMeansCovered(cat, s, seen, PendingContext(s.rows), None);
      }
    case ReadDeclined(id) => assert Known(cat, s, s.rows.gates[id].context);
    case _ =>
  }

  lemma CallStepGates(cat: Catalog, s: State, c: nat, ch: Choice, i: nat)
    requires Inv(cat, s) && c < |s.calls|
    requires i < |AdvanceCall(cat, s, c, ch).rows.gates|
    ensures var t := AdvanceCall(cat, s, c, ch); Known(cat, t, t.rows.gates[i].context)
  {
    var t := AdvanceCall(cat, s, c, ch);
    var call := s.calls[c];
    assert CallOk(cat, s.rows, call) && PcSafe(cat, s, call);
    if i < |s.rows.gates| {
      KnownGrows(cat, s, t, s.rows.gates[i].context);
    }
    match call.pc
    case WriteDecision(id, snapshot) => KnownGrows(cat, s, t, snapshot);
    case WriteDeclined(id, snapshot) =>
      KnownGrows(cat, s, t, snapshot);
      CoveredGrows(cat, s, t, Some(call.req.pair.vertical));
    case _ =>
  }

  lemma AdvanceKeepsInv(cat: Catalog, s: State, c: nat, ch: Choice)
    requires Inv(cat, s) && c < |s.calls|
    ensures Inv(cat, AdvanceCall(cat, s, c, ch))
  {
    var t := AdvanceCall(cat, s, c, ch);
    CallStepOk(cat, s, c, ch);
    CallStepSafe(cat, s, c, ch);
    forall i | 0 <= i < |t.rows.gates| ensures Known(cat, t, t.rows.gates[i].context) {
      CallStepGates(cat, s, c, ch, i);
    }
    forall d | 0 <= d < |t.calls| ensures PcSafe(cat, t, t.calls[d]) && CallOk(cat, t.rows, t.calls[d]) {
      if d != c {
        assert CallOk(cat, s.rows, s.calls[d]) && PcSafe(cat, s, s.calls[d]);
        PcSafeGrows(cat, s, t, s.calls[d]);
      }
    }
  }

  lemma StepKeepsInv(cat: Catalog, s: State, a: Action)
    requires Inv(cat, s)
    ensures Inv(cat, Step(cat, s, a))
  {
    if a.Advance? && a.c < |s.calls| {
      AdvanceKeepsInv(cat, s, a.c, a.ch);
    } else {
      var t := Step(cat, s, a);
      assert Grows(s, t);
      forall i | 0 <= i < |t.rows.gates| ensures Known(cat, t, t.rows.gates[i].context) {
        if i < |s.rows.gates| {
          KnownGrows(cat, s, t, s.rows.gates[i].context);
        }
      }
      forall d | 0 <= d < |t.calls| ensures PcSafe(cat, t, t.calls[d]) && CallOk(cat, t.rows, t.calls[d]) {
        if d < |s.calls| {
          assert CallOk(cat, s.rows, s.calls[d]) && PcSafe(cat, s, s.calls[d]);
          PcSafeGrows(cat, s, t, s.calls[d]);
        }
      }
    }
  }

  // ---- results over every run ---------------------------------------------------

  ghost function Exec(cat: Catalog, s: State, acts: seq<Action>): (t: State)
    requires Inv(cat, s)
    ensures Inv(cat, t)
    decreases |acts|
  {
    if acts == [] then s
    else
      StepKeepsInv(cat, s, acts[0]);
      Exec(cat, Step(cat, s, acts[0]), acts[1..])
  }

  lemma ExecStep(cat: Catalog, s: State, a: Action, rest: seq<Action>)
    requires Inv(cat, s)
    ensures Inv(cat, Step(cat, s, a)) && Exec(cat, s, [a] + rest) == Exec(cat, Step(cat, s, a), rest)
  {
    StepKeepsInv(cat, s, a);
    assert ([a] + rest)[1..] == rest;
  }

  lemma InitSafe(cat: Catalog, s: State)
    requires Init(s)
    ensures Inv(cat, s)
  {
  }

  ghost function Run(cat: Catalog, s0: State, acts: seq<Action>): (s: State)
    requires Init(s0)
    ensures Inv(cat, s)
  {
    InitSafe(cat, s0);
    Exec(cat, s0, acts)
  }

  /**
   After any interleaving, a call's statement that closes a gate or writes the DROP
   status finds every catalog pair covered by the history; and whatever a gate
   stores is part of that history.
   */
  lemma ClosesOnlyWhenCovered(cat: Catalog, s0: State, acts: seq<Action>, c: nat, ch: Choice)
    requires Init(s0)
    ensures var s := Run(cat, s0, acts);
      var t := Step(cat, s, Advance(c, ch));
      && |s.rows.gates| <= |t.rows.gates|
      && ((exists i | 0 <= i < |s.rows.gates| :: t.rows.gates[i].status != s.rows.gates[i].status)
          ==> Covered(cat, s, None))
      && (t.rows.response != s.rows.response ==> Covered(cat, s, None))
      && forall i | 0 <= i < |s.rows.gates| :: s.rows.gates[i].context.Systems() <= s.decidedEver
  {
    var s := Run(cat, s0, acts);
    assert forall i | 0 <= i < |s.rows.gates| :: Known(cat, s, s.rows.gates[i].context);
    if c < |s.calls| {
      assert CallOk(cat, s.rows, s.calls[c]) && PcSafe(cat, s, s.calls[c]);
    }
  }

  lemma {:induction false} HistoryGrows(cat: Catalog, s: State, acts: seq<Action>)
    requires Inv(cat, s)
    ensures Grows(s, Exec(cat, s, acts))
    decreases |acts|
  {
    if acts != [] {
      StepKeepsInv(cat, s, acts[0]);
      StepGrows(cat, s, acts[0]);
      HistoryGrows(cat, Step(cat, s, acts[0]), acts[1..]);
    }
  }

  lemma StepGrows(cat: Catalog, s: State, a: Action)
    requires Inv(cat, s)
    ensures Grows(s, Step(cat, s, a))
  {
    if a.Advance? && a.c < |s.calls| {
      CallStepOk(cat, s, a.c, a.ch);
    }
  }

  /** Gate i is newly decided, or the DROP status newly set. */
  ghost predicate NewlyClosed(r: Rows, q: Rows, i: nat) {
    i < |q.gates| && !q.gates[i].status.Pending? && (i >= |r.gates| || r.gates[i].status != q.gates[i].status)
  }

  /** A decision elsewhere, or a rematch, decides the pending gate i. */
  predicate Hits(r: Rows, a: Action, i: nat) {
    && i < |r.gates| && r.gates[i].status.Pending?
    && ((a.OutsideDecision? && a.id == i) || (a.Rematch? && r.isDrop && r.response == Some(4)))
  }

  /** Triage, a synchronisation or a rematch changes the response. */
  predicate Sets(r: Rows, a: Action) {
    && r.isDrop
    && match a
       case TriageReject(status) => status in {2, 3, 4, 5} && r.response.None?
       case OutsideStatus(status) => r.response != Some(status)
       case Rematch => r.response == Some(4)
       case _ => false
  }

  /** Only these, before the catalog is covered: exactly a hit decides a gate, exactly a set changes the response. */
  lemma StepClosesExactly(cat: Catalog, s: State, a: Action, i: nat)
    requires Inv(cat, s) && !Covered(cat, s, None)
    ensures NewlyClosed(s.rows, Step(cat, s, a).rows, i) <==> Hits(s.rows, a, i)
    ensures Step(cat, s, a).rows.response != s.rows.response <==> Sets(s.rows, a)
  {
    if a.Advance? && a.c < |s.calls| {
      assert CallOk(cat, s.rows, s.calls[a.c]) && PcSafe(cat, s, s.calls[a.c]);
    }
  }

  /** Some action of the run hits gate i. */
  ghost predicate HitAlong(cat: Catalog, s: State, acts: seq<Action>, i: nat)
    requires Inv(cat, s)
    decreases |acts|
  {
    acts != [] &&
    (StepKeepsInv(cat, s, acts[0]);
     Hits(s.rows, acts[0], i) || HitAlong(cat, Step(cat, s, acts[0]), acts[1..], i))
  }

  /** The response is the same after every action of the run. */
  ghost predicate ResponseKept(cat: Catalog, s: State, acts: seq<Action>)
    requires Inv(cat, s)
    decreases |acts|
  {
    acts == [] ||
    (StepKeepsInv(cat, s, acts[0]);
     Step(cat, s, acts[0]).rows.response == s.rows.response && ResponseKept(cat, Step(cat, s, acts[0]), acts[1..]))
  }

  lemma UncoveredBefore(cat: Catalog, s: State, acts: seq<Action>)
    requires Inv(cat, s) && !Covered(cat, Exec(cat, s, acts), None)
    ensures !Covered(cat, s, None)
  {
    HistoryGrows(cat, s, acts);
    if Covered(cat, s, None) {
      CoveredGrows(cat, s, Exec(cat, s, acts), None);
    }
  }

  /** In every run that leaves the catalog uncovered, a gate is newly decided exactly when an action hits it. */
  lemma {:induction false} UncoveredGateExactly(cat: Catalog, s: State, acts: seq<Action>, i: nat)
    requires Inv(cat, s) && !Covered(cat, Exec(cat, s, acts), None)
    ensures NewlyClosed(s.rows, Exec(cat, s, acts).rows, i) <==> HitAlong(cat, s, acts, i)
    decreases |acts|
  {
    if acts != [] {
      var u := Step(cat, s, acts[0]);
      StepKeepsInv(cat, s, acts[0]);
      UncoveredBefore(cat, s, acts);
      StepClosesExactly(cat, s, acts[0], i);
      UncoveredGateExactly(cat, u, acts[1..], i);
      StepSettles(cat, s, acts[0]);
      VerdictsAreFinal(cat, u, acts[1..]);
    }
  }

  /** And the response stays as it is, at every moment, exactly when none of the actions sets it. */
  lemma {:induction false} UncoveredResponseExactly(cat: Catalog, s: State, acts: seq<Action>)
    requires Inv(cat, s) && !Covered(cat, Exec(cat, s, acts), None)
    ensures ResponseKept(cat, s, acts) <==> forall k | 0 <= k < |acts| :: !Sets(s.rows, acts[k])
    ensures ResponseKept(cat, s, acts) ==> Exec(cat, s, acts).rows.response == s.rows.response
    decreases |acts|
  {
    if acts != [] {
      var u := Step(cat, s, acts[0]);
      StepKeepsInv(cat, s, acts[0]);
      UncoveredBefore(cat, s, acts);
      StepClosesExactly(cat, s, acts[0], 0);
      StepSettles(cat, s, acts[0]);
      UncoveredResponseExactly(cat, u, acts[1..]);
      if u.rows.response == s.rows.response {
        forall k | 0 <= k < |acts[1..]| ensures Sets(u.rows, acts[1..][k]) <==> Sets(s.rows, acts[k + 1]) {
        }
        assert acts == [acts[0]] + acts[1..];
      }
    }
  }

  /**
   Over every run of any number of overlapping calls: a gate decided without being hit from
   outside, and a DROP status changed though no action sets it, mean that every catalog pair
   has been covered.
   */
  lemma ClosedRunsAreCovered(cat: Catalog, s: State, acts: seq<Action>, i: nat)
    requires Inv(cat, s)
    ensures var t := Exec(cat, s, acts);
      && (NewlyClosed(s.rows, t.rows, i) && !HitAlong(cat, s, acts, i) ==> Covered(cat, t, None))
      && (t.rows.response != s.rows.response && (forall k | 0 <= k < |acts| :: !Sets(s.rows, acts[k]))
          ==> Covered(cat, t, None))
  {
    if !Covered(cat, Exec(cat, s, acts), None) {
      UncoveredGateExactly(cat, s, acts, i);
      UncoveredResponseExactly(cat, s, acts);
    }
  }

  /** Pairs and verticals named by the calls and by outside dispositions of a run. */
  ghost predicate Asked(acts: seq<Action>, p: Pair) {
    exists k | 0 <= k < |acts| :: acts[k].Begin? && acts[k].req.pair == p
  }

  ghost predicate FromCalls(s: State, acts: seq<Action>) {
    && (forall p | p in s.decidedEver :: Asked(acts, p))
    && (forall c | 0 <= c < |s.calls| :: Asked(acts, s.calls[c].req.pair))
  }

  lemma {:induction false} DecisionsWereAsked(cat: Catalog, s: State, before: seq<Action>, acts: seq<Action>)
    requires Inv(cat, s) && FromCalls(s, before)
    ensures FromCalls(Exec(cat, s, acts), before + acts)
    decreases |acts|
  {
    if acts == [] {
      assert before + acts == before;
    } else {
      StepKeepsInv(cat, s, acts[0]);
      var t := Step(cat, s, acts[0]);
      var longer := before + [acts[0]];
      assert forall p | Asked(before, p) :: Asked(longer, p) by {
        forall p | Asked(before, p) ensures Asked(longer, p) {
          var k :| 0 <= k < |before| && before[k].Begin? && before[k].req.pair == p;
          assert longer[k] == before[k];
        }
      }
      assert longer[|before|] == acts[0];
      assert FromCalls(t, longer);
      DecisionsWereAsked(cat, t, longer, acts[1..]);
      assert longer + acts[1..] == before + acts;
    }
  }

  /** No gate disappears and a decided one keeps its verdict. */
  ghost predicate Settles(r: Rows, q: Rows) {
    && |r.gates| <= |q.gates|
    && (forall i | 0 <= i < |r.gates| && !r.gates[i].status.Pending? :: q.gates[i].status == r.gates[i].status)
    && r.isDrop == q.isDrop
  }

  /** The two outside statements that change a DROP response already set. */
  predicate Rewrites(a: Action, response: int) {
    || (a.OutsideStatus? && a.status != response)
    || (a.Rematch? && response == 4)
  }

  lemma StepSettles(cat: Catalog, s: State, a: Action)
    requires Inv(cat, s)
    ensures Settles(s.rows, Step(cat, s, a).rows)
  {
    if a.Advance? && a.c < |s.calls| {
      assert CallOk(cat, s.rows, s.calls[a.c]);
    }
  }

  /**
   A DROP response that is set changes in exactly two cases: another module synchronises
   it to a different status, or a rematch clears an opted-out one.
   */
  lemma ResponseChangesExactly(cat: Catalog, s: State, a: Action)
    requires Inv(cat, s) && s.rows.response.Some?
    ensures Step(cat, s, a).rows.response != s.rows.response <==> s.rows.isDrop && Rewrites(a, s.rows.response.value)
  {
    if a.Advance? && a.c < |s.calls| {
      assert CallOk(cat, s.rows, s.calls[a.c]);
    }
  }

  /** Over every run, whatever the actions, a decided gate keeps its verdict. */
  lemma {:induction false} VerdictsAreFinal(cat: Catalog, s: State, acts: seq<Action>)
    requires Inv(cat, s)
    ensures Settles(s.rows, Exec(cat, s, acts).rows)
    decreases |acts|
  {
    if acts != [] {
      StepKeepsInv(cat, s, acts[0]);
      StepSettles(cat, s, acts[0]);
      VerdictsAreFinal(cat, Step(cat, s, acts[0]), acts[1..]);
    }
  }

  /** Over every run a response that is set stays exactly when none of the actions rewrites it. */
  lemma {:induction false} ResponseIsFinalExactly(cat: Catalog, s: State, acts: seq<Action>)
    requires Inv(cat, s) && s.rows.response.Some?
    ensures ResponseKept(cat, s, acts) <==>
      !s.rows.isDrop || forall k | 0 <= k < |acts| :: !Rewrites(acts[k], s.rows.response.value)
    ensures ResponseKept(cat, s, acts) ==> Exec(cat, s, acts).rows.response == s.rows.response
    decreases |acts|
  {
    if acts != [] {
      var t := Step(cat, s, acts[0]);
      StepKeepsInv(cat, s, acts[0]);
      StepSettles(cat, s, acts[0]);
      ResponseChangesExactly(cat, s, acts[0]);
      if t.rows.response == s.rows.response {
        ResponseIsFinalExactly(cat, t, acts[1..]);
        assert acts == [acts[0]] + acts[1..];
      }
    }
  }

  /** A Data edit elsewhere: the disposition, then the response. */
  function DataEdit(status: int): seq<Action> {
    [OutsideDisposition(VERTICAL_DATA, status), OutsideStatus(status)]
  }

  lemma DataEditWrites(cat: Catalog, s: State, status: int)
    requires Inv(cat, s) && s.rows.isDrop
    ensures Exec(cat, s, DataEdit(status)).rows.response == Some(status)
    ensures Exec(cat, s, DataEdit(status)).decidedEver == s.decidedEver
    ensures Exec(cat, s, DataEdit(status)).disposedEver == s.disposedEver + {VERTICAL_DATA}
  {
    var edit, sync := OutsideDisposition(VERTICAL_DATA, status), OutsideStatus(status);
    ExecStep(cat, s, edit, [sync]);
    assert [edit] + [sync] == DataEdit(status);
    ExecStep(cat, Step(cat, s, edit), sync, []);
    assert [sync] + [] == [sync];
  }

  /** Such an edit overwrites a response that was set: 3 becomes 4. */
  lemma DataEditOverwrites(cat: Catalog, s: State)
    requires Init(s) && s.rows.isDrop && s.rows.response == Some(3)
    ensures Run(cat, s, DataEdit(4)).rows.response == Some(4)
  {
    InitSafe(cat, s);
    DataEditWrites(cat, s, 4);
  }

  /** And it sets a null response although no pair has been reviewed. */
  lemma DataEditAloneSetsResponse(cat: Catalog, s: State, p: Pair)
    requires Init(s) && s.rows.isDrop && s.rows.response.None? && s.rows.dispositions == map[]
    requires p in Listing(cat, None) && p.vertical != VERTICAL_DATA
    ensures var t := Run(cat, s, DataEdit(3)); t.rows.response == Some(3) && !Covered(cat, t, None)
  {
    InitSafe(cat, s);
    DataEditWrites(cat, s, 3);
  }
}
