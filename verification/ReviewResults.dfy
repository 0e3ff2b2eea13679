/**
What sequences of undisturbed calls leave behind on one pending gate: exactly the
keys of the calls, in any order; a shrinking set of open pairs; and a close on the
call that empties it.
*/
module ReviewResults {
  import opened Common
  import opened MatchingRows
  import opened GateProtocol
  import opened ReviewFlow

  datatype Turn = Turn(req: Review, ch: Choice)

  function Keys(turns: seq<Turn>, verdict: Verdict): set<Pair> {
    set t | t in turns && t.req.Verdict() == verdict :: t.req.pair
  }

  /** The key a call with this verdict adds. */
  function OwnKey(req: Review, verdict: Verdict): set<Pair> {
    if req.Verdict() == verdict then {req.pair} else {}
  }

  /** Gate id is the request's only pending gate. */
  ghost predicate OnlyPending(r: Rows, id: nat) {
    && id < |r.gates| && r.gates[id].status.Pending?
    && forall i | 0 <= i < |r.gates| && r.gates[i].status.Pending? :: i == id
  }

  /** The catalog pairs still open on this gate. */
  function Open(cat: Catalog, r: Rows, id: nat): set<Pair>
    requires id < |r.gates|
  {
    Undecided(cat, r.dispositions.Keys, r.gates[id].context, None)
  }

  /** The call's disposition upsert raises after its decision is recorded. */
  predicate StopsAtUpsert(cat: Catalog, req: Review, ch: Choice) {
    req.Promote? && req.Records(cat) && UpsertRaises(req, ch)
  }

  lemma PendingIsLatest(r: Rows, id: nat)
    requires OnlyPending(r, id)
    ensures LatestPending(r) == Some(id)
  {
  }

  // ---- one call -----------------------------------------------------------------

  /** The rows just before the catalog check of a call that gets there. */
  function Prepared(cat: Catalog, r: Rows, id: nat, req: Review): Rows
    requires id < |r.gates|
  {
    var r2 := Recorded(r, id, req);
    if req.Decline? then VerticalNoted(cat, r2, id, req.pair.vertical)
    else if req.Records(cat) then WithDisposition(r2, cat.Stored(req.pair.vertical), req.status.value)
    else r2
  }

  lemma CallInParts(cat: Catalog, r: Rows, id: nat, req: Review, ch: Choice)
    requires OnlyPending(r, id)
    ensures !StopsAtUpsert(cat, req, ch) ==>
      Reviewed(cat, r, req, ch) == Concluded(cat, Prepared(cat, r, id, req), Some(id), req, ch)
    ensures StopsAtUpsert(cat, req, ch) ==> Reviewed(cat, r, req, ch) == (Recorded(r, id, req), Raised)
  {
    PendingIsLatest(r, id);
    assert Ensured(r, ch) == r;
  }

  lemma PreparedGate(cat: Catalog, r: Rows, id: nat, req: Review)
    requires OnlyPending(r, id)
    ensures var q := Prepared(cat, r, id, req);
      && OnlyPending(q, id) && |q.gates| == |r.gates|
      && (forall i | 0 <= i < |r.gates| && i != id :: q.gates[i] == r.gates[i])
      && q.gates[id].context.confirmed == r.gates[id].context.confirmed + OwnKey(req, Approve)
      && q.gates[id].context.declined == r.gates[id].context.declined + OwnKey(req, Reject)
      && r.gates[id].context.declinedVerticals <= q.gates[id].context.declinedVerticals
      && r.dispositions.Keys <= q.dispositions.Keys
  {
    assert OnlyPending(Recorded(r, id, req), id);
  }

  lemma ConcludedGate(cat: Catalog, r: Rows, id: nat, req: Review, ch: Choice)
    requires OnlyPending(r, id)
    ensures var (q, outcome) := Concluded(cat, r, Some(id), req, ch);
      && |q.gates| == |r.gates| && q.dispositions == r.dispositions
      && (forall i | 0 <= i < |r.gates| && i != id :: q.gates[i] == r.gates[i])
      && q.gates[id].context == r.gates[id].context
      && (if Open(cat, r, id) == {}
          then q.gates[id].status == Decided(req.Verdict()) && outcome == Closed(req.Verdict())
          else q.gates[id].status.Pending? && outcome == StillPending)
  {
    PendingIsLatest(r, id);
  }

  lemma OpenShrinks(cat: Catalog, r: Rows, q: Rows, id: nat)
    requires id < |r.gates| == |q.gates|
    requires r.dispositions.Keys <= q.dispositions.Keys
    requires r.gates[id].context.Systems() <= q.gates[id].context.Systems()
    requires r.gates[id].context.declinedVerticals <= q.gates[id].context.declinedVerticals
    ensures Open(cat, q, id) <= Open(cat, r, id)
  {
  }

  /** Everything one call does to the request's only pending gate. */
  lemma OneCall(cat: Catalog, r: Rows, id: nat, req: Review, ch: Choice)
    requires OnlyPending(r, id)
    ensures var (q, outcome) := Reviewed(cat, r, req, ch);
      && |q.gates| == |r.gates|
      && (forall i | 0 <= i < |r.gates| && i != id :: q.gates[i] == r.gates[i])
      && q.gates[id].context.confirmed
           == r.gates[id].context.confirmed + (if req.Promote? then {req.pair} else {})
      && q.gates[id].context.declined
           == r.gates[id].context.declined + (if req.Promote? then {} else {req.pair})
      && Open(cat, q, id) <= Open(cat, r, id) - {req.pair}
      && (if Open(cat, q, id) == {} && !StopsAtUpsert(cat, req, ch)
          then q.gates[id].status == Decided(req.Verdict()) && outcome == Closed(req.Verdict())
          else q.gates[id].status.Pending? && !outcome.Closed?)
  {
    CallInParts(cat, r, id, req, ch);
    if StopsAtUpsert(cat, req, ch) {
      OpenShrinks(cat, r, Recorded(r, id, req), id);
    } else {
      var q := Prepared(cat, r, id, req);
      PreparedGate(cat, r, id, req);
      ConcludedGate(cat, q, id, req, ch);
      OpenShrinks(cat, r, q, id);
    }
  }

  // ---- what the call leaves beside the gate -----------------------------------------

  /**
   A promote stores its status for its vertical exactly when the vertical is live and not
   locked, and the status is a deletion or opt-out with a selection, or not found without
   one; no other call touches a disposition.
   */
  lemma DispositionsAfter(cat: Catalog, r: Rows, req: Review, ch: Choice)
    requires Valid(cat, req)
    ensures
      var q := Reviewed(cat, r, req, ch).0;
      var v := if req.pair.vertical in cat.storedAs then cat.storedAs[req.pair.vertical] else req.pair.vertical;
      var records := req.Promote? && v in cat.live && !ch.locked
        && ((req.selection && req.status in {Some(3), Some(4)}) || (!req.selection && req.status == Some(5)));
      q.dispositions == if records then r.dispositions[v := req.status.value] else r.dispositions
  {
    var r1 := Ensured(r, ch);
    var id := LatestPending(r1);
    var r2 := if id.Some? then Recorded(r1, id.value, req) else r1;
    assert r2.dispositions == r.dispositions;
    ConcludedDispositions(cat, r2, id, req, ch);
    if req.Decline? {
      if id.Some? {
        var r3 := VerticalNoted(cat, r2, id.value, req.pair.vertical);
        ConcludedDispositions(cat, r3, id, req, ch);
      }
    } else if req.status.Some? {
      var stored := WithDisposition(r2, cat.Stored(req.pair.vertical), req.status.value);
      ConcludedDispositions(cat, stored, id, req, ch);
    }
  }

  lemma ConcludedDispositions(cat: Catalog, r: Rows, id: Option<nat>, req: Review, ch: Choice)
    requires id.Some? ==> id.value < |r.gates|
    ensures Concluded(cat, r, id, req, ch).0.dispositions == r.dispositions
  {
  }

  /** The Data disposition a request has afterwards. */
  function DataStatus(cat: Catalog, r: Rows): Option<int> {
    var v := if "data" in cat.storedAs then cat.storedAs["data"] else "data";
    if v in r.dispositions then Some(r.dispositions[v]) else None
  }

  /** What the end of a call does to the response; silent about a call that raises. */
  ghost predicate Mirrored(cat: Catalog, r: Rows, q: Rows, outcome: Outcome) {
    && (outcome.Closed? || outcome.AlreadyApproved? ==>
        if r.isDrop && r.response.None? then
          forall n :: q.response == Some(n) <==> 3 <= n <= 5 && DataStatus(cat, q) == Some(n)
        else q.response == r.response)
    && (outcome.StillPending? ==> q.response == r.response)
  }

  /**
   The call that closes a gate of a DROP request with a null response, be it a promote or a
   decline of any pair, sets the response to n exactly when n is 3, 4 or 5 and is the Data
   disposition stored then; so does a promote that finds everything approved. A call that
   leaves its gate open leaves the response alone, and so does every such call on a request
   that is not DROP or has a response.
   */
  lemma CallMirrorsData(cat: Catalog, r: Rows, req: Review, ch: Choice)
    requires Valid(cat, req)
    ensures Mirrored(cat, r, Reviewed(cat, r, req, ch).0, Reviewed(cat, r, req, ch).1)
  {
    var r1 := Ensured(r, ch);
    var id := LatestPending(r1);
    var r2 := if id.Some? then Recorded(r1, id.value, req) else r1;
    if req.Decline? {
      if id.Some? {
        ConcludedMirrors(cat, VerticalNoted(cat, r2, id.value, req.pair.vertical), id, req, ch);
      }
    } else if !req.Records(cat) {
      ConcludedMirrors(cat, r2, id, req, ch);
    } else {
      ConcludedMirrors(cat, WithDisposition(r2, cat.Stored(req.pair.vertical), req.status.value), id, req, ch);
    }
  }

  lemma ConcludedMirrors(cat: Catalog, r: Rows, id: Option<nat>, req: Review, ch: Choice)
    requires Valid(cat, req) && (id.Some? ==> id.value < |r.gates|)
    requires req.Promote? && req.Records(cat) ==> cat.Stored(req.pair.vertical) in r.dispositions
    requires req.Promote? && req.Records(cat) ==> r.dispositions[cat.Stored(req.pair.vertical)] == req.status.value
    ensures Mirrored(cat, r, Concluded(cat, r, id, req, ch).0, Concluded(cat, r, id, req, ch).1)
  {
    ConcludedDispositions(cat, r, id, req, ch);
    assert MirroredStatus(cat, r, req).Some? ==> DataStatus(cat, r) == MirroredStatus(cat, r, req);
  }

  /** The pair needs no further call: it has its own decision, or its vertical has no other pair and is settled. */
  ghost predicate Done(cat: Catalog, r: Rows, id: nat, p: Pair)
    requires id < |r.gates|
  {
    var ctx := r.gates[id].context;
    || p in ctx.confirmed || p in ctx.declined
    || ((forall o | o in cat.bindings && o.vertical == p.vertical :: o == p)
        && (p.vertical in r.dispositions || p.vertical in ctx.declinedVerticals))
  }

  /** No binding outside the test vertical needs a further call. */
  ghost predicate AllDone(cat: Catalog, r: Rows, id: nat)
    requires id < |r.gates|
  {
    forall p | p in cat.bindings && p.vertical != "test" :: Done(cat, r, id, p)
  }

  /** The promote gets to its disposition and the upsert refuses it: locked, or not found with a selection. */
  predicate Refused(cat: Catalog, req: Review, ch: Choice) {
    && req.Promote? && req.status.Some?
    && (if req.pair.vertical in cat.storedAs then cat.storedAs[req.pair.vertical] else req.pair.vertical) in cat.live
    && (if req.status == Some(5) then ch.locked || req.selection else ch.locked && req.selection)
  }

  /**
   A call on the only pending gate raises exactly when its disposition is refused, closes the gate
   exactly when, after it, every binding outside the test vertical is done, and else leaves it open.
   */
  lemma OutcomeExactly(cat: Catalog, r: Rows, id: nat, req: Review, ch: Choice)
    requires OnlyPending(r, id)
    ensures
      var (q, outcome) := Reviewed(cat, r, req, ch);
      && |q.gates| == |r.gates|
      && outcome == (
        if Refused(cat, req, ch) then Raised
        else if AllDone(cat, q, id) then Closed(if req.Promote? then Approve else Reject)
        else StillPending)
  {
    var (q, outcome) := Reviewed(cat, r, req, ch);
    OneCall(cat, r, id, req, ch);
    OpenIsNotDone(cat, q, id);
    CallInParts(cat, r, id, req, ch);
    if !StopsAtUpsert(cat, req, ch) {
      PreparedGate(cat, r, id, req);
      ConcludedGate(cat, Prepared(cat, r, id, req), id, req, ch);
    }
  }

  /** A decline notes its vertical exactly when it leaves no pair of it to be done; a promote never does. */
  lemma VerticalNotedExactly(cat: Catalog, r: Rows, id: nat, req: Review, ch: Choice)
    requires OnlyPending(r, id)
    ensures
      var q := Reviewed(cat, r, req, ch).0;
      var v := req.pair.vertical;
      && |q.gates| == |r.gates|
      && var noted := r.gates[id].context.declinedVerticals;
         q.gates[id].context.declinedVerticals ==
           if req.Decline? && forall p | p in cat.bindings && p.vertical == v :: Done(cat, Recorded(r, id, req), id, p)
           then noted + {v} else noted
  {
    OneCall(cat, r, id, req, ch);
    CallInParts(cat, r, id, req, ch);
    if !StopsAtUpsert(cat, req, ch) {
      var q := Prepared(cat, r, id, req);
      PreparedGate(cat, r, id, req);
      ConcludedGate(cat, q, id, req, ch);
      var r2 := Recorded(r, id, req);
      PendingIsLatest(r2, id);
      ScopeOpenOrDone(cat, r2, id, req.pair.vertical);
    }
  }

  lemma ScopeOpenOrDone(cat: Catalog, r: Rows, id: nat, v: Vertical)
    requires id < |r.gates|
    ensures Undecided(cat, r.dispositions.Keys, r.gates[id].context, Some(v)) == {} <==>
      forall p | p in cat.bindings && p.vertical == v :: Done(cat, r, id, p)
  {
    var open := Undecided(cat, r.dispositions.Keys, r.gates[id].context, Some(v));
    forall p | p in cat.bindings && p.vertical == v ensures p in open <==> !Done(cat, r, id, p) {
      SoleBinding(cat, p);
    }
    assert forall p | p in open :: p in cat.bindings && p.vertical == v;
  }

  ghost predicate NonePending(r: Rows) {
    forall i | 0 <= i < |r.gates| :: !r.gates[i].status.Pending?
  }

  /** Nothing needs a decision: each binding outside test is its vertical's only one and that has a disposition. */
  ghost predicate AllDisposed(cat: Catalog, r: Rows) {
    forall p | p in cat.bindings && p.vertical != "test" :: Disposed(cat, r, p)
  }

  ghost predicate Disposed(cat: Catalog, r: Rows, p: Pair) {
    p.vertical in r.dispositions && forall o | o in cat.bindings && o.vertical == p.vertical :: o == p
  }

  /**
   Without a pending gate a call opens one exactly when no approval stands and the rule is
   configured, and goes on as on a request that had it. Otherwise a decline raises, and a promote
   records its disposition and leaves every gate alone.
   */
  lemma GateOpensExactly(cat: Catalog, r: Rows, req: Review, ch: Choice)
    requires NonePending(r)
    ensures var (q, outcome) := Reviewed(cat, r, req, ch);
      if !ch.approved && ch.ruleConfigured
      then (q, outcome) == Reviewed(cat, r.(gates := r.gates + [Gate(Pending, Context({}, {}, {}))]), req, ch)
      else
        && q.gates == r.gates
        && outcome == (
          if req.Decline? || Refused(cat, req, ch) || !ch.approved then Raised
          else if AllDisposed(cat, q) then AlreadyApproved else StillPending)
  {
    if !ch.approved && ch.ruleConfigured {
      assert WithNewGate(r).gates[|r.gates|].status.Pending?;
    } else if req.Promote? && !StopsAtUpsert(cat, req, ch) {
      var q := if req.Records(cat)
               then WithDisposition(r, cat.Stored(req.pair.vertical), req.status.value) else r;
      NothingRemains(cat, q);
      NothingRemains(cat, Concluded(cat, q, None, req, ch).0);
      ConcludedDispositions(cat, q, None, req, ch);
    }
  }

  lemma NothingRemains(cat: Catalog, r: Rows)
    requires NonePending(r)
    ensures Remaining(cat, r, None) == {} <==> AllDisposed(cat, r)
  {
    forall p | p in cat.bindings && p.vertical != "test"
      ensures p in Remaining(cat, r, None) <==> !Disposed(cat, r, p) {
      SoleBinding(cat, p);
    }
    assert forall p | p in Remaining(cat, r, None) :: p in cat.bindings && p.vertical != "test";
  }

  lemma OpenIsNotDone(cat: Catalog, q: Rows, id: nat)
    requires id < |q.gates|
    ensures Open(cat, q, id) == {} <==> AllDone(cat, q, id)
  {
    forall p | p in cat.bindings && p.vertical != "test" ensures p in Open(cat, q, id) <==> !Done(cat, q, id, p) {
      PairOpenOrDone(cat, q, id, p);
    }
    assert forall p | p in Open(cat, q, id) :: p in cat.bindings && p.vertical != "test";
  }

  lemma PairOpenOrDone(cat: Catalog, q: Rows, id: nat, p: Pair)
    requires id < |q.gates| && p in cat.bindings && p.vertical != "test"
    ensures p in Open(cat, q, id) <==> !Done(cat, q, id, p)
  {
    SoleBinding(cat, p);
  }

  lemma SoleBinding(cat: Catalog, p: Pair)
    requires p in cat.bindings
    ensures OnlySystem(cat, p.vertical) <==> forall o | o in cat.bindings && o.vertical == p.vertical :: o == p
  {
    var all := Listing(cat, Some(p.vertical));
    assert p in all;
    var rest := all - {p};
    assert |all| == |rest| + 1;
    if OnlySystem(cat, p.vertical) {
      assert rest == {};
      forall o | o in cat.bindings && o.vertical == p.vertical ensures o == p {
        assert o in all && o !in rest;
      }
    }
    if forall o | o in cat.bindings && o.vertical == p.vertical :: o == p {
      assert all == {p};
    }
  }

  // ---- a sequence of calls --------------------------------------------------------

  lemma KeysSnoc(turns: seq<Turn>, t: Turn, verdict: Verdict)
    ensures Keys(turns + [t], verdict) == Keys(turns, verdict) + OwnKey(t.req, verdict)
  {
    assert t in turns + [t];
  }

  /** The rows before the first call and after each one. */
  ghost predicate Trace(cat: Catalog, states: seq<Rows>, turns: seq<Turn>) {
    |states| == |turns| + 1 && forall k | 0 <= k < |turns| :: Answers(cat, states, turns, k)
  }

  ghost predicate Answers(cat: Catalog, states: seq<Rows>, turns: seq<Turn>, k: nat)
    requires k < |turns| < |states|
  {
    states[k + 1] == Reviewed(cat, states[k], turns[k].req, turns[k].ch).0
  }

  /** The gate holds exactly these keys besides those it had. */
  ghost predicate HoldsKeys(r: Rows, q: Rows, id: nat, turns: seq<Turn>) {
    && id < |r.gates| == |q.gates|
    && q.gates[id].context.confirmed == r.gates[id].context.confirmed + Keys(turns, Approve)
    && q.gates[id].context.declined == r.gates[id].context.declined + Keys(turns, Reject)
  }

  lemma HoldsOneMore(r: Rows, before: Rows, after: Rows, id: nat, turns: seq<Turn>, t: Turn)
    requires HoldsKeys(r, before, id, turns) && |after.gates| == |before.gates|
    requires after.gates[id].context.confirmed == before.gates[id].context.confirmed + OwnKey(t.req, Approve)
    requires after.gates[id].context.declined == before.gates[id].context.declined + OwnKey(t.req, Reject)
    ensures HoldsKeys(r, after, id, turns + [t])
  {
    KeysSnoc(turns, t, Approve);
    KeysSnoc(turns, t, Reject);
  }

  /** While the gate is pending it holds exactly the keys of the calls so far. */
  lemma {:induction false} StoredKeys(cat: Catalog, states: seq<Rows>, turns: seq<Turn>, id: nat, n: nat)
    requires Trace(cat, states, turns) && n <= |turns|
    requires id < |states[0].gates| && forall k | 0 <= k < n :: OnlyPending(states[k], id)
    ensures HoldsKeys(states[0], states[n], id, turns[..n])
  {
    if n == 0 {
      assert Keys(turns[..0], Approve) == Keys(turns[..0], Reject) == {};
    } else {
      StoredKeys(cat, states, turns, id, n - 1);
      assert Answers(cat, states, turns, n - 1);
      OneCall(cat, states[n - 1], id, turns[n - 1].req, turns[n - 1].ch);
      assert turns[..n] == turns[..n - 1] + [turns[n - 1]];
      HoldsOneMore(states[0], states[n - 1], states[n], id, turns[..n - 1], turns[n - 1]);
    }
  }

  /** Call k found the gate pending, left every pair done, was not refused, and gave the gate its verdict. */
  ghost predicate ClosedBy(cat: Catalog, states: seq<Rows>, turns: seq<Turn>, id: nat, k: nat)
    requires k < |turns| < |states|
  {
    && OnlyPending(states[k], id) && id < |states[k + 1].gates|
    && AllDone(cat, states[k + 1], id) && !Refused(cat, turns[k].req, turns[k].ch)
    && states[k + 1].gates[id].status == Decided(turns[k].req.Verdict())
  }

  /** Call k left a pair to be done, or had its disposition refused. */
  ghost predicate LeavesOpen(cat: Catalog, states: seq<Rows>, turns: seq<Turn>, id: nat, k: nat)
    requires k < |turns| < |states|
  {
    id < |states[k + 1].gates| && (!AllDone(cat, states[k + 1], id) || Refused(cat, turns[k].req, turns[k].ch))
  }

  lemma StaysOrCloses(cat: Catalog, states: seq<Rows>, turns: seq<Turn>, id: nat, k: nat)
    requires Trace(cat, states, turns) && k < |turns| && OnlyPending(states[k], id)
    ensures OnlyPending(states[k + 1], id) || ClosedBy(cat, states, turns, id, k)
    ensures LeavesOpen(cat, states, turns, id, k) ==> OnlyPending(states[k + 1], id)
  {
    assert Answers(cat, states, turns, k);
    OneCall(cat, states[k], id, turns[k].req, turns[k].ch);
    OpenIsNotDone(cat, states[k + 1], id);
  }

  /** The gate stays pending exactly as long as no call leaves everything done; the call that does closes it. */
  lemma {:induction false} ClosesWhenEmptied(cat: Catalog, states: seq<Rows>, turns: seq<Turn>, id: nat, n: nat)
    requires Trace(cat, states, turns) && n <= |turns| && OnlyPending(states[0], id)
    ensures OnlyPending(states[n], id) || exists k | 0 <= k < n :: ClosedBy(cat, states, turns, id, k)
    ensures (forall k | 0 <= k < n :: LeavesOpen(cat, states, turns, id, k)) ==> OnlyPending(states[n], id)
  {
    if n > 0 {
      ClosesWhenEmptied(cat, states, turns, id, n - 1);
      if OnlyPending(states[n - 1], id) {
        StaysOrCloses(cat, states, turns, id, n - 1);
      }
    }
  }

  // ---- verticals --------------------------------------------------------------------

  /** Decided without relying on the vertical-level decline. */
  predicate OwnDecision(cat: Catalog, disposed: set<Vertical>, ctx: Context, p: Pair) {
    p in ctx.Systems() || (OnlySystem(cat, p.vertical) && p.vertical in disposed)
  }

  /** A declined vertical has no pair left, and not because it is declined. */
  ghost predicate Honest(cat: Catalog, disposed: set<Vertical>, ctx: Context) {
    forall v, p | v in ctx.declinedVerticals && p in Listing(cat, Some(v)) :: OwnDecision(cat, disposed, ctx, p)
  }

  ghost predicate HonestRows(cat: Catalog, r: Rows) {
    forall i | 0 <= i < |r.gates| :: Honest(cat, r.dispositions.Keys, r.gates[i].context)
  }

  /** Statements that only add decisions keep declined verticals honest. */
  lemma HonestGrows(cat: Catalog, seen: set<Vertical>, more: set<Vertical>, ctx: Context, bigger: Context)
    requires Honest(cat, seen, ctx) && seen <= more
    requires ctx.Systems() <= bigger.Systems() && bigger.declinedVerticals == ctx.declinedVerticals
    ensures Honest(cat, more, bigger)
  {
    forall v, p | v in bigger.declinedVerticals && p in Listing(cat, Some(v))
      ensures OwnDecision(cat, more, bigger, p) {
      assert OwnDecision(cat, seen, ctx, p);
    }
  }

  lemma HonestVertical(cat: Catalog, seen: set<Vertical>, ctx: Context, v: Vertical)
    requires Honest(cat, seen, ctx) && Undecided(cat, seen, ctx, Some(v)) == {}
    ensures Honest(cat, seen, ctx.(declinedVerticals := ctx.declinedVerticals + {v}))
  {
    var noted := ctx.(declinedVerticals := ctx.declinedVerticals + {v});
    forall w, p | w in noted.declinedVerticals && p in Listing(cat, Some(w)) ensures OwnDecision(cat, seen, noted, p) {
      assert p.vertical == w;
      assert p !in Undecided(cat, seen, ctx, Some(v));
      if p.vertical in ctx.declinedVerticals {
        assert p in Listing(cat, Some(p.vertical));
        assert OwnDecision(cat, seen, ctx, p);
      }
    }
  }

  lemma RecordedHonest(cat: Catalog, r: Rows, id: nat, req: Review)
    requires HonestRows(cat, r) && id < |r.gates|
    ensures HonestRows(cat, Recorded(r, id, req))
  {
    var q := Recorded(r, id, req);
    HonestGrows(cat, r.dispositions.Keys, r.dispositions.Keys, r.gates[id].context, q.gates[id].context);
  }

  lemma NotedHonest(cat: Catalog, r: Rows, id: nat, v: Vertical)
    requires HonestRows(cat, r) && LatestPending(r) == Some(id)
    ensures HonestRows(cat, VerticalNoted(cat, r, id, v))
  {
    if Remaining(cat, r, Some(v)) == {} {
      HonestVertical(cat, r.dispositions.Keys, r.gates[id].context, v);
    }
  }

  lemma DisposedHonest(cat: Catalog, r: Rows, v: Vertical, status: int)
    requires HonestRows(cat, r)
    ensures HonestRows(cat, WithDisposition(r, v, status))
  {
    var q := WithDisposition(r, v, status);
    forall i | 0 <= i < |r.gates| ensures Honest(cat, q.dispositions.Keys, q.gates[i].context) {
      HonestGrows(cat, r.dispositions.Keys, q.dispositions.Keys, r.gates[i].context, r.gates[i].context);
    }
  }

  lemma ConcludedHonest(cat: Catalog, r: Rows, id: Option<nat>, req: Review, ch: Choice)
    requires HonestRows(cat, r) && (id.Some? ==> id.value < |r.gates|)
    ensures HonestRows(cat, Concluded(cat, r, id, req, ch).0)
  {
    var q := Concluded(cat, r, id, req, ch).0;
    assert |q.gates| == |r.gates| && q.dispositions == r.dispositions;
    assert forall i | 0 <= i < |r.gates| :: q.gates[i].context == r.gates[i].context;
  }

  lemma ReviewedHonest(cat: Catalog, r: Rows, req: Review, ch: Choice)
    requires HonestRows(cat, r)
    ensures HonestRows(cat, Reviewed(cat, r, req, ch).0)
  {
    var r1 := Ensured(r, ch);
    assert HonestRows(cat, r1);
    var id := LatestPending(r1);
    if id.Some? {
      RecordedHonest(cat, r1, id.value, req);
    }
    var r2 := if id.Some? then Recorded(r1, id.value, req) else r1;
    if req.Promote? {
      if req.Records(cat) {
        DisposedHonest(cat, r2, cat.Stored(req.pair.vertical), req.status.value);
        ConcludedHonest(cat, WithDisposition(r2, cat.Stored(req.pair.vertical), req.status.value), id, req, ch);
      }
      ConcludedHonest(cat, r2, id, req, ch);
    } else if id.Some? {
      RecordedLatest(r1, id.value, req);
      NotedHonest(cat, r2, id.value, req.pair.vertical);
      ConcludedHonest(cat, VerticalNoted(cat, r2, id.value, req.pair.vertical), id, req, ch);
    }
  }

  lemma RecordedLatest(r: Rows, id: nat, req: Review)
    requires LatestPending(r) == Some(id)
    ensures LatestPending(Recorded(r, id, req)) == Some(id)
  {
    var q := Recorded(r, id, req);
    assert forall i | 0 <= i < |r.gates| :: q.gates[i].status == r.gates[i].status;
  }

  /**
   Over every sequential run, declined verticals name only verticals whose every
   pair has its own decision, and a pair of a vertical with several systems is
   closed only by its own decision.
   */
  lemma {:induction false} DeclinedVerticalsAreHonest(cat: Catalog, states: seq<Rows>, turns: seq<Turn>, n: nat)
    requires Trace(cat, states, turns) && n <= |turns| && HonestRows(cat, states[0])
    ensures var q := states[n];
      && HonestRows(cat, q)
      && forall i, p | 0 <= i < |q.gates| && p in Listing(cat, None) && !OnlySystem(cat, p.vertical) ::
           p in Open(cat, q, i) <==> p !in q.gates[i].context.Systems()
  {
    if n > 0 {
      DeclinedVerticalsAreHonest(cat, states, turns, n - 1);
      assert Answers(cat, states, turns, n - 1);
      ReviewedHonest(cat, states[n - 1], turns[n - 1].req, turns[n - 1].ch);
    }
  }
}
