/**
The rows behind one request's matching review, and the effect of each SQL
statement that promote and decline issue. Both the interleaved protocol and the
sequential operations are written with these functions.
*/
module MatchingRows {
  import opened Common

  type Vertical = string
  type System = string

  datatype Pair = Pair(vertical: Vertical, system: System)

  datatype Verdict = Approve | Reject

  datatype GateStatus = Pending | Decided(verdict: Verdict)

  /** context_jsonb of a gate; a missing or null context is the empty one. */
  datatype Context = Context(confirmed: set<Pair>, declined: set<Pair>, declinedVerticals: set<Vertical>) {
    function Systems(): set<Pair> {
      confirmed + declined
    }

    function With(p: Pair, verdict: Verdict): Context {
      if verdict.Approve? then this.(confirmed := confirmed + {p}) else this.(declined := declined + {p})
    }
  }

  const EMPTY := Context({}, {}, {})

  datatype Gate = Gate(status: GateStatus, context: Context)

  /** One request: its matching.review gates oldest first, dispositions, and DROP response status. */
  datatype Rows = Rows(gates: seq<Gate>, dispositions: map<Vertical, int>, isDrop: bool, response: Option<int>)

  /** Catalog bindings, the disposition key of a vertical (itself when absent), and the live keys. */
  datatype Catalog = Catalog(bindings: set<Pair>, storedAs: map<Vertical, Vertical>, live: set<Vertical>) {
    function Stored(v: Vertical): Vertical {
      if v in storedAs then storedAs[v] else v
    }

    predicate IsLive(v: Vertical) {
      Stored(v) in live
    }
  }

  const VERTICAL_DATA: Vertical := "data"
  const VERTICAL_TEST: Vertical := "test"

  /** The DROP codes a promote may set, and those legal triage may set. */
  const PROMOTE_CODES: set<int> := {3, 4, 5}
  const DROP_CODES: set<int> := {2, 3, 4, 5}
  const OPTED_OUT := 4

  // ---- the undecided catalog pairs ------------------------------------------

  /** Unscoped listings leave the test vertical out; a scoped one shows just that vertical. */
  function Listing(cat: Catalog, scope: Option<Vertical>): set<Pair> {
    match scope
    case None => set p | p in cat.bindings && p.vertical != VERTICAL_TEST
    case Some(v) => set p | p in cat.bindings && p.vertical == v
  }

  predicate OnlySystem(cat: Catalog, v: Vertical) {
    |Listing(cat, Some(v))| == 1
  }

  predicate IsDecided(cat: Catalog, disposed: set<Vertical>, ctx: Context, p: Pair) {
    || p in ctx.Systems()
    || (OnlySystem(cat, p.vertical) && (p.vertical in disposed || p.vertical in ctx.declinedVerticals))
  }

  function Undecided(cat: Catalog, disposed: set<Vertical>, ctx: Context, scope: Option<Vertical>): set<Pair> {
    set p | p in Listing(cat, scope) && !IsDecided(cat, disposed, ctx, p)
  }

  // ---- statements -------------------------------------------------------------

  /** The newest pending gate. */
  function LatestPending(r: Rows): (id: Option<nat>)
    ensures id.Some? ==> id.value < |r.gates| && r.gates[id.value].status.Pending?
    ensures id.Some? ==> forall i | id.value < i < |r.gates| :: !r.gates[i].status.Pending?
    ensures id.None? ==> forall i | 0 <= i < |r.gates| :: !r.gates[i].status.Pending?
  {
    LatestPendingBelow(r, |r.gates|)
  }

  function LatestPendingBelow(r: Rows, n: nat): (id: Option<nat>)
    requires n <= |r.gates|
    ensures id.Some? ==> id.value < n && r.gates[id.value].status.Pending?
    ensures id.Some? ==> forall i | id.value < i < n :: !r.gates[i].status.Pending?
    ensures id.None? ==> forall i | 0 <= i < n :: !r.gates[i].status.Pending?
  {
    if n == 0 then None
    else if r.gates[n - 1].status.Pending? then Some(n - 1)
    else LatestPendingBelow(r, n - 1)
  }

  /** The context the undecided check reads: that of the newest pending gate, if any. */
  function PendingContext(r: Rows): Context {
    var id := LatestPending(r);
    if id.Some? then r.gates[id.value].context else EMPTY
  }

  function WithNewGate(r: Rows): Rows {
    r.(gates := r.gates + [Gate(Pending, EMPTY)])
  }

  /** UPDATE ... SET context_jsonb WHERE id: not guarded by the status. */
  function WithContext(r: Rows, id: nat, ctx: Context): Rows
    requires id < |r.gates|
  {
    r.(gates := r.gates[id := r.gates[id].(context := ctx)])
  }

  /** UPDATE ... WHERE id AND status = 'pending'. */
  function WithDecision(r: Rows, id: nat, verdict: Verdict): Rows
    requires id < |r.gates|
  {
    if r.gates[id].status.Pending? then r.(gates := r.gates[id := r.gates[id].(status := Decided(verdict))]) else r
  }

  function WithDisposition(r: Rows, v: Vertical, status: int): Rows {
    r.(dispositions := r.dispositions[v := status])
  }

  /** UPDATE drop_raw_requests ... WHERE response_status IS NULL, DROP intake only. */
  function WithResponse(r: Rows, status: int): Rows {
    if r.isDrop && r.response.None? then r.(response := Some(status)) else r
  }

  /** UPDATE drop_raw_requests ... WHERE response_status IS DISTINCT FROM: overwrites, DROP intake only. */
  function WithSyncedResponse(r: Rows, status: int): Rows {
    if r.isDrop then r.(response := Some(status)) else r
  }

  /** The rematch statement: an opted-out DROP response is cleared and its pending gates are rejected. */
  function WithRematch(r: Rows): Rows {
    if r.isDrop && r.response == Some(OPTED_OUT) then
      r.(response := None, gates := seq(|r.gates|, i requires 0 <= i < |r.gates| =>
        if r.gates[i].status.Pending? then r.gates[i].(status := Decided(Reject)) else r.gates[i]))
    else r
  }

  // ---- what a request asks ------------------------------------------------------

  /** A validated promote or decline of one catalog pair. */
  datatype Review =
    | Promote(pair: Pair, status: Option<int>, selection: bool)
    | Decline(pair: Pair)
  {
    function Verdict(): Verdict {
      if Promote? then Approve else Reject
    }

    /** A promote that reaches the disposition upsert. */
    predicate Records(cat: Catalog) {
      && Promote? && status.Some? && cat.IsLive(pair.vertical)
      && (selection || status.value == 5)
    }
  }

  predicate Valid(cat: Catalog, req: Review) {
    && req.pair in cat.bindings
    && (req.Promote? && req.status.Some? ==> req.status.value in PROMOTE_CODES)
  }

  /**
   What a call cannot control: whether an approval already covers the latest match
   result, whether the review rule is configured, and whether the disposition is
   locked by a kickoff.
   */
  datatype Choice = Choice(approved: bool, ruleConfigured: bool, locked: bool)

  /** The upsert rejects a selection with status 5, and a change after kickoff. */
  predicate UpsertRaises(req: Review, ch: Choice)
    requires req.Promote? && req.status.Some?
  {
    ch.locked || (req.status.value == 5 && req.selection)
  }
}
