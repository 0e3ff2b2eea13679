/**
What one promote or decline does to a request's rows when nothing interferes, and
the proof that the interleaved protocol, run undisturbed, does exactly that.
*/
module ReviewFlow {
  import opened Common
  import opened MatchingRows
  import opened GateProtocol

  /** The rows a call leaves once its request has a pending gate, or none could be opened. */
  function Ensured(r: Rows, ch: Choice): Rows {
    if ch.approved || LatestPending(r).Some? || !ch.ruleConfigured then r else WithNewGate(r)
  }

  function Recorded(r: Rows, id: nat, req: Review): Rows
    requires id < |r.gates|
  {
    WithContext(r, id, r.gates[id].context.With(req.pair, req.Verdict()))
  }

  function Remaining(cat: Catalog, r: Rows, scope: Option<Vertical>): set<Pair> {
    Undecided(cat, r.dispositions.Keys, PendingContext(r), scope)
  }

  /** The vertical is added to declined_verticals once none of its pairs is left. */
  function VerticalNoted(cat: Catalog, r: Rows, id: nat, v: Vertical): Rows
    requires id < |r.gates|
  {
    if Remaining(cat, r, Some(v)) != {} then r
    else
      var ctx := r.gates[id].context;
      WithContext(r, id, ctx.(declinedVerticals := ctx.declinedVerticals + {v}))
  }

  /** The status a closing call mirrors: its own Data disposition, or the stored one. */
  function MirroredStatus(cat: Catalog, r: Rows, req: Review): Option<int> {
    if req.Promote? && req.Records(cat) && req.pair.vertical == VERTICAL_DATA then req.status
    else
      var v := cat.Stored(VERTICAL_DATA);
      if v in r.dispositions && r.dispositions[v] in PROMOTE_CODES then Some(r.dispositions[v]) else None
  }

  function Closing(cat: Catalog, r: Rows, id: Option<nat>, req: Review, ch: Choice): (Rows, Outcome)
    requires id.Some? ==> id.value < |r.gates|
  {
    var status := MirroredStatus(cat, r, req);
    var q := if status.Some? then WithResponse(r, status.value) else r;
    if id.None? then (q, if ch.approved then AlreadyApproved else Raised)
    else (WithDecision(q, id.value, req.Verdict()),
          if q.gates[id.value].status.Pending? then Closed(req.Verdict()) else Raised)
  }

  /** The call once its own decision and disposition are written. */
  function Concluded(cat: Catalog, r: Rows, id: Option<nat>, req: Review, ch: Choice): (Rows, Outcome)
    requires id.Some? ==> id.value < |r.gates|
  {
    if Remaining(cat, r, None) != {} then (r, if id.None? && !ch.approved then Raised else StillPending)
    else Closing(cat, r, id, req, ch)
  }

  /** One undisturbed call. */
  function Reviewed(cat: Catalog, r: Rows, req: Review, ch: Choice): (Rows, Outcome) {
    if req.Promote? then Promoted(cat, r, req, ch) else Declined(cat, r, req, ch)
  }

  function Promoted(cat: Catalog, r: Rows, req: Review, ch: Choice): (Rows, Outcome)
    requires req.Promote?
  {
    var r1 := Ensured(r, ch);
    var id := LatestPending(r1);
    var r2 := if id.Some? then Recorded(r1, id.value, req) else r1;
    if !req.Records(cat) then Concluded(cat, r2, id, req, ch)
    else if UpsertRaises(req, ch) then (r2, Raised)
    else Concluded(cat, WithDisposition(r2, cat.Stored(req.pair.vertical), req.status.value), id, req, ch)
  }

  function Declined(cat: Catalog, r: Rows, req: Review, ch: Choice): (Rows, Outcome)
    requires req.Decline?
  {
    var r1 := Ensured(r, ch);
    var id := LatestPending(r1);
    if id.None? then (r1, Raised)
    else
      var r2 := VerticalNoted(cat, Recorded(r1, id.value, req), id.value, req.pair.vertical);
      Concluded(cat, r2, id, req, ch)
  }

  // ---- the statements run in order give the same result -------------------------

  /** How many statements a call has left at most. */
  function Rank(pc: Pc): nat {
    match pc
    case Ensure => 13
    case InsertGate => 12
    case SelectGate => 11
    case ReadDecision(_) => 10
    case WriteDecision(_, _) => 9
    case Upsert(_) => 8
    case ReadVertical(_) => 8
    case CheckVertical(_, _) => 7
    case ReadDeclined(_) => 6
    case WriteDeclined(_, _) => 5
    case ReadDispositions(_, _) => 4
    case CheckCatalog(_, _, _) => 3
    case FetchDisposition(_) => 2
    case Mirror(_, _) => 1
    case Decide(_) => 0
    case Finished(_) => 0
  }

  /** A call's remaining statements with nothing in between. */
  ghost function Undisturbed(cat: Catalog, r: Rows, req: Review, pc: Pc, ch: Choice): (Rows, Outcome)
    requires CallOk(cat, r, Call(req, pc))
    decreases Rank(pc), if pc.Finished? then 0 else 1
  {
    if pc.Finished? then (r, pc.outcome)
    else
      StatementOk(cat, r, req, pc, ch);
      var (r', pc') := CallStep(cat, r, req, pc, ch);
      Undisturbed(cat, r', req, pc', ch)
  }

  lemma Next(cat: Catalog, r: Rows, req: Review, pc: Pc, ch: Choice)
    requires CallOk(cat, r, Call(req, pc))
    ensures var (r', pc') := CallStep(cat, r, req, pc, ch);
      CallOk(cat, r', Call(req, pc'))
      && Undisturbed(cat, r, req, pc, ch) == Undisturbed(cat, r', req, pc', ch)
  {
    StatementOk(cat, r, req, pc, ch);
  }

  lemma DecideAlone(cat: Catalog, r: Rows, req: Review, id: Option<nat>, ch: Choice)
    requires Valid(cat, req) && (id.Some? ==> id.value < |r.gates|)
    ensures Undisturbed(cat, r, req, Decide(id), ch) ==
      if id.None? then (r, if ch.approved then AlreadyApproved else Raised)
      else (WithDecision(r, id.value, req.Verdict()),
            if r.gates[id.value].status.Pending? then Closed(req.Verdict()) else Raised)
  {
    Next(cat, r, req, Decide(id), ch);
  }

  lemma MirrorAlone(cat: Catalog, r: Rows, req: Review, id: Option<nat>, status: Option<int>, ch: Choice)
    requires Valid(cat, req) && (id.Some? ==> id.value < |r.gates|)
    requires status == MirroredStatus(cat, r, req)
    ensures Undisturbed(cat, r, req, if status.Some? then Mirror(id, status.value) else Decide(id), ch)
         == Closing(cat, r, id, req, ch)
  {
    if status.Some? {
      Next(cat, r, req, Mirror(id, status.value), ch);
      DecideAlone(cat, WithResponse(r, status.value), req, id, ch);
    } else {
      DecideAlone(cat, r, req, id, ch);
    }
  }

  lemma CheckAlone(cat: Catalog, r: Rows, req: Review, id: Option<nat>, recorded: bool, ch: Choice)
    requires Valid(cat, req) && (id.Some? ==> id.value < |r.gates|)
    requires recorded == (req.Promote? && req.Records(cat))
    ensures Undisturbed(cat, r, req, ReadDispositions(id, recorded), ch) == Concluded(cat, r, id, req, ch)
  {
    var checking := CheckCatalog(id, recorded, r.dispositions.Keys);
    Next(cat, r, req, ReadDispositions(id, recorded), ch);
    Next(cat, r, req, checking, ch);
    assert Undisturbed(cat, r, req, ReadDispositions(id, recorded), ch) == Undisturbed(cat, r, req, checking, ch);
    if Remaining(cat, r, None) == {} {
      MirrorAlone(cat, r, req, id, MirroredStatus(cat, r, req), ch);
      if !recorded || req.pair.vertical != VERTICAL_DATA {
        Next(cat, r, req, FetchDisposition(id), ch);
      }
    }
  }

  lemma DeclineAlone(cat: Catalog, r: Rows, req: Review, id: nat, ch: Choice)
    requires Valid(cat, req) && req.Decline? && id < |r.gates|
    ensures Undisturbed(cat, r, req, ReadVertical(id), ch)
         == Concluded(cat, VerticalNoted(cat, r, id, req.pair.vertical), Some(id), req, ch)
  {
    Next(cat, r, req, ReadVertical(id), ch);
    Next(cat, r, req, CheckVertical(id, r.dispositions.Keys), ch);
    if Remaining(cat, r, Some(req.pair.vertical)) == {} {
      Next(cat, r, req, ReadDeclined(id), ch);
      Next(cat, r, req, WriteDeclined(id, r.gates[id].context), ch);
    }
    CheckAlone(cat, VerticalNoted(cat, r, id, req.pair.vertical), req, Some(id), false, ch);
  }

  lemma RecordAlone(cat: Catalog, r: Rows, req: Review, id: nat, ch: Choice)
    requires Valid(cat, req) && id < |r.gates|
    ensures Undisturbed(cat, r, req, ReadDecision(id), ch)
         == Undisturbed(cat, Recorded(r, id, req), req, AfterDecision(cat, req, id), ch)
  {
    Next(cat, r, req, ReadDecision(id), ch);
    Next(cat, r, req, WriteDecision(id, r.gates[id].context), ch);
  }

  lemma UpsertAlone(cat: Catalog, r: Rows, req: Review, id: Option<nat>, ch: Choice)
    requires Valid(cat, req) && req.Promote? && req.Records(cat) && (id.Some? ==> id.value < |r.gates|)
    ensures Undisturbed(cat, r, req, Upsert(id), ch) ==
      if UpsertRaises(req, ch) then (r, Raised)
      else Concluded(cat, WithDisposition(r, cat.Stored(req.pair.vertical), req.status.value), id, req, ch)
  {
    Next(cat, r, req, Upsert(id), ch);
    if !UpsertRaises(req, ch) {
      CheckAlone(cat, WithDisposition(r, cat.Stored(req.pair.vertical), req.status.value), req, id, true, ch);
    }
  }

  lemma GateFoundAlone(cat: Catalog, r: Rows, req: Review, id: nat, ch: Choice)
    requires Valid(cat, req) && LatestPending(r) == Some(id)
    ensures Undisturbed(cat, r, req, ReadDecision(id), ch) == Reviewed(cat, r, req, ch)
  {
    RecordAlone(cat, r, req, id, ch);
    var r2 := Recorded(r, id, req);
    if req.Decline? {
      DeclineAlone(cat, r2, req, id, ch);
    } else if req.Records(cat) {
      UpsertAlone(cat, r2, req, Some(id), ch);
    } else {
      CheckAlone(cat, r2, req, Some(id), false, ch);
    }
  }

  lemma SelectAlone(cat: Catalog, r: Rows, req: Review, ch: Choice)
    requires Valid(cat, req) && Ensured(r, ch) == r
    ensures Undisturbed(cat, r, req, SelectGate, ch) == Reviewed(cat, r, req, ch)
  {
    Next(cat, r, req, SelectGate, ch);
    match LatestPending(r)
    case Some(id) => GateFoundAlone(cat, r, req, id, ch);
    case None =>
      if req.Decline? {
      } else if req.Records(cat) {
        UpsertAlone(cat, r, req, None, ch);
      } else {
        CheckAlone(cat, r, req, None, false, ch);
      }
  }

  /** The protocol, run without interference, is the sequential call. */
  lemma StatementsComposeToCall(cat: Catalog, r: Rows, req: Review, ch: Choice)
    requires Valid(cat, req)
    ensures Undisturbed(cat, r, req, Ensure, ch) == Reviewed(cat, r, req, ch)
  {
    Next(cat, r, req, Ensure, ch);
    Next(cat, r, req, InsertGate, ch);
    SelectAlone(cat, Ensured(r, ch), req, ch);
  }
}
