/**
Promote, decline and bulk approve over the tables of many requests. Each method
is specified by the undisturbed call on one request's rows, and leaves the rows
of every other request alone.
*/
module ReviewDesk {
  import opened Common
  import opened MatchingRows
  import opened GateProtocol
  import opened ReviewFlow

  type RequestId = string

  /** The catalog pair a caller names; None where the source raises. */
  function CatalogPair(cat: Catalog, vertical: Option<Vertical>, system: Option<System>): (r: Option<Pair>)
    ensures r.None? <==> vertical.None? || system.None? || forall p | p in cat.bindings ::
      p.vertical != vertical.value || p.system != system.value
    ensures r.Some? ==> r.value in cat.bindings && Some(r.value.vertical) == vertical && Some(r.value.system) == system
  {
    if vertical.Some? && system.Some? && Pair(vertical.value, system.value) in cat.bindings
    then Some(Pair(vertical.value, system.value)) else None
  }

  class Desk {
    const cat: Catalog
    var tables: map<RequestId, Rows>

    constructor (cat: Catalog, tables: map<RequestId, Rows>)
      ensures this.cat == cat && this.tables == tables
    {
      this.cat := cat;
      this.tables := tables;
    }

    method EnsurePending(rid: RequestId, ch: Choice) returns (id: Option<nat>)
      requires rid in tables
      modifies this
      ensures tables == old(tables)[rid := Ensured(old(tables)[rid], ch)]
      ensures id == LatestPending(tables[rid])
    {
      if !ch.approved && LatestPending(tables[rid]).None? && ch.ruleConfigured {
        tables := tables[rid := WithNewGate(tables[rid])];
      }
      id := LatestPending(tables[rid]);
    }

    /** Compare-and-set on the pending status. */
    method DecideApproval(rid: RequestId, id: nat, verdict: Verdict) returns (decided: bool)
      requires rid in tables && id < |tables[rid].gates|
      modifies this
      ensures tables == old(tables)[rid := WithDecision(old(tables)[rid], id, verdict)]
      ensures decided == old(tables)[rid].gates[id].status.Pending?
    {
      decided := tables[rid].gates[id].status.Pending?;
      if decided {
        var gate := tables[rid].gates[id];
        tables := tables[rid := tables[rid].(gates := tables[rid].gates[id := gate.(status := Decided(verdict))])];
      }
    }

    /** Sets the DROP status once; refuses codes outside the allowed set. */
    method SetDropResponseStatus(rid: RequestId, status: int, allowed: set<int>) returns (r: Result<bool, string>)
      requires rid in tables
      modifies this
      ensures r.Err? <==> status !in allowed
      ensures r.Err? ==> tables == old(tables)
      ensures r.Ok? ==> tables == old(tables)[rid := WithResponse(old(tables)[rid], status)]
      ensures r.Ok? ==> r.value == (old(tables)[rid].isDrop && old(tables)[rid].response.None?)
    {
      if status !in allowed {
        return Err("response_status not allowed");
      }
      var updated := tables[rid].isDrop && tables[rid].response.None?;
      if updated {
        tables := tables[rid := tables[rid].(response := Some(status))];
      }
      r := Ok(updated);
    }

    method RecordSystemDecision(rid: RequestId, id: nat, p: Pair, verdict: Verdict)
      requires rid in tables && id < |tables[rid].gates|
      modifies this
      ensures tables == old(tables)[rid :=
        WithContext(old(tables)[rid], id, old(tables)[rid].gates[id].context.With(p, verdict))]
    {
      var context := tables[rid].gates[id].context;
      context := if verdict.Approve? then context.(confirmed := context.confirmed + {p})
                 else context.(declined := context.declined + {p});
      tables := tables[rid := WithContext(tables[rid], id, context)];
    }

    method RecordDeclinedVertical(rid: RequestId, id: nat, v: Vertical)
      requires rid in tables && id < |tables[rid].gates|
      modifies this
      ensures var ctx := old(tables)[rid].gates[id].context;
        tables == old(tables)[rid :=
          WithContext(old(tables)[rid], id, ctx.(declinedVerticals := ctx.declinedVerticals + {v}))]
    {
      var context := tables[rid].gates[id].context;
      tables := tables[rid :=
        WithContext(tables[rid], id, context.(declinedVerticals := context.declinedVerticals + {v}))];
    }

    /** The loop over the catalog listing. */
    method UndecidedKeys(rid: RequestId, scope: Option<Vertical>) returns (remaining: set<Pair>)
      requires rid in tables
      ensures remaining == Remaining(cat, tables[rid], scope)
    {
      var disposed := tables[rid].dispositions.Keys;
      var context := PendingContext(tables[rid]);
      var listing := Listing(cat, scope);
      var todo := listing;
      remaining := {};
      while todo != {}
        invariant todo <= listing
        invariant remaining == set p | p in listing && p !in todo && !IsDecided(cat, disposed, context, p)
        decreases |todo|
      {
        var p :| p in todo;
        if !IsDecided(cat, disposed, context, p) {
          remaining := remaining + {p};
        }
        todo := todo - {p};
      }
    }

    method MirrorWhenGateCloses(rid: RequestId, req: Review)
      requires rid in tables && Valid(cat, req)
      modifies this
      ensures var status := MirroredStatus(cat, old(tables)[rid], req);
        tables == if status.None? then old(tables)
                  else old(tables)[rid := WithResponse(old(tables)[rid], status.value)]
    {
      var status: Option<int> := None;
      if req.Promote? && req.Records(cat) && req.pair.vertical == VERTICAL_DATA {
        status := req.status;
      } else {
        var v := cat.Stored(VERTICAL_DATA);
        if v in tables[rid].dispositions {
          status := Some(tables[rid].dispositions[v]);
        }
      }
      if status.Some? && status.value in PROMOTE_CODES {
        var _ := SetDropResponseStatus(rid, status.value, PROMOTE_CODES);
      }
    }

    /** The undecided check, the mirror and the decision that end both operations. */
    method Conclude(rid: RequestId, id: Option<nat>, req: Review, ch: Choice) returns (outcome: Outcome)
      requires rid in tables && Valid(cat, req)
      requires id.Some? ==> id.value < |tables[rid].gates|
      modifies this
      ensures tables == old(tables)[rid := Concluded(cat, old(tables)[rid], id, req, ch).0]
      ensures outcome == Concluded(cat, old(tables)[rid], id, req, ch).1
    {
      var remaining := UndecidedKeys(rid, None);
      if remaining != {} {
        return if id.None? && !ch.approved then Raised else StillPending;
      }
      MirrorWhenGateCloses(rid, req);
      if id.None? {
        return if ch.approved then AlreadyApproved else Raised;
      }
      var decided := DecideApproval(rid, id.value, req.Verdict());
      outcome := if decided then Closed(req.Verdict()) else Raised;
    }

    /** A confirm of a catalog pair that has been validated. */
    method PromotePair(rid: RequestId, req: Review, ch: Choice) returns (outcome: Outcome)
      requires rid in tables && Valid(cat, req) && req.Promote?
      modifies this
      ensures tables == old(tables)[rid := Promoted(cat, old(tables)[rid], req, ch).0]
      ensures outcome == Promoted(cat, old(tables)[rid], req, ch).1
    {
      var id := EnsurePending(rid, ch);
      if id.Some? {
        RecordSystemDecision(rid, id.value, req.pair, Approve);
        assert tables == old(tables)[rid := Recorded(Ensured(old(tables)[rid], ch), id.value, req)];
      }
      if req.Records(cat) {
        if UpsertRaises(req, ch) {
          return Raised;
        }
        tables := tables[rid := WithDisposition(tables[rid], cat.Stored(req.pair.vertical), req.status.value)];
      }
      outcome := Conclude(rid, id, req, ch);
    }

    method Promote(rid: RequestId, vertical: Option<Vertical>, system: Option<System>,
                   status: Option<int>, selection: bool, ch: Choice) returns (outcome: Outcome)
      requires rid in tables
      modifies this
      ensures var pair := CatalogPair(cat, vertical, system);
        if pair.None? || (status.Some? && status.value !in {3, 4, 5})
        then tables == old(tables) && outcome == Raised
        else
          var after := Reviewed(cat, old(tables)[rid], MatchingRows.Promote(pair.value, status, selection), ch);
          tables == old(tables)[rid := after.0] && outcome == after.1
    {
      var pair := CatalogPair(cat, vertical, system);
      if pair.None? || (status.Some? && status.value !in PROMOTE_CODES) {
        return Raised;
      }
      outcome := PromotePair(rid, MatchingRows.Promote(pair.value, status, selection), ch);
    }

    method DeclinePair(rid: RequestId, req: Review, ch: Choice) returns (outcome: Outcome)
      requires rid in tables && Valid(cat, req) && req.Decline?
      modifies this
      ensures tables == old(tables)[rid := Declined(cat, old(tables)[rid], req, ch).0]
      ensures outcome == Declined(cat, old(tables)[rid], req, ch).1
    {
      var id := EnsurePending(rid, ch);
      if id.None? {
        return Raised;
      }
      RecordSystemDecision(rid, id.value, req.pair, Reject);
      assert tables == old(tables)[rid := Recorded(Ensured(old(tables)[rid], ch), id.value, req)];
      NoteVertical(rid, id.value, req.pair.vertical);
      outcome := Conclude(rid, id, req, ch);
    }

    method NoteVertical(rid: RequestId, id: nat, v: Vertical)
      requires rid in tables && id < |tables[rid].gates|
      modifies this
      ensures tables == old(tables)[rid := VerticalNoted(cat, old(tables)[rid], id, v)]
    {
      var remainingForVertical := UndecidedKeys(rid, Some(v));
      if remainingForVertical == {} {
        RecordDeclinedVertical(rid, id, v);
      }
    }

    method Decline(rid: RequestId, vertical: Option<Vertical>, system: Option<System>, ch: Choice)
      returns (outcome: Outcome)
      requires rid in tables
      modifies this
      ensures var pair := CatalogPair(cat, vertical, system);
        if pair.None? then tables == old(tables) && outcome == Raised
        else
          var after := Reviewed(cat, old(tables)[rid], MatchingRows.Decline(pair.value), ch);
          tables == old(tables)[rid := after.0] && outcome == after.1
    {
      var pair := CatalogPair(cat, vertical, system);
      if pair.None? {
        return Raised;
      }
      outcome := DeclinePair(rid, MatchingRows.Decline(pair.value), ch);
    }

    /** Legal triage: the DROP status alone, over all four codes. */
    method RejectTriage(rid: RequestId, status: int) returns (r: Result<bool, string>)
      requires rid in tables
      modifies this
      ensures r.Err? <==> status !in {2, 3, 4, 5}
      ensures var before := old(tables)[rid];
        tables == if r.Ok? && before.isDrop && before.response == None
                  then old(tables)[rid := before.(response := Some(status))] else old(tables)
    {
      r := SetDropResponseStatus(rid, status, DROP_CODES);
    }

    /** Gates for requests that have none pending; without a configured rule the first of them raises. */
    method EnsureGates(ids: seq<RequestId>, ruleConfigured: bool) returns (raised: bool)
      requires forall rid | rid in ids :: rid in tables
      requires forall i, j | 0 <= i < j < |ids| :: ids[i] != ids[j]
      modifies this
      ensures raised <==> !CanOpen(old(tables), ids, ruleConfigured)
      ensures raised ==> tables == old(tables)
      ensures tables.Keys == old(tables).Keys
      ensures !raised ==> forall rid | rid in tables ::
        tables[rid] == if rid in ids then Opened(old(tables)[rid]) else old(tables)[rid]
    {
      for i := 0 to |ids|
        invariant tables.Keys == old(tables).Keys
        invariant !ruleConfigured ==> tables == old(tables)
        invariant CanOpen(old(tables), ids[..i], ruleConfigured)
        invariant forall rid | rid in tables ::
          tables[rid] == if rid in ids[..i] then Opened(old(tables)[rid]) else old(tables)[rid]
      {
        var rid := ids[i];
        assert rid !in ids[..i];
        if LatestPending(tables[rid]).None? {
          if !ruleConfigured {
            return true;
          }
          tables := tables[rid := WithNewGate(tables[rid])];
        }
      }
      assert ids[..|ids|] == ids;
      raised := false;
    }

    /**
     One confirm per request of a match type. An exception stops the loop; requests
     before it stay promoted. The ghost result says what each single confirm does.
     */
    method BulkApprove(ids: seq<RequestId>, vertical: Option<Vertical>, system: Option<System>,
                       ruleConfigured: bool, chs: map<RequestId, Choice>)
      returns (done: nat, raised: bool, approvedIds: seq<RequestId>, pendingIds: seq<RequestId>,
               ghost results: map<RequestId, (Rows, Outcome)>)
      requires forall rid | rid in ids :: rid in tables && rid in chs
      requires forall i, j | 0 <= i < j < |ids| :: ids[i] != ids[j]
      modifies this
      ensures CatalogPair(cat, vertical, system).None? || !CanOpen(old(tables), ids, ruleConfigured) ==>
        raised && done == 0 && tables == old(tables) && approvedIds == pendingIds == []
      ensures CatalogPair(cat, vertical, system).Some? && CanOpen(old(tables), ids, ruleConfigured) ==>
        && Confirms(cat, old(tables), results, ids, CatalogPair(cat, vertical, system).value, chs)
        && Processed(results, ids, done, raised, approvedIds, pendingIds)
        && tables.Keys == old(tables).Keys
        && forall rid | rid in tables :: tables[rid] == AfterBulk(old(tables), results, ids, done, rid)
    {
      var target := CatalogPair(cat, vertical, system);
      if target.None? {
        return 0, true, [], [], map[];
      }
      var pair := target.value;
      results := map rid | rid in ids ::
        Reviewed(cat, Opened(tables[rid]), MatchingRows.Promote(pair, None, false), chs[rid]);
      raised := EnsureGates(ids, ruleConfigured);
      if raised {
        return 0, true, [], [], results;
      }
      done, raised, approvedIds, pendingIds := ConfirmEach(ids, pair, chs, results);
    }

    method ConfirmEach(ids: seq<RequestId>, pair: Pair, chs: map<RequestId, Choice>,
                       ghost results: map<RequestId, (Rows, Outcome)>)
      returns (done: nat, raised: bool, approvedIds: seq<RequestId>, pendingIds: seq<RequestId>)
      requires pair in cat.bindings
      requires forall rid | rid in ids :: rid in tables && rid in chs && rid in results
      requires forall rid | rid in ids ::
        results[rid] == Reviewed(cat, tables[rid], MatchingRows.Promote(pair, None, false), chs[rid])
      requires forall i, j | 0 <= i < j < |ids| :: ids[i] != ids[j]
      modifies this
      ensures Processed(results, ids, done, raised, approvedIds, pendingIds)
      ensures tables.Keys == old(tables).Keys
      ensures forall rid | rid in tables ::
        tables[rid] == (if rid in ids[..done] then results[rid].0 else old(tables)[rid])
    {
      done, raised, approvedIds, pendingIds := 0, false, [], [];
      while done < |ids| && !raised
        invariant done <= |ids| && tables.Keys == old(tables).Keys
        invariant raised ==> done > 0 && results[ids[done - 1]].1 == Raised
        invariant approvedIds == WithOutcome(results, ids[..done], true)
        invariant pendingIds == WithOutcome(results, ids[..done], false)
        invariant forall rid | rid in tables ::
          tables[rid] == (if rid in ids[..done] then results[rid].0 else old(tables)[rid])
        decreases |ids| - done
      {
        var rid := ids[done];
        assert rid !in ids[..done];
        WithOutcomeNext(results, ids, done, true);
        WithOutcomeNext(results, ids, done, false);
        var outcome := ConfirmOne(rid, pair, chs[rid], results[rid]);
        if outcome == Raised {
          raised := true;
        } else if outcome == Closed(Approve) {
          approvedIds := approvedIds + [rid];
        } else {
          pendingIds := pendingIds + [rid];
        }
        done := done + 1;
      }
    }

    method ConfirmOne(rid: RequestId, pair: Pair, ch: Choice, ghost expected: (Rows, Outcome))
      returns (outcome: Outcome)
      requires rid in tables && pair in cat.bindings
      requires expected == Reviewed(cat, tables[rid], MatchingRows.Promote(pair, None, false), ch)
      modifies this
      ensures tables == old(tables)[rid := expected.0] && outcome == expected.1
    {
      outcome := PromotePair(rid, MatchingRows.Promote(pair, None, false), ch);
    }
  }

  /** Every request has a pending gate, or the rule lets one be opened. */
  predicate CanOpen(tables: map<RequestId, Rows>, ids: seq<RequestId>, ruleConfigured: bool) {
    ruleConfigured || forall rid | rid in ids :: rid in tables && LatestPending(tables[rid]).Some?
  }

  function Opened(r: Rows): Rows {
    if LatestPending(r).None? then WithNewGate(r) else r
  }

  /** One result per request: a gate if none is pending, then a confirm without a status. */
  ghost predicate Confirms(cat: Catalog, before: map<RequestId, Rows>, results: map<RequestId, (Rows, Outcome)>,
                           ids: seq<RequestId>, pair: Pair, chs: map<RequestId, Choice>)
    requires forall rid | rid in ids :: rid in before && rid in chs
  {
    && results.Keys == (set rid | rid in ids)
    && forall rid | rid in ids ::
      results[rid] == Reviewed(cat, Opened(before[rid]), Promote(pair, None, false), chs[rid])
  }

  /** The batch runs in order up to its end or its first exception, sorting ids by outcome. */
  ghost predicate Processed(results: map<RequestId, (Rows, Outcome)>, ids: seq<RequestId>, done: nat, raised: bool,
                            approvedIds: seq<RequestId>, pendingIds: seq<RequestId>)
    requires forall rid | rid in ids :: rid in results
  {
    && done <= |ids|
    && (raised ==> done > 0 && results[ids[done - 1]].1 == Raised)
    && (!raised ==> done == |ids|)
    && approvedIds == WithOutcome(results, ids[..done], true)
    && pendingIds == WithOutcome(results, ids[..done], false)
  }

  /** A request's rows once the first n of the batch are processed. */
  function AfterBulk(before: map<RequestId, Rows>, results: map<RequestId, (Rows, Outcome)>,
                     ids: seq<RequestId>, n: nat, rid: RequestId): Rows
    requires rid in before && n <= |ids|
    requires forall r | r in ids :: r in results
  {
    if rid in ids[..n] then results[rid].0
    else if rid in ids then Opened(before[rid])
    else before[rid]
  }

  /** The requests, in order, whose gate the confirm closed, or left open without raising. */
  function WithOutcome(results: map<RequestId, (Rows, Outcome)>, ids: seq<RequestId>, closed: bool): seq<RequestId>
    requires forall rid | rid in ids :: rid in results
  {
    if ids == [] then []
    else
      var last := ids[|ids| - 1];
      var outcome := results[last].1;
      WithOutcome(results, ids[..|ids| - 1], closed)
      + if outcome != Raised && (outcome == Closed(Approve)) == closed then [last] else []
  }

  /** The two lists of a batch: the requests whose gate the confirm closed, and those it left open. */
  lemma {:induction false} BatchLists(results: map<RequestId, (Rows, Outcome)>, ids: seq<RequestId>, rid: RequestId)
    requires forall id | id in ids :: id in results
    ensures rid in WithOutcome(results, ids, true) <==> rid in ids && results[rid].1 == Closed(Approve)
    ensures rid in WithOutcome(results, ids, false) <==>
      rid in ids && results[rid].1 != Closed(Approve) && results[rid].1 != Raised
    decreases |ids|
  {
    if ids != [] {
      BatchLists(results, ids[..|ids| - 1], rid);
      assert ids == ids[..|ids| - 1] + [ids[|ids| - 1]];
    }
  }

  lemma WithOutcomeNext(results: map<RequestId, (Rows, Outcome)>, ids: seq<RequestId>, n: nat, closed: bool)
    requires n < |ids| && forall rid | rid in ids :: rid in results
    ensures var outcome := results[ids[n]].1;
      WithOutcome(results, ids[..n + 1], closed) == WithOutcome(results, ids[..n], closed)
        + if outcome != Raised && (outcome == Closed(Approve)) == closed then [ids[n]] else []
    ensures forall rid :: rid in ids[..n + 1] <==> rid in ids[..n] || rid == ids[n]
  {
    assert ids[..n + 1] == ids[..n] + [ids[n]];
    assert ids[..n + 1][..n] == ids[..n];
  }
}
