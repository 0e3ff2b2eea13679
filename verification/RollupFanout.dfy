/**
The broadcast side of the bridge: a table of the last payload per process, bounded
and ordered by change, and one bounded queue per subscriber.
*/
module RollupFanout {
  import opened Common

  type ProcessId = int
  type SubscriberId = nat

  datatype Event = Event(id: ProcessId, data: string)

  const LAST_EMITTED_MAX := 128
  const SUBSCRIBER_QUEUE_MAX := 100

  // ---- the table ------------------------------------------------------------------

  function Lookup(table: seq<Event>, id: ProcessId): Option<string> {
    if table == [] then None
    else if table[|table| - 1].id == id then Some(table[|table| - 1].data)
    else Lookup(table[..|table| - 1], id)
  }

  function Without(table: seq<Event>, id: ProcessId): (r: seq<Event>)
    ensures |r| <= |table|
  {
    if table == [] then []
    else if table[0].id == id then Without(table[1..], id)
    else [table[0]] + Without(table[1..], id)
  }

  function LastN<T>(s: seq<T>, n: nat): seq<T> {
    if |s| <= n then s else s[|s| - n..]
  }

  /** The entry becomes the newest; the oldest entries beyond the bound go. */
  function Stored(table: seq<Event>, e: Event): seq<Event> {
    LastN(Without(table, e.id) + [e], LAST_EMITTED_MAX)
  }

  // ---- the broadcaster --------------------------------------------------------------

  datatype Fanout = Fanout(
    table: seq<Event>,
    latest: Option<ProcessId>,
    queues: map<SubscriberId, seq<Event>>,
    droppedEvents: nat)

  predicate Changed(f: Fanout, e: Event) {
    Lookup(f.table, e.id) != Some(e.data)
  }

  function Offered(queue: seq<Event>, e: Event): seq<Event> {
    if |queue| < SUBSCRIBER_QUEUE_MAX then queue + [e] else queue
  }

  function FullQueues(queues: map<SubscriberId, seq<Event>>): set<SubscriberId> {
    set q | q in queues && |queues[q]| >= SUBSCRIBER_QUEUE_MAX
  }

  /** _emit: nothing for an unchanged payload, otherwise the table and every queue. */
  function Emitted(f: Fanout, e: Event): Fanout {
    if !Changed(f, e) then f
    else f.(
      table := Stored(f.table, e),
      queues := map q | q in f.queues :: Offered(f.queues[q], e),
      droppedEvents := f.droppedEvents + |FullQueues(f.queues)|)
  }

  /** What a new subscriber is sent at once. */
  function Replay(f: Fanout): seq<Event> {
    if f.latest.Some? && Lookup(f.table, f.latest.value).Some?
    then [Event(f.latest.value, Lookup(f.table, f.latest.value).value)] else []
  }

  datatype Action =
    | Emit(e: Event)
    | Refresh(e: Event)
    | Subscribe(q: SubscriberId)
    | Unsubscribe(q: SubscriberId)
    | Receive(q: SubscriberId)

  function FanoutStep(f: Fanout, a: Action): Fanout {
    match a
    case Emit(e) => Emitted(f, e)
    case Refresh(e) => Emitted(f.(latest := Some(e.id)), e)
    case Subscribe(q) => if q in f.queues then f else f.(queues := f.queues[q := Replay(f)])
    case Unsubscribe(q) => f.(queues := f.queues - {q})
    case Receive(q) =>
      if q in f.queues && f.queues[q] != [] then f.(queues := f.queues[q := f.queues[q][1..]]) else f
  }

  class Broadcaster {
    var lastEmitted: seq<Event>
    var latestPid: Option<ProcessId>
    var subscribers: map<SubscriberId, seq<Event>>
    var droppedEvents: nat

    function View(): Fanout
      reads this
    {
      Fanout(lastEmitted, latestPid, subscribers, droppedEvents)
    }

    constructor ()
      ensures View() == Fanout([], None, map[], 0)
    {
      lastEmitted, latestPid, subscribers, droppedEvents := [], None, map[], 0;
    }

    method SubscribeQueue(q: SubscriberId)
      requires q !in subscribers
      modifies this
      ensures View() == FanoutStep(old(View()), Subscribe(q))
    {
      var queue: seq<Event> := [];
      if latestPid.Some? {
        var data := Lookup(lastEmitted, latestPid.value);
        if data.Some? {
          queue := [Event(latestPid.value, data.value)];
        }
      }
      subscribers := subscribers[q := queue];
    }

    method UnsubscribeQueue(q: SubscriberId)
      modifies this
      ensures View() == FanoutStep(old(View()), Unsubscribe(q))
    {
      subscribers := subscribers - {q};
    }

    method EmitEvent(e: Event) returns (emitted: bool)
      modifies this
      ensures emitted == Changed(old(View()), e)
      ensures View() == Emitted(old(View()), e)
    {
      if Lookup(lastEmitted, e.id) == Some(e.data) {
        return false;
      }
      lastEmitted := Without(lastEmitted, e.id) + [e];
      ghost var stored := lastEmitted;
      while |lastEmitted| > LAST_EMITTED_MAX
        invariant lastEmitted == LastN(stored, |lastEmitted|)
        invariant |stored| >= |lastEmitted| && (|lastEmitted| >= LAST_EMITTED_MAX || lastEmitted == stored)
        invariant latestPid == old(latestPid) && subscribers == old(subscribers) && droppedEvents == old(droppedEvents)
      {
        lastEmitted := lastEmitted[1..];
      }
      FanOut(e);
      emitted := true;
    }

    /** Every queue in turn; a full one drops the event and is counted. */
    method FanOut(e: Event)
      modifies this`subscribers, this`droppedEvents
      ensures subscribers.Keys == old(subscribers).Keys
      ensures forall q | q in subscribers :: subscribers[q] == Offered(old(subscribers)[q], e)
      ensures droppedEvents == old(droppedEvents) + |FullQueues(old(subscribers))|
    {
      ghost var before := subscribers;
      ghost var full: set<SubscriberId> := {};
      var todo := subscribers.Keys;
      while todo != {}
        invariant subscribers.Keys == before.Keys && todo <= before.Keys && full !! todo
        invariant forall q | q in todo :: subscribers[q] == before[q]
        invariant forall q | q in before && q !in todo :: subscribers[q] == Offered(before[q], e)
        invariant forall q :: q in full <==> q in before && q !in todo && |before[q]| >= SUBSCRIBER_QUEUE_MAX
        invariant droppedEvents == old(droppedEvents) + |full|
        decreases |todo|
      {
        var q :| q in todo;
        OfferTo(q, e);
        if |before[q]| >= SUBSCRIBER_QUEUE_MAX {
          full := full + {q};
        }
        todo := todo - {q};
      }
      assert full == FullQueues(before);
    }

    method OfferTo(q: SubscriberId, e: Event)
      requires q in subscribers
      modifies this`subscribers, this`droppedEvents
      ensures subscribers == old(subscribers)[q := Offered(old(subscribers)[q], e)]
      ensures droppedEvents == old(droppedEvents) + if |old(subscribers)[q]| < SUBSCRIBER_QUEUE_MAX then 0 else 1
    {
      if |subscribers[q]| < SUBSCRIBER_QUEUE_MAX {
        subscribers := subscribers[q := subscribers[q] + [e]];
      } else {
        droppedEvents := droppedEvents + 1;
      }
    }

    /** The backstop and catch-up read of the latest process. */
    method RefreshLatest(e: Event)
      modifies this
      ensures View() == FanoutStep(old(View()), Refresh(e))
    {
      latestPid := Some(e.id);
      var _ := EmitEvent(e);
    }
  }

  // ---- history ------------------------------------------------------------------------

  /** What one subscriber has been sent: where the broadcast log stood, its replay, what it has read. */
  datatype Subscription = Subscription(since: nat, replay: seq<Event>, received: seq<Event>, overflowed: bool)

  /** The broadcaster, every broadcast so far in order, and the live subscriptions. */
  datatype State = State(f: Fanout, log: seq<Event>, subs: map<SubscriberId, Subscription>)

  function Broadcast(a: Action): Option<Event> {
    match a
    case Emit(e) => Some(e)
    case Refresh(e) => Some(e)
    case _ => None
  }

  function Step(s: State, a: Action): State {
    var event := Broadcast(a);
    var sends := event.Some? && Changed(s.f, event.value);
    State(
      FanoutStep(s.f, a),
      if sends then s.log + [event.value] else s.log,
      match a
      case Subscribe(q) =>
        if q in s.f.queues then s.subs else s.subs[q := Subscription(|s.log|, Replay(s.f), [], false)]
      case Unsubscribe(q) => s.subs - {q}
      case Receive(q) =>
        if q in s.f.queues && q in s.subs && s.f.queues[q] != []
        then s.subs[q := s.subs[q].(received := s.subs[q].received + [s.f.queues[q][0]])] else s.subs
      case _ =>
        if sends then MarkOverflow(s) else s.subs)
  }

  function MarkOverflow(s: State): map<SubscriberId, Subscription> {
    map q | q in s.subs ::
      if q in FullQueues(s.f.queues) then s.subs[q].(overflowed := true) else s.subs[q]
  }

  function Exec(s: State, acts: seq<Action>): State
    decreases |acts|
  {
    if acts == [] then s else Exec(Step(s, acts[0]), acts[1..])
  }

  const FRESH := State(Fanout([], None, map[], 0), [], map[])

  // ---- what the table holds ---------------------------------------------------------------

  /** Every id ever broadcast, ordered by its last change. */
  function ByLastChange(log: seq<Event>): seq<Event> {
    if log == [] then []
    else Without(ByLastChange(log[..|log| - 1]), log[|log| - 1].id) + [log[|log| - 1]]
  }

  /** The ids broadcast after the last broadcast of id. */
  function ChangedSince(log: seq<Event>, id: ProcessId): set<ProcessId> {
    if log == [] || log[|log| - 1].id == id then {}
    else ChangedSince(log[..|log| - 1], id) + {log[|log| - 1].id}
  }

  ghost predicate Distinct(t: seq<Event>) {
    forall i, j | 0 <= i < j < |t| :: t[i].id != t[j].id
  }

  function Ids(t: seq<Event>): set<ProcessId> {
    set e | e in t :: e.id
  }

  lemma {:induction false} WithoutFacts(t: seq<Event>, id: ProcessId)
    requires Distinct(t)
    ensures var r := Without(t, id);
      && Distinct(r)
      && (forall e :: e in r <==> e in t && e.id != id)
      && |r| == (if id in Ids(t) then |t| - 1 else |t|)
  {
    if t != [] {
      assert forall i | 0 <= i < |t[1..]| :: t[1..][i] == t[i + 1];
      assert t == [t[0]] + t[1..];
      WithoutFacts(t[1..], id);
      if t[0].id == id {
        assert forall i | 0 < i < |t| :: t[0].id != t[i].id;
        assert id !in Ids(t[1..]);
      }
    }
  }

  lemma {:induction false} WithoutSuffix(t: seq<Event>, k: nat, id: ProcessId)
    requires k <= |t|
    ensures Without(t, id) == Without(t[..k], id) + Without(t[k..], id)
  {
    if k == 0 {
      assert t[0..] == t;
    } else {
      WithoutSuffix(t[1..], k - 1, id);
      assert t[..k][1..] == t[1..][..k - 1];
      assert t[1..][k - 1..] == t[k..];
    }
  }

  lemma {:induction false} WithoutAbsent(t: seq<Event>, id: ProcessId)
    requires id !in Ids(t)
    ensures Without(t, id) == t
  {
    if t != [] {
      assert t[0] in t;
      assert id !in Ids(t[1..]) by {
        forall e | e in t[1..] ensures e in t {
        }
      }
      WithoutAbsent(t[1..], id);
    }
  }

  lemma {:induction false} ByLastChangeDistinct(log: seq<Event>)
    ensures Distinct(ByLastChange(log))
  {
    if log != [] {
      var rest := ByLastChange(log[..|log| - 1]);
      ByLastChangeDistinct(log[..|log| - 1]);
      WithoutFacts(rest, log[|log| - 1].id);
      var r := Without(rest, log[|log| - 1].id);
      assert forall i | 0 <= i < |r| :: r[i] in r;
    }
  }

  lemma WithoutLength(t: seq<Event>, id: ProcessId)
    requires Distinct(t)
    ensures |Without(t, id)| >= |t| - 1
  {
    WithoutFacts(t, id);
  }

  /** The newest entries of a concatenation, when its second part is long enough. */
  lemma SuffixOf(a: seq<Event>, b: seq<Event>, e: Event)
    requires |b| + 1 >= LAST_EMITTED_MAX
    ensures LastN(a + b + [e], LAST_EMITTED_MAX) == LastN(b + [e], LAST_EMITTED_MAX)
  {
    assert a + b + [e] == a + (b + [e]);
  }

  /** Trimming before or after the next change gives the same table. */
  lemma TrimCommutes(t: seq<Event>, e: Event)
    requires Distinct(t)
    ensures Stored(LastN(t, LAST_EMITTED_MAX), e) == LastN(Without(t, e.id) + [e], LAST_EMITTED_MAX)
  {
    if |t| > LAST_EMITTED_MAX {
      var k := |t| - LAST_EMITTED_MAX;
      assert Distinct(t[k..]);
      WithoutSuffix(t, k, e.id);
      WithoutLength(t[k..], e.id);
      SuffixOf(Without(t[..k], e.id), Without(t[k..], e.id), e);
    }
  }

  /** The table is the tail of all ids ordered by last change. */
  ghost predicate TableOk(s: State) {
    s.f.table == LastN(ByLastChange(s.log), LAST_EMITTED_MAX)
  }

  lemma StepKeepsTable(s: State, a: Action)
    requires TableOk(s)
    ensures TableOk(Step(s, a))
  {
    var event := Broadcast(a);
    if event.Some? && Changed(s.f, event.value) {
      ByLastChangeDistinct(s.log);
      TrimCommutes(ByLastChange(s.log), event.value);
      assert (s.log + [event.value])[..|s.log|] == s.log;
    }
  }

  lemma WithoutSnoc(t: seq<Event>, y: Event, id: ProcessId)
    ensures Without(t + [y], id) == Without(t, id) + (if y.id == id then [] else [y])
  {
    WithoutSuffix(t + [y], |t|, id);
    assert (t + [y])[..|t|] == t && (t + [y])[|t|..] == [y];
    assert [y][1..] == [];
  }

  lemma LookupSnoc(t: seq<Event>, y: Event, id: ProcessId)
    ensures Lookup(t + [y], id) == if y.id == id then Some(y.data) else Lookup(t, id)
    ensures ChangedSince(t + [y], id) == if y.id == id then {} else ChangedSince(t, id) + {y.id}
  {
    assert (t + [y])[..|t|] == t;
  }

  lemma {:induction false} WithoutKeepsLookup(t: seq<Event>, x: ProcessId, id: ProcessId)
    requires id != x
    ensures Lookup(Without(t, x), id) == Lookup(t, id)
  {
    if t != [] {
      var front, y := t[..|t| - 1], t[|t| - 1];
      assert t == front + [y];
      WithoutKeepsLookup(front, x, id);
      WithoutSnoc(front, y, x);
      LookupSnoc(front, y, id);
      if y.id == x {
        assert Without(front, x) + [] == Without(front, x);
      } else {
        LookupSnoc(Without(front, x), y, id);
      }
    }
  }

  /** Removing another id hides only that id from the later changes. */
  lemma {:induction false} WithoutOthers(t: seq<Event>, x: ProcessId, id: ProcessId)
    requires id != x
    ensures ChangedSince(Without(t, x), id) == ChangedSince(t, id) - {x}
  {
    if t != [] {
      var front, y := t[..|t| - 1], t[|t| - 1];
      assert t == front + [y];
      WithoutOthers(front, x, id);
      WithoutSnoc(front, y, x);
      LookupSnoc(front, y, id);
      if y.id == x {
        assert Without(front, x) + [] == Without(front, x);
      } else {
        LookupSnoc(Without(front, x), y, id);
      }
    }
  }

  /** Ordering by last change keeps each id's last payload and the ids changed after it. */
  lemma {:induction false} ByLastChangeMeans(log: seq<Event>, id: ProcessId)
    ensures Lookup(ByLastChange(log), id) == Lookup(log, id)
    ensures Lookup(log, id).Some? ==> ChangedSince(ByLastChange(log), id) == ChangedSince(log, id)
  {
    if log != [] {
      var front, y := log[..|log| - 1], log[|log| - 1];
      ByLastChangeMeans(front, id);
      LookupSnoc(Without(ByLastChange(front), y.id), y, id);
      if y.id != id {
        WithoutKeepsLookup(ByLastChange(front), y.id, id);
        WithoutOthers(ByLastChange(front), y.id, id);
      }
    }
  }

  lemma {:induction false} ChangedSinceIds(t: seq<Event>, id: ProcessId)
    ensures ChangedSince(t, id) <= Ids(t)
  {
    if t != [] {
      var front := t[..|t| - 1];
      ChangedSinceIds(front, id);
      assert t == front + [t[|t| - 1]];
    }
  }

  lemma LastNSnoc(t: seq<Event>, y: Event, n: nat)
    requires n > 0
    ensures LastN(t + [y], n) == LastN(t, n - 1) + [y]
  {
  }

  lemma DistinctSnoc(t: seq<Event>, y: Event)
    requires Distinct(t + [y])
    ensures Distinct(t) && y.id !in Ids(t)
  {
    forall i | 0 <= i < |t| ensures t[i].id != y.id {
      assert (t + [y])[i].id != (t + [y])[|t|].id;
    }
    assert forall i | 0 <= i < |t| :: (t + [y])[i] == t[i];
  }

  lemma TailMembershipSnoc(front: seq<Event>, y: Event, n: nat, id: ProcessId)
    requires y.id !in Ids(front) && n > 0
    requires Lookup(LastN(front, n - 1), id) ==
      if Lookup(front, id).Some? && |ChangedSince(front, id)| < n - 1 then Lookup(front, id) else None
    ensures Lookup(LastN(front + [y], n), id) ==
      if Lookup(front + [y], id).Some? && |ChangedSince(front + [y], id)| < n then Lookup(front + [y], id) else None
  {
    LastNSnoc(front, y, n);
    LookupSnoc(front, y, id);
    LookupSnoc(LastN(front, n - 1), y, id);
    ChangedSinceIds(front, id);
    if y.id != id {
      assert |ChangedSince(front + [y], id)| == |ChangedSince(front, id)| + 1;
    }
  }

  /** Among the newest n of distinct entries are exactly those with fewer than n changes after them. */
  lemma {:induction false} TailMembership(t: seq<Event>, n: nat, id: ProcessId)
    requires Distinct(t)
    ensures Lookup(LastN(t, n), id) ==
      if Lookup(t, id).Some? && |ChangedSince(t, id)| < n then Lookup(t, id) else None
  {
    if t == [] {
    } else if n == 0 {
      assert LastN(t, n) == [];
    } else {
      var front, y := t[..|t| - 1], t[|t| - 1];
      assert t == front + [y];
      DistinctSnoc(front, y);
      TailMembership(front, n - 1, id);
      TailMembershipSnoc(front, y, n, id);
    }
  }

  // ---- what a subscriber has been sent --------------------------------------------------------

  ghost predicate SubscriptionOk(s: State, q: SubscriberId)
    requires q in s.subs && q in s.f.queues
  {
    var sub := s.subs[q];
    && sub.since <= |s.log|
    && (sub.replay == []
        || exists e :: sub.replay == [e] && Lookup(s.log[..sub.since], e.id) == Some(e.data))
    && (!sub.overflowed ==> sub.received + s.f.queues[q] == sub.replay + s.log[sub.since..])
  }

  ghost predicate Inv(s: State) {
    && TableOk(s)
    && s.subs.Keys == s.f.queues.Keys
    && forall q | q in s.subs :: SubscriptionOk(s, q)
  }

  lemma TableLookup(s: State, id: ProcessId)
    requires TableOk(s)
    ensures Lookup(s.f.table, id) ==
      if Lookup(s.log, id).Some? && |ChangedSince(s.log, id)| < LAST_EMITTED_MAX then Lookup(s.log, id) else None
  {
    ByLastChangeDistinct(s.log);
    ByLastChangeMeans(s.log, id);
    TailMembership(ByLastChange(s.log), LAST_EMITTED_MAX, id);
  }

  lemma SubscribeOk(s: State, q: SubscriberId)
    requires Inv(s) && q !in s.f.queues
    ensures SubscriptionOk(Step(s, Subscribe(q)), q)
  {
    if s.f.latest.Some? {
      TableLookup(s, s.f.latest.value);
    }
    assert s.log[..|s.log|] == s.log && s.log[|s.log|..] == [];
    if Replay(s.f) != [] {
      assert Replay(s.f) == [Event(s.f.latest.value, Lookup(s.log, s.f.latest.value).value)];
    }
  }

  lemma SendOk(s: State, e: Event, a: Action, q: SubscriberId)
    requires Inv(s) && q in s.subs && Broadcast(a) == Some(e) && Changed(s.f, e)
    ensures SubscriptionOk(Step(s, a), q)
  {
    var sub := s.subs[q];
    var log' := s.log + [e];
    assert SubscriptionOk(s, q);
    assert log'[..sub.since] == s.log[..sub.since];
    assert log'[sub.since..] == s.log[sub.since..] + [e];
    if q !in FullQueues(s.f.queues) && !sub.overflowed {
      assert sub.received + (s.f.queues[q] + [e]) == (sub.received + s.f.queues[q]) + [e];
      assert sub.replay + (s.log[sub.since..] + [e]) == (sub.replay + s.log[sub.since..]) + [e];
    }
  }

  lemma ReceiveOk(s: State, q: SubscriberId)
    requires Inv(s) && q in s.subs
    ensures SubscriptionOk(Step(s, Receive(q)), q)
  {
    assert SubscriptionOk(s, q);
    if s.f.queues[q] != [] {
      var queue := s.f.queues[q];
      assert s.subs[q].received + [queue[0]] + queue[1..] == s.subs[q].received + queue;
    }
  }

  lemma StepKeepsKeys(s: State, a: Action)
    requires Inv(s)
    ensures Step(s, a).subs.Keys == Step(s, a).f.queues.Keys
  {
  }

  lemma StepKeepsSubscription(s: State, a: Action, q: SubscriberId)
    requires Inv(s) && q in Step(s, a).subs && q in Step(s, a).f.queues
    ensures SubscriptionOk(Step(s, a), q)
  {
    if q !in s.subs {
      SubscribeOk(s, q);
    } else if Broadcast(a).Some? && Changed(s.f, Broadcast(a).value) {
      SendOk(s, Broadcast(a).value, a, q);
    } else if a == Receive(q) {
      ReceiveOk(s, q);
    } else {
      assert SubscriptionOk(s, q);
    }
  }

  lemma StepKeepsInv(s: State, a: Action)
    requires Inv(s)
    ensures Inv(Step(s, a))
  {
    var t := Step(s, a);
    StepKeepsTable(s, a);
    StepKeepsKeys(s, a);
    forall q | q in t.subs ensures SubscriptionOk(t, q) {
      StepKeepsSubscription(s, a, q);
    }
  }

  lemma {:induction false} ExecKeepsInv(s: State, acts: seq<Action>)
    requires Inv(s)
    ensures Inv(Exec(s, acts))
    decreases |acts|
  {
    if acts != [] {
      StepKeepsInv(s, acts[0]);
      ExecKeepsInv(Step(s, acts[0]), acts[1..]);
    }
  }

  // ---- results -----------------------------------------------------------------------------------

  /**
   In every run the table answers for an id exactly when fewer than 128 other ids
   changed after it, and then with its last broadcast; and an emit is broadcast
   exactly when it differs from that answer.
   */
  lemma TableHoldsMostRecent(acts: seq<Action>, e: Event)
    ensures var s := Exec(FRESH, acts);
      var known := Lookup(s.log, e.id).Some? && |ChangedSince(s.log, e.id)| < 128;
      && |s.f.table| <= 128
      && Lookup(s.f.table, e.id) == (if known then Lookup(s.log, e.id) else None)
      && Step(s, Emit(e)).log == if known && Lookup(s.log, e.id) == Some(e.data) then s.log else s.log + [e]
  {
    ExecKeepsInv(FRESH, acts);
    TableLookup(Exec(FRESH, acts), e.id);
  }

  lemma {:induction false} ExecSnoc(s: State, acts: seq<Action>, a: Action)
    ensures Exec(s, acts + [a]) == Step(Exec(s, acts), a)
    decreases |acts|
  {
    if acts == [] {
      assert [a][1..] == [];
    } else {
      assert (acts + [a])[1..] == acts[1..] + [a];
      ExecSnoc(Step(s, acts[0]), acts[1..], a);
    }
  }

  /** The payload last computed for id, whether or not it was broadcast. */
  function LastPayload(acts: seq<Action>, id: ProcessId): Option<string> {
    if acts == [] then None
    else
      var a := acts[|acts| - 1];
      if (a.Emit? || a.Refresh?) && a.e.id == id then Some(a.e.data) else LastPayload(acts[..|acts| - 1], id)
  }

  /** Whatever was evicted or skipped in between, the last broadcast of an id is its last payload. */
  lemma {:induction false} LastBroadcastIsLastPayload(acts: seq<Action>, id: ProcessId)
    ensures Lookup(Exec(FRESH, acts).log, id) == LastPayload(acts, id)
  {
    if acts != [] {
      var front, a := acts[..|acts| - 1], acts[|acts| - 1];
      assert acts == front + [a];
      ExecSnoc(FRESH, front, a);
      LastBroadcastIsLastPayload(front, id);
      ExecKeepsInv(FRESH, front);
      var s := Exec(FRESH, front);
      TableLookup(s, id);
      if a.Emit? || a.Refresh? {
        LookupSnoc(s.log, a.e, id);
      }
    }
  }

  /** The process of the last refresh. */
  function LastRefreshed(acts: seq<Action>): Option<ProcessId> {
    if acts == [] then None
    else
      var a := acts[|acts| - 1];
      if a.Refresh? then Some(a.e.id) else LastRefreshed(acts[..|acts| - 1])
  }

  lemma {:induction false} LatestIsLastRefreshed(acts: seq<Action>)
    ensures Exec(FRESH, acts).f.latest == LastRefreshed(acts)
  {
    if acts != [] {
      var front, a := acts[..|acts| - 1], acts[|acts| - 1];
      assert acts == front + [a];
      ExecSnoc(FRESH, front, a);
      LatestIsLastRefreshed(front);
    }
  }

  /**
   A new subscriber starts with exactly the last payload of the process last refreshed, when
   fewer than 128 others were broadcast after it, and with nothing otherwise.
   */
  lemma ReplayExactly(acts: seq<Action>, q: SubscriberId)
    requires q !in Exec(FRESH, acts).f.queues
    ensures
      var s := Exec(FRESH, acts);
      var latest := LastRefreshed(acts);
      var f := Step(s, Subscribe(q)).f;
      && q in f.queues
      && f.queues[q] == (
        if latest.Some? && LastPayload(acts, latest.value).Some? && |ChangedSince(s.log, latest.value)| < 128
        then [Event(latest.value, LastPayload(acts, latest.value).value)] else [])
  {
    LatestIsLastRefreshed(acts);
    ExecKeepsInv(FRESH, acts);
    var latest := LastRefreshed(acts);
    if latest.Some? {
      TableLookup(Exec(FRESH, acts), latest.value);
      LastBroadcastIsLastPayload(acts, latest.value);
    }
  }

  lemma {:induction false} QueuesBounded(acts: seq<Action>)
    ensures var f := Exec(FRESH, acts).f;
      forall q | q in f.queues :: |f.queues[q]| <= 100
  {
    if acts != [] {
      var front, a := acts[..|acts| - 1], acts[|acts| - 1];
      assert acts == front + [a];
      ExecSnoc(FRESH, front, a);
      QueuesBounded(front);
    }
  }

  /**
   A payload that differs from the table's answer goes to the end of every queue that holds
   fewer than 100 events and to no other, and the full ones are counted; any other payload
   changes no queue. Nothing is delivered differently by a refresh.
   */
  lemma DeliveredExactly(acts: seq<Action>, e: Event, q: SubscriberId)
    requires q in Exec(FRESH, acts).f.queues
    ensures
      var s := Exec(FRESH, acts);
      var queue := s.f.queues[q];
      var full := set p | p in s.f.queues && |s.f.queues[p]| == 100;
      var same := LastPayload(acts, e.id) == Some(e.data) && |ChangedSince(s.log, e.id)| < 128;
      && Step(s, Emit(e)).f.queues.Keys == s.f.queues.Keys
      && Step(s, Emit(e)).f.queues[q] == (if same || |queue| == 100 then queue else queue + [e])
      && Step(s, Emit(e)).f.droppedEvents == s.f.droppedEvents + (if same then 0 else |full|)
      && Step(s, Refresh(e)).f == Step(s, Emit(e)).f.(latest := Some(e.id))
  {
    var s := Exec(FRESH, acts);
    QueuesBounded(acts);
    ExecKeepsInv(FRESH, acts);
    TableLookup(s, e.id);
    LastBroadcastIsLastPayload(acts, e.id);
    assert FullQueues(s.f.queues) == set p | p in s.f.queues && |s.f.queues[p]| == 100;
    EmitDelivers(s.f, e, q);
  }

  lemma EmitDelivers(f: Fanout, e: Event, q: SubscriberId)
    requires q in f.queues
    ensures var g := Emitted(f, e);
      && g.queues.Keys == f.queues.Keys
      && g.queues[q] == (if !Changed(f, e) || |f.queues[q]| >= 100 then f.queues[q] else f.queues[q] + [e])
      && g.droppedEvents == f.droppedEvents + (if Changed(f, e) then |FullQueues(f.queues)| else 0)
      && Emitted(f.(latest := Some(e.id)), e) == g.(latest := Some(e.id))
  {
  }

  /** Once unsubscribed a queue is gone, and nothing but a new subscription brings it back. */
  lemma {:induction false} UnsubscribedStaysGone(s: State, q: SubscriberId, acts: seq<Action>)
    requires Subscribe(q) !in acts
    ensures q !in Exec(s, [Unsubscribe(q)] + acts).f.queues
    ensures forall p :: p != q ==> (p in Step(s, Unsubscribe(q)).f.queues <==> p in s.f.queues)
  {
    var t := Step(s, Unsubscribe(q));
    assert ([Unsubscribe(q)] + acts)[1..] == acts;
    StaysGone(t, q, acts);
  }

  lemma {:induction false} StaysGone(s: State, q: SubscriberId, acts: seq<Action>)
    requires q !in s.f.queues && Subscribe(q) !in acts
    ensures q !in Exec(s, acts).f.queues
    decreases |acts|
  {
    if acts != [] {
      assert acts[0] != Subscribe(q);
      assert Subscribe(q) !in acts[1..];
      StaysGone(Step(s, acts[0]), q, acts[1..]);
    }
  }

  /** A subscription is marked as overflowed exactly by a broadcast that finds its queue at 100. */
  lemma OverflowsExactly(acts: seq<Action>, a: Action, q: SubscriberId)
    requires q in Step(Exec(FRESH, acts), a).subs
    ensures
      var s := Exec(FRESH, acts);
      && (q in s.subs ==> q in s.f.queues)
      && (Step(s, a).subs[q].overflowed <==>
            q in s.subs && (s.subs[q].overflowed || (|s.f.queues[q]| == 100 && Step(s, a).log != s.log)))
  {
    ExecKeepsInv(FRESH, acts);
    QueuesBounded(acts);
    StepOverflows(Exec(FRESH, acts), a, q);
  }

  lemma StepOverflows(s: State, a: Action, q: SubscriberId)
    requires q in Step(s, a).subs && s.subs.Keys == s.f.queues.Keys
    ensures Step(s, a).subs[q].overflowed <==>
      q in s.subs && (s.subs[q].overflowed || (|s.f.queues[q]| >= 100 && Step(s, a).log != s.log))
  {
    if Broadcast(a).Some? && Changed(s.f, Broadcast(a).value) {
      assert Step(s, a).log[|s.log|] == Broadcast(a).value;
      assert Step(s, a).subs == MarkOverflow(s);
    }
  }

  /** The state after n reads by one subscriber. */
  function AfterReads(s: State, q: SubscriberId, n: nat): State {
    if n == 0 then s else Step(AfterReads(s, q, n - 1), Receive(q))
  }

  /** The subscriber's next read, with everything else as it was. */
  ghost predicate TookHeads(s: State, t: State, q: SubscriberId, n: nat)
    requires q in s.subs && q in s.f.queues && n <= |s.f.queues[q]|
  {
    && q in t.subs && q in t.f.queues && t.log == s.log
    && t.f.queues[q] == s.f.queues[q][n..]
    && t.subs[q] == s.subs[q].(received := s.subs[q].received + s.f.queues[q][..n])
  }

  lemma OneRead(s: State, q: SubscriberId)
    requires q in s.subs && q in s.f.queues && s.f.queues[q] != []
    ensures TookHeads(s, Step(s, Receive(q)), q, 1)
  {
  }

  lemma ReadsAddUp(s: State, t: State, u: State, q: SubscriberId, n: nat)
    requires q in s.subs && q in s.f.queues && n < |s.f.queues[q]|
    requires TookHeads(s, t, q, n) && TookHeads(t, u, q, 1)
    ensures TookHeads(s, u, q, n + 1)
  {
    var queue := s.f.queues[q];
    assert queue[..n + 1] == queue[..n] + queue[n..][..1];
  }

  lemma {:induction false} ReadsTakeHeads(s: State, q: SubscriberId, n: nat)
    requires q in s.subs && q in s.f.queues && n <= |s.f.queues[q]|
    ensures TookHeads(s, AfterReads(s, q, n), q, n)
  {
    if n > 0 {
      var t := AfterReads(s, q, n - 1);
      ReadsTakeHeads(s, q, n - 1);
      OneRead(t, q);
      ReadsAddUp(s, t, Step(t, Receive(q)), q, n - 1);
    }
  }

  /** A subscriber that never overflowed and reads its queue out has received its replay and every broadcast since. */
  lemma ReaderGetsEverything(acts: seq<Action>, q: SubscriberId)
    requires q in Exec(FRESH, acts).subs && !Exec(FRESH, acts).subs[q].overflowed
    ensures var s := Exec(FRESH, acts);
      && q in s.f.queues
      && var t := AfterReads(s, q, |s.f.queues[q]|);
         && q in t.subs && q in t.f.queues && t.f.queues[q] == []
         && t.subs[q].received == s.subs[q].replay + s.log[Since(s, q)..]
  {
    var s := Exec(FRESH, acts);
    ExecKeepsInv(FRESH, acts);
    assert SubscriptionOk(s, q);
    ReadsTakeHeads(s, q, |s.f.queues[q]|);
    assert s.f.queues[q][..|s.f.queues[q]|] == s.f.queues[q];
  }

  lemma {:induction false} LookupConcat(a: seq<Event>, b: seq<Event>, id: ProcessId)
    ensures Lookup(a + b, id) == if Lookup(b, id).Some? then Lookup(b, id) else Lookup(a, id)
  {
    if b == [] {
      assert a + b == a;
    } else {
      var front := b[..|b| - 1];
      LookupConcat(a, front, id);
      assert a + b == (a + front) + [b[|b| - 1]];
      assert b == front + [b[|b| - 1]];
      LookupSnoc(a + front, b[|b| - 1], id);
    }
  }

  /** A subscriber that never overflowed was last told, for each id it heard of, that id's last payload. */
  lemma SubscriberIsCurrent(acts: seq<Action>, q: SubscriberId, id: ProcessId)
    requires q in Exec(FRESH, acts).subs && !Exec(FRESH, acts).subs[q].overflowed
    ensures var s := Exec(FRESH, acts);
      && q in s.f.queues
      && var sent := s.subs[q].received + s.f.queues[q];
         && (Lookup(sent, id).Some? ==> Lookup(sent, id) == LastPayload(acts, id))
         && (Lookup(s.log[Since(s, q)..], id).Some? ==> Lookup(sent, id).Some?)
  {
    ExecKeepsInv(FRESH, acts);
    SentLookup(Exec(FRESH, acts), q, id);
    LastBroadcastIsLastPayload(acts, id);
  }

  lemma SentLookup(s: State, q: SubscriberId, id: ProcessId)
    requires q in s.subs && q in s.f.queues && SubscriptionOk(s, q) && !s.subs[q].overflowed
    ensures var sent := s.subs[q].received + s.f.queues[q];
      && (Lookup(sent, id).Some? ==> Lookup(sent, id) == Lookup(s.log, id))
      && (Lookup(s.log[s.subs[q].since..], id).Some? ==> Lookup(sent, id).Some?)
  {
    var sub := s.subs[q];
    var later := s.log[sub.since..];
    LookupConcat(sub.replay, later, id);
    LookupConcat(s.log[..sub.since], later, id);
    assert s.log == s.log[..sub.since] + later;
    if sub.replay != [] {
      var e :| sub.replay == [e] && Lookup(s.log[..sub.since], e.id) == Some(e.data);
      LookupSnoc([], e, id);
      assert [] + [e] == [e];
    }
  }

  /** Where the broadcast log stood when q subscribed. */
  function Since(s: State, q: SubscriberId): nat
    requires q in s.subs
  {
    if s.subs[q].since <= |s.log| then s.subs[q].since else |s.log|
  }
}
