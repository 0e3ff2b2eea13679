/**
The notification side of the live rollup bridge: a bounded inbox, a dirty set with
its event, a consumer task and a flush task. A step is one stretch between awaits.
A flush takes its ids out of the dirty set before it reads, and nothing puts them back.
The results say exactly when that loses an accepted notification: when the read that is
serving it fails, or the bridge is stopped in the middle of it, while the id waits nowhere
else; and that no wake-up is missed.
*/
module RollupBridge {
  import opened Common

  type ProcessId = int

  const INBOX_MAX := 10_000

  /** Where each task is suspended; Off before start and after stop. */
  datatype Consumer = ConsumerOff | AwaitInbox | AwaitCheck(id: ProcessId)
  datatype Flusher = FlusherOff | AwaitDirty | AwaitWindow | AwaitRead(ids: set<ProcessId>)

  datatype Core = Core(
    inbox: seq<ProcessId>,
    dirty: set<ProcessId>,
    dirtyAvailable: bool,
    flushNow: bool,
    consumer: Consumer,
    flusher: Flusher,
    droppedNotifications: nat)

  datatype Action =
    | Notify(id: ProcessId)
    | TakeFromInbox
    | CheckDone(complete: bool)
    | WakeOnDirty
    | TakeSnapshot
    | ReadDone(ok: bool)
    | Start
    | Stop

  predicate Enabled(c: Core, a: Action) {
    match a
    case Notify(_) => true
    case TakeFromInbox => c.consumer.AwaitInbox? && c.inbox != []
    case CheckDone(_) => c.consumer.AwaitCheck?
    case WakeOnDirty => c.flusher.AwaitDirty? && c.dirtyAvailable
    case TakeSnapshot => c.flusher.AwaitWindow?
    case ReadDone(_) => c.flusher.AwaitRead?
    case Start => c.consumer.ConsumerOff? && c.flusher.FlusherOff?
    case Stop => true
  }

  function CoreStep(c: Core, a: Action): Core
    requires Enabled(c, a)
  {
    match a
    case Notify(id) =>
      if |c.inbox| < INBOX_MAX then c.(inbox := c.inbox + [id])
      else c.(droppedNotifications := c.droppedNotifications + 1)
    case TakeFromInbox =>
      var id := c.inbox[0];
      var d := c.(inbox := c.inbox[1..]);
      if id in c.dirty then d
      else d.(dirtyAvailable := c.dirtyAvailable || c.dirty == {}, dirty := c.dirty + {id}, consumer := AwaitCheck(id))
    case CheckDone(complete) => c.(consumer := AwaitInbox, flushNow := c.flushNow || complete)
    case WakeOnDirty => c.(flusher := AwaitWindow)
    case TakeSnapshot =>
      c.(dirtyAvailable := false, flushNow := false, dirty := {},
         flusher := if c.dirty == {} then AwaitDirty else AwaitRead(c.dirty))
    case ReadDone(_) => c.(flusher := AwaitDirty)
    case Start => c.(consumer := AwaitInbox, flusher := AwaitDirty)
    case Stop => c.(consumer := ConsumerOff, flusher := FlusherOff)
  }

  // ---- history ------------------------------------------------------------------

  datatype Accepted = Accepted(id: ProcessId, at: nat)

  /** A flush: the ids of its snapshot, when it was taken, and what became of its read. */
  datatype Flush = Flush(ids: set<ProcessId>, takenAt: nat, read: Read)

  datatype Read = Ongoing | Ended(at: nat) | Failed(at: nat) | Interrupted(at: nat) {
    predicate Broken() {
      Failed? || Interrupted?
    }
  }

  /** The bridge with a clock, every notification accepted so far, and every flush. */
  datatype State = State(core: Core, now: nat, accepted: seq<Accepted>, flushes: seq<Flush>)

  function Step(s: State, a: Action): State {
    if !Enabled(s.core, a) then s
    else State(
      CoreStep(s.core, a),
      s.now + 1,
      if a.Notify? && |s.core.inbox| < INBOX_MAX then s.accepted + [Accepted(a.id, s.now)] else s.accepted,
      if a.TakeSnapshot? && s.core.dirty != {} then s.flushes + [Flush(s.core.dirty, s.now, Ongoing)]
      else if a.ReadDone? then LastRead(s.flushes, if a.ok then Ended(s.now) else Failed(s.now))
      else if Breaks(s, a) then LastRead(s.flushes, Interrupted(s.now))
      else s.flushes)
  }

  /** While a flush is reading, its read fails or the bridge is stopped. */
  predicate Breaks(s: State, a: Action) {
    s.core.flusher.AwaitRead? && (a.Stop? || a == ReadDone(false))
  }

  function LastRead(flushes: seq<Flush>, read: Read): seq<Flush> {
    if flushes == [] then []
    else flushes[|flushes| - 1 := flushes[|flushes| - 1].(read := read)]
  }

  function Exec(s: State, acts: seq<Action>): State
    decreases |acts|
  {
    if acts == [] then s else Exec(Step(s, acts[0]), acts[1..])
  }

  const FRESH := State(Core([], {}, false, false, ConsumerOff, FlusherOff, 0), 0, [], [])

  /** How many accepted notifications the consumer has taken. */
  function Taken(s: State): int {
    |s.accepted| - |s.core.inbox|
  }

  /** A snapshot holding the id was taken after the notification was accepted. */
  ghost predicate Covered(s: State, n: Accepted) {
    exists k | 0 <= k < |s.flushes| :: n.id in s.flushes[k].ids && n.at < s.flushes[k].takenAt
  }

  /** The inbox holds the ids of the notifications not yet taken, in order. */
  ghost predicate InboxIsTail(s: State) {
    && 0 <= Taken(s)
    && forall j | 0 <= j < |s.core.inbox| :: s.core.inbox[j] == s.accepted[Taken(s) + j].id
  }

  ghost predicate Inv(s: State) {
    && (s.core.dirtyAvailable <==> s.core.dirty != {})
    && (s.core.flusher.AwaitWindow? ==> s.core.dirty != {})
    && (s.core.flusher.AwaitRead? ==> s.flushes != [] && s.flushes[|s.flushes| - 1].ids == s.core.flusher.ids)
    && (forall k | 0 <= k < |s.flushes| ::
          s.flushes[k].read.Ongoing? <==> k == |s.flushes| - 1 && s.core.flusher.AwaitRead?)
    && InboxIsTail(s)
    && (forall i | 0 <= i < Taken(s) :: s.accepted[i].id in s.core.dirty || Covered(s, s.accepted[i]))
    && (forall i | 0 <= i < |s.accepted| :: s.accepted[i].at < s.now)
    && (forall k | 0 <= k < |s.flushes| ::
          s.flushes[k].takenAt < s.now && (s.flushes[k].read.Ended? ==> s.flushes[k].takenAt < s.flushes[k].read.at))
  }

  lemma CoveredStays(s: State, t: State, n: Accepted)
    requires Covered(s, n) && |s.flushes| <= |t.flushes|
    requires forall k | 0 <= k < |s.flushes| ::
      t.flushes[k].ids == s.flushes[k].ids && t.flushes[k].takenAt == s.flushes[k].takenAt
    ensures Covered(t, n)
  {
    var k :| 0 <= k < |s.flushes| && n.id in s.flushes[k].ids && n.at < s.flushes[k].takenAt;
    assert n.id in t.flushes[k].ids && n.at < t.flushes[k].takenAt;
  }

  /** Each taken notification stays dirty or covered. */
  lemma TakenStaysSafe(s: State, a: Action, i: nat)
    requires Inv(s) && Enabled(s.core, a) && i < Taken(Step(s, a))
    ensures var t := Step(s, a); t.accepted[i].id in t.core.dirty || Covered(t, t.accepted[i])
  {
    var t := Step(s, a);
    if i >= Taken(s) {
      assert a.TakeFromInbox? && s.core.inbox[0] == s.accepted[Taken(s)].id;
    } else if Covered(s, s.accepted[i]) {
      CoveredStays(s, t, s.accepted[i]);
    } else if a.TakeSnapshot? {
      assert t.flushes[|s.flushes|] == Flush(s.core.dirty, s.now, Ongoing);
    }
  }

  lemma InboxStaysTail(s: State, a: Action)
    requires InboxIsTail(s) && Enabled(s.core, a)
    ensures InboxIsTail(Step(s, a))
  {
    var t := Step(s, a);
    if a.TakeFromInbox? {
      assert t.core.inbox == s.core.inbox[1..] && t.accepted == s.accepted;
    } else if a.Notify? {
      assert Taken(t) == Taken(s);
    } else {
      assert t.core.inbox == s.core.inbox && t.accepted == s.accepted;
    }
  }

  lemma StepKeepsInv(s: State, a: Action)
    requires Inv(s)
    ensures Inv(Step(s, a))
  {
    var t := Step(s, a);
    if Enabled(s.core, a) {
      InboxStaysTail(s, a);
      forall i | 0 <= i < Taken(t) ensures t.accepted[i].id in t.core.dirty || Covered(t, t.accepted[i]) {
        TakenStaysSafe(s, a, i);
      }
    }
  }

  lemma {:induction false} ExecKeepsInv(s: State, acts: seq<Action>)
    requires Inv(s)
    ensures Inv(Exec(s, acts))
    decreases |acts|
  {
    if acts != [] {
      StepKeepsInv(s, acts[0]);
      ExecKeepsInv(Step(s, acts[0]), acts[1..]);
    }
  }

  /** Flush k covers the notification: its snapshot holds the id and was taken after the acceptance. */
  ghost predicate Covers(s: State, n: Accepted, k: int) {
    0 <= k < |s.flushes| && n.id in s.flushes[k].ids && n.at < s.flushes[k].takenAt
  }

  /** A covering flush whose read succeeded. */
  ghost predicate Served(s: State, n: Accepted) {
    exists k :: Covers(s, n, k) && s.flushes[k].read.Ended?
  }

  /** The flush being read now covers the notification. */
  ghost predicate BeingServed(s: State, n: Accepted) {
    s.core.flusher.AwaitRead? && Covers(s, n, |s.flushes| - 1)
  }

  /** The id is where a later flush will find it. */
  ghost predicate Waiting(s: State, id: ProcessId) {
    id in s.core.inbox || id in s.core.dirty
  }

  /** Nothing is left of the notification: it waits nowhere, and every read that covered it was broken. */
  ghost predicate Lost(s: State, n: Accepted) {
    && !Waiting(s, n.id)
    && (exists k :: Covers(s, n, k))
    && forall k | Covers(s, n, k) :: s.flushes[k].read.Broken()
  }

  /**
   In every run each accepted notification waits in the inbox or the dirty set, is
   covered by a flush whose read succeeded or by the one being read now, or was lost
   because every read that covered it failed or was interrupted.
   */
  lemma NoLostNotification(acts: seq<Action>, i: nat)
    requires i < |Exec(FRESH, acts).accepted|
    ensures var s := Exec(FRESH, acts);
      var n := s.accepted[i];
      Waiting(s, n.id) || Served(s, n) || BeingServed(s, n) || Lost(s, n)
  {
    var s := Exec(FRESH, acts);
    var n := s.accepted[i];
    ExecKeepsInv(FRESH, acts);
    if i >= Taken(s) {
      assert s.core.inbox[i - Taken(s)] == n.id;
    } else if !Waiting(s, n.id) && !Lost(s, n) {
      var j :| 0 <= j < |s.flushes| && n.id in s.flushes[j].ids && n.at < s.flushes[j].takenAt;
      assert Covers(s, n, j);
      var k :| Covers(s, n, k) && !s.flushes[k].read.Broken();
      assert s.flushes[k].read.Ongoing? ==> BeingServed(s, n);
    }
  }

  // ---- exactly when a notification is lost -----------------------------------------------

  /** The action loses the notification: it breaks the read that serves it, which was the only hope left. */
  ghost predicate Loses(s: State, a: Action, n: Accepted) {
    Breaks(s, a) && BeingServed(s, n) && !Waiting(s, n.id) && !Served(s, n)
  }

  /** An action that does not end a read leaves every flush as it is. */
  lemma FlushesStay(s: State, a: Action, k: nat)
    requires Inv(s) && k < |s.flushes|
    ensures var t := Step(s, a);
      && |s.flushes| <= |t.flushes|
      && t.flushes[k].ids == s.flushes[k].ids && t.flushes[k].takenAt == s.flushes[k].takenAt
      && (t.flushes[k].read == s.flushes[k].read || (s.core.flusher.AwaitRead? && k == |s.flushes| - 1))
  {
  }

  lemma LosingStep(s: State, a: Action, n: Accepted)
    requires Inv(s) && Loses(s, a, n)
    ensures Lost(Step(s, a), n) && !Lost(s, n)
  {
    var t := Step(s, a);
    var last := |s.flushes| - 1;
    assert Covers(t, n, last) && t.flushes[last].read.Broken();
    forall k | Covers(t, n, k) ensures t.flushes[k].read.Broken() {
      if k != last {
        FlushesStay(s, a, k);
        assert Covers(s, n, k);
      }
    }
  }

  /** A waiting id is left waiting, or its snapshot is taken. */
  lemma StaysWaiting(s: State, a: Action, id: ProcessId)
    requires Inv(s) && Waiting(s, id)
    ensures Waiting(Step(s, a), id) ||
      (Enabled(s.core, a) && a.TakeSnapshot? && Step(s, a).flushes == s.flushes + [Flush(s.core.dirty, s.now, Ongoing)]
        && id in s.core.dirty)
  {
    var t := Step(s, a);
    if id in s.core.inbox && Enabled(s.core, a) {
      var j :| 0 <= j < |s.core.inbox| && s.core.inbox[j] == id;
      if a.TakeFromInbox? && j > 0 {
        assert t.core.inbox[j - 1] == id;
      } else if a.Notify? {
        assert t.core.inbox[j] == id;
      }
    }
  }

  lemma WaitingIsNotLost(s: State, a: Action, n: Accepted)
    requires Inv(s) && Waiting(s, n.id)
    ensures !Lost(Step(s, a), n)
  {
    var t := Step(s, a);
    StaysWaiting(s, a, n.id);
    if !Waiting(t, n.id) {
      if n.at < s.now {
        assert Covers(t, n, |s.flushes|) && t.flushes[|s.flushes|].read.Ongoing?;
      } else {
        forall k ensures !Covers(t, n, k) {
        }
      }
    }
  }

  lemma LostByStep(s: State, a: Action, n: Accepted)
    requires Inv(s) && !Lost(s, n) && Lost(Step(s, a), n)
    ensures Loses(s, a, n)
  {
    var t := Step(s, a);
    if Waiting(s, n.id) {
      WaitingIsNotLost(s, a, n);
    } else {
      forall k | Covers(s, n, k) ensures Covers(t, n, k) && !s.flushes[k].read.Ended? {
        FlushesStay(s, a, k);
      }
      var j :| Covers(t, n, j);
      assert j < |s.flushes| && Covers(s, n, j);
      var k :| Covers(s, n, k) && !s.flushes[k].read.Broken();
      assert s.flushes[k].read.Ongoing?;
    }
  }

  /** An action makes a notification lost exactly when it breaks the read serving it, with nothing else to serve it. */
  lemma LostExactly(s: State, a: Action, n: Accepted)
    requires Inv(s)
    ensures !Lost(s, n) && Lost(Step(s, a), n) <==> Loses(s, a, n)
  {
    if Loses(s, a, n) {
      LosingStep(s, a, n);
    }
    if !Lost(s, n) && Lost(Step(s, a), n) {
      LostByStep(s, a, n);
    }
  }

  ghost predicate AllSafe(s: State) {
    forall n | n in s.accepted :: !Lost(s, n)
  }

  /** No accepted notification is lost at any moment of the run. */
  ghost predicate SafeThroughout(s: State, acts: seq<Action>)
    decreases |acts|
  {
    AllSafe(s) && (acts == [] || SafeThroughout(Step(s, acts[0]), acts[1..]))
  }

  /** No action of the run loses one. */
  ghost predicate NoneLoses(s: State, acts: seq<Action>)
    decreases |acts|
  {
    acts == [] ||
    ((forall n | n in s.accepted :: !Loses(s, acts[0], n)) && NoneLoses(Step(s, acts[0]), acts[1..]))
  }

  lemma StepStaysSafe(s: State, a: Action)
    requires Inv(s) && AllSafe(s)
    ensures AllSafe(Step(s, a)) <==> forall n | n in s.accepted :: !Loses(s, a, n)
  {
    var t := Step(s, a);
    forall n | n in s.accepted ensures n in t.accepted && (Lost(t, n) <==> Loses(s, a, n)) {
      LostExactly(s, a, n);
      var i :| 0 <= i < |s.accepted| && s.accepted[i] == n;
      assert t.accepted[i] == n;
    }
    forall n | n in t.accepted && n !in s.accepted ensures !Lost(t, n) {
      assert t.core.inbox[|s.core.inbox|] == n.id;
    }
  }

  /** Over every run no accepted notification is ever lost exactly when no action loses one. */
  lemma {:induction false} SafeExactly(s: State, acts: seq<Action>)
    requires Inv(s) && AllSafe(s)
    ensures SafeThroughout(s, acts) <==> NoneLoses(s, acts)
    ensures NoneLoses(s, acts) ==> AllSafe(Exec(s, acts))
    decreases |acts|
  {
    if acts != [] {
      StepKeepsInv(s, acts[0]);
      StepStaysSafe(s, acts[0]);
      if AllSafe(Step(s, acts[0])) {
        SafeExactly(Step(s, acts[0]), acts[1..]);
      } else {
        assert !SafeThroughout(Step(s, acts[0]), acts[1..]);
      }
    }
  }

  /** No read of the run is broken. */
  predicate Unbroken(s: State, acts: seq<Action>)
    decreases |acts|
  {
    acts == [] || (!Breaks(s, acts[0]) && Unbroken(Step(s, acts[0]), acts[1..]))
  }

  ghost predicate NoneBroken(s: State) {
    forall k | 0 <= k < |s.flushes| :: !s.flushes[k].read.Broken()
  }

  lemma {:induction false} UnbrokenReads(s: State, acts: seq<Action>)
    requires Inv(s)
    ensures NoneBroken(s) && Unbroken(s, acts) <==> NoneBroken(Exec(s, acts))
    decreases |acts|
  {
    if acts != [] {
      StepKeepsInv(s, acts[0]);
      StepBreaks(s, acts[0]);
      UnbrokenReads(Step(s, acts[0]), acts[1..]);
    }
  }

  lemma StepBreaks(s: State, a: Action)
    requires Inv(s)
    ensures NoneBroken(Step(s, a)) <==> NoneBroken(s) && !Breaks(s, a)
  {
    var t := Step(s, a);
    if Breaks(s, a) {
      assert t.flushes[|s.flushes| - 1].read.Broken();
    } else if NoneBroken(t) {
      forall k | 0 <= k < |s.flushes| ensures !s.flushes[k].read.Broken() {
        FlushesStay(s, a, k);
        assert k < |t.flushes|;
      }
    }
  }

  /** In a run where every read succeeds and no stop falls into one, nothing is lost. */
  lemma NothingLostUnlessBroken(acts: seq<Action>, i: nat)
    requires i < |Exec(FRESH, acts).accepted| && Unbroken(FRESH, acts)
    ensures !Lost(Exec(FRESH, acts), Exec(FRESH, acts).accepted[i])
  {
    UnbrokenReads(FRESH, acts);
  }

  /** A failed read loses the notification it was serving; no stop is needed. */
  lemma FailedReadLosesNotification(id: ProcessId)
    ensures var acts :=
        [Start, Notify(id), TakeFromInbox, CheckDone(false)] + [WakeOnDirty, TakeSnapshot, ReadDone(false)];
      var s := Exec(FRESH, acts);
      && s.accepted == [Accepted(id, 1)] && Lost(s, s.accepted[0])
      && DrainInbox(s) == [] && DrainDirty(s.core) == []
  {
    var rest := [WakeOnDirty, TakeSnapshot, ReadDone(false)];
    ExecConcat(FRESH, [Start, Notify(id), TakeFromInbox, CheckDone(false)], rest);
    NotifiedState(id);
    ThreeSteps(Notified(id), WakeOnDirty, TakeSnapshot, ReadDone(false));
    assert Exec(Notified(id), rest) == Drained(id, 7, Failed(6));
    assert Covers(Drained(id, 7, Failed(6)), Accepted(id, 1), 0);
  }

  /** So does stopping during the read, even after a new start. */
  lemma StopLosesNotification(id: ProcessId)
    ensures var acts := [Start, Notify(id), TakeFromInbox, CheckDone(false)] + [WakeOnDirty, TakeSnapshot, Stop, Start];
      var s := Exec(FRESH, acts);
      && s.accepted == [Accepted(id, 1)] && Lost(s, s.accepted[0])
      && DrainInbox(s) == [] && DrainDirty(s.core) == []
  {
    var rest := [WakeOnDirty, TakeSnapshot, Stop, Start];
    ExecConcat(FRESH, [Start, Notify(id), TakeFromInbox, CheckDone(false)], rest);
    NotifiedState(id);
    FourSteps(Notified(id), WakeOnDirty, TakeSnapshot, Stop, Start);
    assert Exec(Notified(id), rest) == Drained(id, 8, Interrupted(6));
    assert Covers(Drained(id, 8, Interrupted(6)), Accepted(id, 1), 0);
  }

  function Notified(id: ProcessId): State {
    State(Core([], {id}, true, false, AwaitInbox, AwaitDirty, 0), 4, [Accepted(id, 1)], [])
  }

  /** Nothing waits, and the only flush read like this. */
  function Drained(id: ProcessId, now: nat, read: Read): State {
    State(Core([], {}, false, false, AwaitInbox, AwaitDirty, 0), now, [Accepted(id, 1)], [Flush({id}, 5, read)])
  }

  lemma NotifiedState(id: ProcessId)
    ensures Exec(FRESH, [Start, Notify(id), TakeFromInbox, CheckDone(false)]) == Notified(id)
  {
    FourSteps(FRESH, Start, Notify(id), TakeFromInbox, CheckDone(false));
    var s3 := Step(Step(Step(FRESH, Start), Notify(id)), TakeFromInbox);
    assert s3.core.dirty == {id} && s3.core.inbox == [];
  }

  lemma ThreeSteps(s: State, a: Action, b: Action, c: Action)
    ensures Exec(s, [a, b, c]) == Step(Step(Step(s, a), b), c)
  {
    assert [a, b, c][1..] == [b, c] && [b, c][1..] == [c] && [c][1..] == [];
    var t := Step(s, a);
    assert Exec(s, [a, b, c]) == Exec(t, [b, c]);
    assert Exec(t, [b, c]) == Exec(Step(t, b), [c]);
    assert Exec(Step(t, b), [c]) == Exec(Step(Step(t, b), c), []);
  }

  lemma FourSteps(s: State, a: Action, b: Action, c: Action, d: Action)
    ensures Exec(s, [a, b, c, d]) == Step(Step(Step(Step(s, a), b), c), d)
  {
    ThreeSteps(Step(s, a), b, c, d);
    assert [a, b, c, d][1..] == [b, c, d];
  }

  lemma SnapshotNeverEmpty(acts: seq<Action>)
    ensures var s := Exec(FRESH, acts);
      (s.core.dirtyAvailable <==> s.core.dirty != {})
      && (Enabled(s.core, TakeSnapshot) ==> CoreStep(s.core, TakeSnapshot).flusher == AwaitRead(s.core.dirty))
  {
    ExecKeepsInv(FRESH, acts);
  }

  // ---- no missed wake-up ----------------------------------------------------------

  lemma {:induction false} ExecConcat(s: State, a: seq<Action>, b: seq<Action>)
    ensures Exec(s, a + b) == Exec(Exec(s, a), b)
    decreases |a|
  {
    if a == [] {
      assert a + b == b;
    } else {
      assert (a + b)[1..] == a[1..] + b;
      ExecConcat(Step(s, a[0]), a[1..], b);
    }
  }

  ghost predicate Running(s: State) {
    !s.core.consumer.ConsumerOff? && !s.core.flusher.FlusherOff?
  }

  /** The consumer alone, until the inbox is empty and it waits again. */
  function DrainInbox(s: State): (acts: seq<Action>)
    ensures Stop !in acts && ReadDone(false) !in acts
    decreases |s.core.inbox|, if s.core.consumer.AwaitCheck? then 1 else 0
  {
    if s.core.consumer.AwaitCheck? then [CheckDone(false)] + DrainInbox(Step(s, CheckDone(false)))
    else if s.core.inbox == [] || s.core.consumer.ConsumerOff? then []
    else [TakeFromInbox] + DrainInbox(Step(s, TakeFromInbox))
  }

  lemma {:induction false} InboxDrains(s: State)
    requires Inv(s) && Running(s)
    ensures var t := Exec(s, DrainInbox(s));
      && Inv(t) && Running(t)
      && t.core.inbox == [] && t.core.consumer.AwaitInbox?
      && t.core.flusher == s.core.flusher && t.accepted == s.accepted
    decreases |s.core.inbox|, if s.core.consumer.AwaitCheck? then 1 else 0
  {
    if s.core.consumer.AwaitCheck? {
      StepKeepsInv(s, CheckDone(false));
      InboxDrains(Step(s, CheckDone(false)));
      assert DrainInbox(s)[1..] == DrainInbox(Step(s, CheckDone(false)));
    } else if s.core.inbox != [] {
      StepKeepsInv(s, TakeFromInbox);
      InboxDrains(Step(s, TakeFromInbox));
      assert DrainInbox(s)[1..] == DrainInbox(Step(s, TakeFromInbox));
    }
  }

  /** The flush task alone, its reads succeeding, until nothing is dirty and it waits again. */
  function DrainDirty(c: Core): (acts: seq<Action>)
    ensures Stop !in acts && ReadDone(false) !in acts
  {
    match c.flusher
    case FlusherOff => []
    case AwaitDirty => if c.dirty == {} then [] else [WakeOnDirty, TakeSnapshot, ReadDone(true)]
    case AwaitWindow => [TakeSnapshot, ReadDone(true)]
    case AwaitRead(_) =>
      if c.dirty == {} then [ReadDone(true)] else [ReadDone(true), WakeOnDirty, TakeSnapshot, ReadDone(true)]
  }

  lemma OneAction(s: State, a: Action, rest: seq<Action>)
    requires Inv(s)
    ensures Exec(s, [a] + rest) == Exec(Step(s, a), rest) && Inv(Step(s, a))
  {
    StepKeepsInv(s, a);
    assert ([a] + rest)[1..] == rest;
  }

  lemma WindowDrains(s: State)
    requires Inv(s) && s.core.flusher.AwaitWindow?
    ensures var t := Exec(s, [TakeSnapshot, ReadDone(true)]);
      t.core.dirty == {} && t.core.flusher.AwaitDirty? && t.core.inbox == s.core.inbox && t.accepted == s.accepted
  {
    OneAction(s, TakeSnapshot, [ReadDone(true)]);
    assert [TakeSnapshot] + [ReadDone(true)] == [TakeSnapshot, ReadDone(true)];
    OneAction(Step(s, TakeSnapshot), ReadDone(true), []);
    assert [ReadDone(true)] + [] == [ReadDone(true)];
  }

  lemma IdleDrains(s: State)
    requires Inv(s) && s.core.flusher.AwaitDirty? && s.core.dirty != {}
    ensures var t := Exec(s, [WakeOnDirty, TakeSnapshot, ReadDone(true)]);
      t.core.dirty == {} && t.core.flusher.AwaitDirty? && t.core.inbox == s.core.inbox && t.accepted == s.accepted
  {
    OneAction(s, WakeOnDirty, [TakeSnapshot, ReadDone(true)]);
    assert [WakeOnDirty] + [TakeSnapshot, ReadDone(true)] == [WakeOnDirty, TakeSnapshot, ReadDone(true)];
    WindowDrains(Step(s, WakeOnDirty));
  }

  lemma DirtyDrains(s: State)
    requires Inv(s) && Running(s)
    ensures var t := Exec(s, DrainDirty(s.core));
      t.core.dirty == {} && t.core.flusher.AwaitDirty? && t.core.inbox == s.core.inbox && t.accepted == s.accepted
  {
    match s.core.flusher
    case AwaitDirty => if s.core.dirty != {} { IdleDrains(s); }
    case AwaitWindow => WindowDrains(s);
    case AwaitRead(_) =>
      if s.core.dirty == {} {
        OneAction(s, ReadDone(true), []);
        assert [ReadDone(true)] + [] == [ReadDone(true)];
      } else {
        OneAction(s, ReadDone(true), [WakeOnDirty, TakeSnapshot, ReadDone(true)]);
        assert [ReadDone(true)] + [WakeOnDirty, TakeSnapshot, ReadDone(true)] == DrainDirty(s.core);
        IdleDrains(Step(s, ReadDone(true)));
      }
  }

  lemma {:induction false} NoStopNoBreak(s: State, acts: seq<Action>)
    requires Stop !in acts && ReadDone(false) !in acts
    ensures Unbroken(s, acts)
    decreases |acts|
  {
    if acts != [] {
      NoStopNoBreak(Step(s, acts[0]), acts[1..]);
    }
  }

  lemma DrainedIsServed(t: State, i: nat)
    requires Inv(t) && i < |t.accepted| && t.core.inbox == [] && t.core.dirty == {} && !t.core.flusher.AwaitRead?
    ensures Served(t, t.accepted[i]) || Lost(t, t.accepted[i])
    ensures NoneBroken(t) ==> Served(t, t.accepted[i])
  {
    var n := t.accepted[i];
    var j :| 0 <= j < |t.flushes| && n.id in t.flushes[j].ids && n.at < t.flushes[j].takenAt;
    assert Covers(t, n, j);
    if !Lost(t, n) {
      var k :| Covers(t, n, k) && !t.flushes[k].read.Broken();
      assert t.flushes[k].read.Ended?;
    }
  }

  /**
   Whatever happened before, the two tasks alone finish the work: after a bounded schedule
   of their own steps, with reads that succeed, every accepted notification is covered by
   a flush whose read succeeded, unless every read that covered it was broken before; in a
   run without a broken read, every one is served.
   */
  lemma TasksServeEverything(acts: seq<Action>)
    requires Running(Exec(FRESH, acts))
    ensures var s := Exec(FRESH, acts);
      var u := Exec(s, DrainInbox(s));
      var t := Exec(u, DrainDirty(u.core));
      && t.core.inbox == [] && t.core.dirty == {} && t.accepted == s.accepted
      && (forall i | 0 <= i < |t.accepted| :: Served(t, t.accepted[i]) || Lost(t, t.accepted[i]))
      && (Unbroken(FRESH, acts) ==> forall i | 0 <= i < |t.accepted| :: Served(t, t.accepted[i]))
  {
    var s := Exec(FRESH, acts);
    ExecKeepsInv(FRESH, acts);
    InboxDrains(s);
    var u := Exec(s, DrainInbox(s));
    DirtyDrains(u);
    var t := Exec(u, DrainDirty(u.core));
    ExecKeepsInv(u, DrainDirty(u.core));
    NoStopNoBreak(s, DrainInbox(s));
    NoStopNoBreak(u, DrainDirty(u.core));
    UnbrokenReads(FRESH, acts);
    UnbrokenReads(s, DrainInbox(s));
    UnbrokenReads(u, DrainDirty(u.core));
    forall i | 0 <= i < |t.accepted|
      ensures Served(t, t.accepted[i]) || Lost(t, t.accepted[i])
      ensures Unbroken(FRESH, acts) ==> Served(t, t.accepted[i])
    {
      DrainedIsServed(t, i);
    }
  }

  // ---- completions and drops -----------------------------------------------------------

  lemma ExecSnoc(s: State, acts: seq<Action>, a: Action)
    ensures Exec(s, acts + [a]) == Step(Exec(s, acts), a)
  {
    ExecConcat(s, acts, [a]);
    assert [a][1..] == [];
    assert Exec(Exec(s, acts), [a]) == Exec(Step(Exec(s, acts), a), []);
  }

  /** A check that was being awaited has found its process complete, and no snapshot has been taken since. */
  function CompletedSinceSnapshot(acts: seq<Action>): bool {
    if acts == [] then false
    else
      var front, a := acts[..|acts| - 1], acts[|acts| - 1];
      var before := Exec(FRESH, front).core;
      if a == CheckDone(true) && before.consumer.AwaitCheck? then true
      else if a == TakeSnapshot && before.flusher.AwaitWindow? then false
      else CompletedSinceSnapshot(front)
  }

  /** The flush task is asked to cut its window short exactly while a completion waits for its snapshot. */
  lemma {:induction false} FlushNowExactly(acts: seq<Action>)
    ensures Exec(FRESH, acts).core.flushNow <==> CompletedSinceSnapshot(acts)
  {
    if acts != [] {
      var front := acts[..|acts| - 1];
      assert acts == front + [acts[|acts| - 1]];
      ExecSnoc(FRESH, front, acts[|acts| - 1]);
      FlushNowExactly(front);
    }
  }

  /** A completion check begins exactly when an id becomes dirty, and for that id. */
  lemma CheckStartsExactly(s: State, a: Action)
    ensures
      var t := Step(s, a);
      var starts := t.core.consumer.AwaitCheck? && !s.core.consumer.AwaitCheck?;
      && (starts ==> t.core.dirty - s.core.dirty == {t.core.consumer.id})
      && (!starts ==> t.core.dirty - s.core.dirty == {})
  {
  }

  /** How many notifications a run brings. */
  function Notifications(acts: seq<Action>): nat {
    if acts == [] then 0
    else Notifications(acts[..|acts| - 1]) + if acts[|acts| - 1].Notify? then 1 else 0
  }

  /** Every notification is accepted or counted as dropped, and it is dropped exactly when 10000 are waiting. */
  lemma {:induction false} NotificationsConserved(acts: seq<Action>, id: ProcessId)
    ensures var s := Exec(FRESH, acts);
      && |s.accepted| + s.core.droppedNotifications == Notifications(acts)
      && |s.core.inbox| <= 10_000
      && Step(s, Notify(id)).core.droppedNotifications
           == s.core.droppedNotifications + (if |s.core.inbox| == 10_000 then 1 else 0)
  {
    if acts != [] {
      var front := acts[..|acts| - 1];
      assert acts == front + [acts[|acts| - 1]];
      ExecSnoc(FRESH, front, acts[|acts| - 1]);
      NotificationsConserved(front, id);
    }
  }

  // ---- the object ------------------------------------------------------------------

  /** The bridge's own fields; the task positions say where each loop is suspended. */
  class Bridge {
    var inbox: seq<ProcessId>
    var dirty: set<ProcessId>
    var dirtyAvailable: bool
    var flushNow: bool
    var consumer: Consumer
    var flusher: Flusher
    var droppedNotifications: nat

    function View(): Core
      reads this
    {
      Core(inbox, dirty, dirtyAvailable, flushNow, consumer, flusher, droppedNotifications)
    }

    constructor ()
      ensures View() == FRESH.core
    {
      inbox, dirty, dirtyAvailable, flushNow := [], {}, false, false;
      consumer, flusher, droppedNotifications := ConsumerOff, FlusherOff, 0;
    }

    method StartTasks()
      modifies this
      ensures View() == if Enabled(old(View()), Start) then CoreStep(old(View()), Start) else old(View())
    {
      if consumer.ConsumerOff? && flusher.FlusherOff? {
        consumer, flusher := AwaitInbox, AwaitDirty;
      }
    }

    method StopTasks()
      modifies this
      ensures View() == CoreStep(old(View()), Stop)
    {
      consumer, flusher := ConsumerOff, FlusherOff;
    }

    /** The listener callback; a payload that is no integer is None. */
    method OnNotify(payload: Option<int>)
      modifies this
      ensures View() == if payload.None? then old(View()) else CoreStep(old(View()), Notify(payload.value))
    {
      if payload.None? {
        return;
      }
      if |inbox| < INBOX_MAX {
        inbox := inbox + [payload.value];
      } else {
        droppedNotifications := droppedNotifications + 1;
      }
    }

    /** The consumer from inbox.get() to the completion check, or back to the inbox. */
    method ConsumerTurn()
      requires Enabled(View(), TakeFromInbox)
      modifies this
      ensures View() == CoreStep(old(View()), TakeFromInbox)
    {
      var processId := inbox[0];
      inbox := inbox[1..];
      if processId in dirty {
        return;
      }
      if dirty == {} {
        dirtyAvailable := true;
      }
      dirty := dirty + {processId};
      consumer := AwaitCheck(processId);
    }

    /** The consumer after the completion check; a failed check counts as incomplete. */
    method ConsumerAfterCheck(complete: bool)
      requires Enabled(View(), CheckDone(complete))
      modifies this
      ensures View() == CoreStep(old(View()), CheckDone(complete))
    {
      if complete {
        flushNow := true;
      }
      consumer := AwaitInbox;
    }

    method FlusherWakes()
      requires Enabled(View(), WakeOnDirty)
      modifies this
      ensures View() == CoreStep(old(View()), WakeOnDirty)
    {
      flusher := AwaitWindow;
    }

    /** The flush task from the end of its window to its read: the clears and the snapshot. */
    method FlusherSnapshot() returns (ids: set<ProcessId>)
      requires Enabled(View(), TakeSnapshot)
      modifies this
      ensures View() == CoreStep(old(View()), TakeSnapshot) && ids == old(dirty)
    {
      dirtyAvailable := false;
      flushNow := false;
      ids := dirty;
      dirty := {};
      flusher := if ids == {} then AwaitDirty else AwaitRead(ids);
    }

    /** After the read, whether it served its ids or raised. */
    method FlusherReadDone(ok: bool)
      requires Enabled(View(), ReadDone(ok))
      modifies this
      ensures View() == CoreStep(old(View()), ReadDone(ok))
    {
      flusher := AwaitDirty;
    }
  }
}
