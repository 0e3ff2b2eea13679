/**
When the context stored on a gate still holds every decision written to it. Context
updates are unlocked read-modify-writes, so a write can carry an outdated snapshot.
*/
module StoredDecisions {
  import opened Common
  import opened MatchingRows
  import opened GateProtocol

  /** The pairs stored as decided on gate i; none before the gate is opened. */
  function Stored(r: Rows, i: nat): set<Pair> {
    if i < |r.gates| then r.gates[i].context.Systems() else {}
  }

  /** Gate i stores exactly the decisions written to it. */
  ghost predicate Complete(s: State, i: nat) {
    forall p :: p in Stored(s.rows, i) <==> GateWrite(i, p) in s.written
  }

  /** What a call is about to write over gate i: its snapshot, and its own pair if it records one. */
  function Carried(call: Call): set<Pair> {
    match call.pc
    case WriteDecision(_, snapshot) => snapshot.Systems() + {call.req.pair}
    case WriteDeclined(_, snapshot) => snapshot.Systems()
    case _ => {}
  }

  predicate WritesTo(call: Call, i: nat) {
    match call.pc
    case WriteDecision(id, _) => id == i
    case WriteDeclined(id, _) => id == i
    case _ => false
  }

  /** The action writes gate i from a snapshot that missed a decision stored since it was read. */
  predicate Misses(s: State, a: Action, i: nat) {
    && a.Advance? && a.c < |s.calls|
    && WritesTo(s.calls[a.c], i)
    && !(Stored(s.rows, i) <= Carried(s.calls[a.c]))
  }

  // ---- everything stored or about to be stored was written -------------------------------------

  ghost predicate Written(s: State, i: nat, pairs: set<Pair>) {
    forall p | p in pairs :: GateWrite(i, p) in s.written
  }

  ghost predicate SnapshotWritten(s: State, call: Call) {
    match call.pc
    case WriteDecision(id, snapshot) => Written(s, id, snapshot.Systems())
    case WriteDeclined(id, snapshot) => Written(s, id, snapshot.Systems())
    case _ => true
  }

  ghost predicate FromWrites(s: State) {
    && (forall i | 0 <= i < |s.rows.gates| :: Written(s, i, s.rows.gates[i].context.Systems()))
    && (forall c | 0 <= c < |s.calls| :: SnapshotWritten(s, s.calls[c]))
    && (forall w | w in s.written :: w.gate < |s.rows.gates|)
  }

  /** One action on gate i: complete before, complete after exactly when the write missed nothing. */
  lemma StepStays(cat: Catalog, s: State, a: Action, i: nat)
    requires Inv(cat, s) && FromWrites(s) && Complete(s, i)
    ensures Complete(Step(cat, s, a), i) <==> !Misses(s, a, i)
  {
    if a.Advance? && a.c < |s.calls| {
      AdvanceStays(cat, s, a.c, a.ch, i);
    }
  }

  lemma AdvanceStays(cat: Catalog, s: State, c: nat, ch: Choice, i: nat)
    requires Inv(cat, s) && FromWrites(s) && Complete(s, i) && c < |s.calls|
    ensures Complete(AdvanceCall(cat, s, c, ch), i) <==> !Misses(s, Advance(c, ch), i)
  {
    var call := s.calls[c];
    var t := AdvanceCall(cat, s, c, ch);
    assert CallOk(cat, s.rows, call) && SnapshotWritten(s, call);
    if WritesTo(call, i) {
      assert Stored(t.rows, i) == Carried(call);
    } else {
      assert Stored(t.rows, i) == Stored(s.rows, i);
    }
  }

  lemma StepFromWrites(cat: Catalog, s: State, a: Action)
    requires Inv(cat, s) && FromWrites(s)
    ensures FromWrites(Step(cat, s, a))
  {
    var t := Step(cat, s, a);
    assert s.written <= t.written;
    if a.Advance? && a.c < |s.calls| {
      AdvanceFromWrites(cat, s, a.c, a.ch);
    }
  }

  lemma AdvanceFromWrites(cat: Catalog, s: State, c: nat, ch: Choice)
    requires Inv(cat, s) && FromWrites(s) && c < |s.calls|
    ensures FromWrites(AdvanceCall(cat, s, c, ch))
  {
    var call := s.calls[c];
    var t := AdvanceCall(cat, s, c, ch);
    assert CallOk(cat, s.rows, call) && SnapshotWritten(s, call);
    forall d | 0 <= d < |t.calls| ensures SnapshotWritten(t, t.calls[d]) {
      if d != c {
        assert SnapshotWritten(s, s.calls[d]);
      }
    }
  }

  // ---- over whole runs -------------------------------------------------------------------------

  /** Gate i is complete at every moment of the run. */
  ghost predicate CompleteThroughout(cat: Catalog, s: State, acts: seq<Action>, i: nat)
    requires Inv(cat, s)
    decreases |acts|
  {
    && Complete(s, i)
    && (acts == [] ||
        (StepKeepsInv(cat, s, acts[0]); CompleteThroughout(cat, Step(cat, s, acts[0]), acts[1..], i)))
  }

  /** No write of the run to gate i missed a decision. */
  ghost predicate NoneMissed(cat: Catalog, s: State, acts: seq<Action>, i: nat)
    requires Inv(cat, s)
    decreases |acts|
  {
    acts == [] ||
    (StepKeepsInv(cat, s, acts[0]); !Misses(s, acts[0], i) && NoneMissed(cat, Step(cat, s, acts[0]), acts[1..], i))
  }

  lemma {:induction false} CompleteFrom(cat: Catalog, s: State, acts: seq<Action>, i: nat)
    requires Inv(cat, s) && FromWrites(s) && Complete(s, i)
    ensures CompleteThroughout(cat, s, acts, i) <==> NoneMissed(cat, s, acts, i)
    ensures NoneMissed(cat, s, acts, i) ==> Complete(Exec(cat, s, acts), i)
    decreases |acts|
  {
    if acts != [] {
      var t := Step(cat, s, acts[0]);
      StepKeepsInv(cat, s, acts[0]);
      StepFromWrites(cat, s, acts[0]);
      StepStays(cat, s, acts[0], i);
      if Complete(t, i) {
        CompleteFrom(cat, t, acts[1..], i);
      }
    }
  }

  /**
   In every run of overlapping calls from a fresh request, a gate stores exactly the
   decisions written to it, at every moment, exactly when no write to it carried a
   snapshot that missed a decision stored between its read and its write.
   */
  lemma StoredExactly(cat: Catalog, s0: State, acts: seq<Action>, i: nat)
    requires Init(s0)
    ensures (InitSafe(cat, s0); CompleteThroughout(cat, s0, acts, i) <==> NoneMissed(cat, s0, acts, i))
    ensures (InitSafe(cat, s0); NoneMissed(cat, s0, acts, i) ==> Complete(Run(cat, s0, acts), i))
  {
    InitSafe(cat, s0);
    CompleteFrom(cat, s0, acts, i);
  }

  // ---- a lost decision -------------------------------------------------------------------------

  /** A fresh request with one open gate. */
  const OPENED := State(Rows([Gate(Pending, EMPTY)], map[], false, None), [], {}, {}, {})

  /** Two declines in flight at the given positions. */
  function Declines(p: Pair, q: Pair, pcP: Pc, pcQ: Pc): State {
    OPENED.(calls := [Call(Decline(p), pcP), Call(Decline(q), pcQ)])
  }

  /** The state after the k-th action of the race: both calls read before either writes. */
  function Race(p: Pair, q: Pair, k: nat): State {
    match k
    case 0 => OPENED
    case 1 => OPENED.(calls := [Call(Decline(p), Ensure)])
    case 2 => Declines(p, q, Ensure, Ensure)
    case 3 => Declines(p, q, SelectGate, Ensure)
    case 4 => Declines(p, q, ReadDecision(0), Ensure)
    case 5 => Declines(p, q, WriteDecision(0, EMPTY), Ensure)
    case 6 => Declines(p, q, WriteDecision(0, EMPTY), SelectGate)
    case 7 => Declines(p, q, WriteDecision(0, EMPTY), ReadDecision(0))
    case 8 => Declines(p, q, WriteDecision(0, EMPTY), WriteDecision(0, EMPTY))
    case 9 => After(Declines(p, q, ReadVertical(0), WriteDecision(0, EMPTY)), {p}, {p})
    case 10 => After(Declines(p, q, ReadVertical(0), ReadVertical(0)), {q}, {p, q})
    case 11 => After(WithThird(p, q, Ensure), {q}, {p, q})
    case 12 => After(WithThird(p, q, SelectGate), {q}, {p, q})
    case 13 => After(WithThird(p, q, ReadDecision(0)), {q}, {p, q})
    case 14 => After(WithThird(p, q, WriteDecision(0, Context({}, {q}, {}))), {q}, {p, q})
    case _ => After(WithThird(p, q, ReadVertical(0)), {p, q}, {p, q})
  }

  /** The gate stores these declines; those were written to it. */
  function After(s: State, stored: set<Pair>, decided: set<Pair>): State {
    s.(rows := s.rows.(gates := [Gate(Pending, Context({}, stored, {}))]),
       decidedEver := decided, written := set p | p in decided :: GateWrite(0, p))
  }

  function WithThird(p: Pair, q: Pair, pc: Pc): State {
    var s := Declines(p, q, ReadVertical(0), ReadVertical(0));
    s.(calls := s.calls + [Call(Decline(p), pc)])
  }

  function RaceAction(p: Pair, q: Pair, ch: Choice, k: nat): Action {
    if k == 0 || k == 10 then Begin(Decline(p))
    else if k == 1 then Begin(Decline(q))
    else if k <= 4 || k == 8 then Advance(0, ch)
    else if k <= 9 then Advance(1, ch)
    else Advance(2, ch)
  }

  function RaceActions(p: Pair, q: Pair, ch: Choice, n: nat): seq<Action> {
    seq(n, k requires 0 <= k < n => RaceAction(p, q, ch, k))
  }

  predicate IsWrite(k: nat) {
    k == 8 || k == 9 || k == 14
  }

  lemma RaceReads(cat: Catalog, p: Pair, q: Pair, ch: Choice, k: nat)
    requires p in cat.bindings && q in cat.bindings && k < 15 && !IsWrite(k)
    requires WellTyped(cat, Race(p, q, k))
    ensures Step(cat, Race(p, q, k), RaceAction(p, q, ch, k)) == Race(p, q, k + 1)
  {
    assert Step(cat, Race(p, q, k), RaceAction(p, q, ch, k)).calls == Race(p, q, k + 1).calls;
  }

  lemma RaceWrites(cat: Catalog, p: Pair, q: Pair, ch: Choice, k: nat)
    requires p in cat.bindings && q in cat.bindings && IsWrite(k)
    requires WellTyped(cat, Race(p, q, k))
    ensures Step(cat, Race(p, q, k), RaceAction(p, q, ch, k)) == Race(p, q, k + 1)
  {
    var t, u := Step(cat, Race(p, q, k), RaceAction(p, q, ch, k)), Race(p, q, k + 1);
    assert t.rows.gates[0].context.declined == u.rows.gates[0].context.declined;
    assert t.rows.gates == u.rows.gates;
    assert t.calls == u.calls && t.written == u.written;
  }

  lemma {:induction false} RaceRuns(cat: Catalog, p: Pair, q: Pair, ch: Choice, n: nat)
    requires p in cat.bindings && q in cat.bindings && n <= 15
    ensures Run(cat, OPENED, RaceActions(p, q, ch, n)) == Race(p, q, n)
  {
    if n > 0 {
      RaceRuns(cat, p, q, ch, n - 1);
      if IsWrite(n - 1) {
        RaceWrites(cat, p, q, ch, n - 1);
      } else {
        RaceReads(cat, p, q, ch, n - 1);
      }
      assert RaceActions(p, q, ch, n) == RaceActions(p, q, ch, n - 1) + [RaceAction(p, q, ch, n - 1)];
      ExecSnoc(cat, OPENED, RaceActions(p, q, ch, n - 1), RaceAction(p, q, ch, n - 1));
    }
  }

  lemma {:induction false} ExecSnoc(cat: Catalog, s: State, acts: seq<Action>, a: Action)
    requires Inv(cat, s)
    ensures Exec(cat, s, acts + [a]) == Step(cat, Exec(cat, s, acts), a)
    decreases |acts|
  {
    if acts == [] {
      ExecStep(cat, s, a, []);
      assert [a] + [] == acts + [a];
    } else {
      StepKeepsInv(cat, s, acts[0]);
      assert (acts + [a])[1..] == acts[1..] + [a];
      ExecSnoc(cat, Step(cat, s, acts[0]), acts[1..], a);
    }
  }

  /** From a fresh request, two overlapping declines of different pairs: the first decision is lost. */
  lemma StoredContextCanLose(cat: Catalog, p: Pair, q: Pair, ch: Choice)
    requires p in cat.bindings && q in cat.bindings && p != q
    ensures var t := Run(cat, OPENED, RaceActions(p, q, ch, 10));
      && Stored(t.rows, 0) == {q}
      && p in t.decidedEver && GateWrite(0, p) in t.written
      && Misses(Run(cat, OPENED, RaceActions(p, q, ch, 9)), RaceAction(p, q, ch, 9), 0)
  {
    RaceRuns(cat, p, q, ch, 9);
    RaceRuns(cat, p, q, ch, 10);
  }

  /** A later call for the lost pair restores it, so completeness at the end alone does not rule out a miss. */
  lemma LostDecisionCanReturn(cat: Catalog, p: Pair, q: Pair, ch: Choice)
    requires p in cat.bindings && q in cat.bindings && p != q
    ensures Complete(Run(cat, OPENED, RaceActions(p, q, ch, 15)), 0)
    ensures !NoneMissed(cat, OPENED, RaceActions(p, q, ch, 15), 0)
  {
    RaceRuns(cat, p, q, ch, 15);
    StoredContextCanLose(cat, p, q, ch);
    var acts := RaceActions(p, q, ch, 15);
    var rest := [RaceAction(p, q, ch, 9)] + acts[10..];
    assert acts == RaceActions(p, q, ch, 9) + rest;
    InitSafe(cat, OPENED);
    NoneMissedPrefix(cat, OPENED, RaceActions(p, q, ch, 9), rest, 0);
  }

  /** Nothing missed in a run: nothing missed by its second part either. */
  lemma {:induction false} NoneMissedPrefix(cat: Catalog, s: State, front: seq<Action>, rest: seq<Action>, i: nat)
    requires Inv(cat, s)
    ensures NoneMissed(cat, s, front + rest, i) ==> NoneMissed(cat, Exec(cat, s, front), rest, i)
    decreases |front|
  {
    if front == [] {
      assert front + rest == rest;
    } else {
      StepKeepsInv(cat, s, front[0]);
      assert (front + rest)[1..] == front[1..] + rest;
      NoneMissedPrefix(cat, Step(cat, s, front[0]), front[1..], rest, i);
    }
  }
}
