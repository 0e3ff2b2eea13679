/**
Enqueueing a matching attempt for one of the remaining vertical systems: check for an
attempt under way, otherwise insert one numbered after the largest, and on a unique
violation read again. Any number of callers interleave between these statements, and
the INSERT itself reads its number before it writes. Workers move attempts until they
reach a terminal status.

`openIndex` says whether, besides the unique attempt number, the table has a unique
index on attempts that are still under way.
*/
module RemainingEnqueue {
  import opened AttemptRows
  import opened Common

  const SYSTEMS: set<string> := {"axios_headquarters", "paylocity", "lever", "hr_alumni", "bizdev_contacts"}

  function Canonical(system: string): string {
    if system == "axios_hq" then "axios_headquarters" else system
  }

  /** Every known system is its own canonical name. */
  lemma CanonicalStable(system: string)
    ensures system in SYSTEMS ==> Canonical(system) == system
    ensures Canonical(Canonical(system)) == Canonical(system)
  {
    assert |"axios_hq"| == 8 && |"axios_headquarters"| == 18;
    assert system in SYSTEMS ==> |system| != 8;
  }

  /** Six names are known, two of them for one system. */
  lemma KnownSystems(system: string)
    ensures Canonical(system) in SYSTEMS <==>
      system in {"axios_hq", "axios_headquarters", "paylocity", "lever", "hr_alumni", "bizdev_contacts"}
    ensures Canonical("axios_hq") == Canonical("axios_headquarters") == "axios_headquarters"
    ensures system != "axios_hq" ==> Canonical(system) == system
  {
    CanonicalStable(system);
  }

  datatype Key = Key(system: string, request: nat)

  /** An attempt; it holds nothing besides key, number and status. */
  type Attempt = Row<Key, ()>

  function NewAttempt(key: Key, number: nat): Attempt {
    Row(key, number, Pending, ())
  }

  type CallId = nat

  datatype Pc =
    | Checking(key: Key)
    | Numbering(key: Key)
    | Inserting(key: Key, number: nat)
    | Rereading(key: Key)
    | Returned(key: Key, id: nat)
    | NotFound
    | Violated

  datatype State = State(rows: seq<Attempt>, calls: map<CallId, Pc>)

  datatype Action =
    | Call(id: CallId, system: string, request: nat)
    | Check(id: CallId, found: Option<nat>)
    | ReadNumber(id: CallId)
    | Insert(id: CallId)
    | Reread(id: CallId, found: Option<nat>)
    | Move(row: nat, status: Status)

  // ---- one statement at a time ------------------------------------------------------------

  predicate OpenAt(rows: seq<Attempt>, i: int, key: Key) {
    0 <= i < |rows| && rows[i].key == key && IsOpen(rows[i].status)
  }

  predicate SomeOpen(rows: seq<Attempt>, key: Key) {
    exists i | 0 <= i < |rows| :: OpenAt(rows, i, key)
  }

  /** What a query for one open attempt may return. */
  predicate Answer(rows: seq<Attempt>, key: Key, found: Option<nat>) {
    match found
    case Some(i) => OpenAt(rows, i, key)
    case None => !SomeOpen(rows, key)
  }

  predicate Conflicts(rows: seq<Attempt>, key: Key, number: nat, openIndex: bool) {
    NumberTaken(rows, key, number) || (openIndex && SomeOpen(rows, key))
  }

  predicate Enabled(s: State, a: Action) {
    match a
    case Call(c, _, _) => c !in s.calls
    case Check(c, found) => c in s.calls && s.calls[c].Checking? && Answer(s.rows, s.calls[c].key, found)
    case ReadNumber(c) => c in s.calls && s.calls[c].Numbering?
    case Insert(c) => c in s.calls && s.calls[c].Inserting?
    case Reread(c, found) => c in s.calls && s.calls[c].Rereading? && Answer(s.rows, s.calls[c].key, found)
    case Move(i, _) => i < |s.rows| && IsOpen(s.rows[i].status)
  }

  function Next(s: State, a: Action, openIndex: bool): State
    requires Enabled(s, a)
  {
    match a
    case Call(c, system, request) =>
      var key := Key(Canonical(system), request);
      s.(calls := s.calls[c := if Canonical(system) in SYSTEMS then Checking(key) else NotFound])
    case Check(c, found) =>
      s.(calls := s.calls[c := match found
        case Some(i) => Returned(s.calls[c].key, i)
        case None => Numbering(s.calls[c].key)])
    case ReadNumber(c) =>
      s.(calls := s.calls[c := Inserting(s.calls[c].key, MaxNumber(s.rows, s.calls[c].key) + 1)])
    case Insert(c) =>
      var key, number := s.calls[c].key, s.calls[c].number;
      if Conflicts(s.rows, key, number, openIndex) then s.(calls := s.calls[c := Rereading(key)])
      else State(s.rows + [NewAttempt(key, number)], s.calls[c := Returned(key, |s.rows|)])
    case Reread(c, found) =>
      s.(calls := s.calls[c := match found
        case Some(i) => Returned(s.calls[c].key, i)
        case None => Violated])
    case Move(i, status) => s.(rows := s.rows[i := s.rows[i].(status := status)])
  }

  // ---- numbering ----------------------------------------------------------------------------

  /** Attempts of every key are numbered 1, 2, 3, ... in table order. */
  ghost predicate AllNumbered(rows: seq<Attempt>) {
    forall key :: Numbered(rows, key)
  }

  lemma AllAppend(rows: seq<Attempt>, row: Attempt)
    requires AllNumbered(rows) && row.number == KeyCount(rows, row.key) + 1
    ensures AllNumbered(rows + [row])
  {
    forall key ensures Numbered(rows + [row], key) {
      NumberedAppend(rows, row, key);
    }
  }

  lemma AllMove(rows: seq<Attempt>, i: nat, status: Status)
    requires AllNumbered(rows) && i < |rows|
    ensures AllNumbered(rows[i := rows[i].(status := status)])
    ensures forall key :: KeyCount(rows[i := rows[i].(status := status)], key) == KeyCount(rows, key)
  {
    var moved := rows[i := rows[i].(status := status)];
    forall key ensures Numbered(moved, key) && KeyCount(moved, key) == KeyCount(rows, key) {
      NumberedSame(rows, moved, key);
      SameCount(rows, moved, key);
    }
  }

  // ---- what every step keeps --------------------------------------------------------------------

  ghost predicate OneOpen(rows: seq<Attempt>) {
    forall i, j, key :: i < j && OpenAt(rows, i, key) ==> !OpenAt(rows, j, key)
  }

  /** A number read for an insert is at most one past the numbers in use. */
  ghost predicate NumbersRead(s: State) {
    forall c :: c in s.calls && s.calls[c].Inserting? ==> 1 <= s.calls[c].number <= KeyCount(s.rows, s.calls[c].key) + 1
  }

  ghost predicate Inv(s: State, openIndex: bool) {
    AllNumbered(s.rows) && NumbersRead(s) && (openIndex ==> OneOpen(s.rows))
  }

  lemma InsertKeepsNumbers(s: State, c: CallId, openIndex: bool)
    requires AllNumbered(s.rows) && NumbersRead(s) && Enabled(s, Insert(c))
    requires !Conflicts(s.rows, s.calls[c].key, s.calls[c].number, openIndex)
    ensures AllNumbered(s.rows + [NewAttempt(s.calls[c].key, s.calls[c].number)])
  {
    var key, number := s.calls[c].key, s.calls[c].number;
    TakenExactly(s.rows, key, number);
    AllAppend(s.rows, NewAttempt(key, number));
  }

  lemma RowsGrow(s: State, a: Action, openIndex: bool)
    requires AllNumbered(s.rows) && Enabled(s, a)
    ensures forall key :: KeyCount(s.rows, key) <= KeyCount(Next(s, a, openIndex).rows, key)
  {
    match a {
      case Move(i, status) => AllMove(s.rows, i, status);
      case Insert(c) =>
        forall key ensures KeyCount(s.rows, key) <= KeyCount(Next(s, a, openIndex).rows, key) {
          CountAppend(s.rows, NewAttempt(s.calls[c].key, s.calls[c].number), key);
        }
      case _ =>
    }
  }

  lemma StepKeepsRead(s: State, a: Action, openIndex: bool)
    requires Inv(s, openIndex) && Enabled(s, a)
    ensures NumbersRead(Next(s, a, openIndex))
  {
    RowsGrow(s, a, openIndex);
    if a.ReadNumber? {
      MaxIsCount(s.rows, s.calls[a.id].key);
    }
  }

  lemma StepKeepsNumbers(s: State, a: Action, openIndex: bool)
    requires Inv(s, openIndex) && Enabled(s, a)
    ensures AllNumbered(Next(s, a, openIndex).rows)
  {
    match a {
      case Move(i, status) => AllMove(s.rows, i, status);
      case Insert(c) =>
        if !Conflicts(s.rows, s.calls[c].key, s.calls[c].number, openIndex) {
          InsertKeepsNumbers(s, c, openIndex);
        }
      case _ =>
    }
  }

  lemma StepKeepsOneOpen(s: State, a: Action)
    requires OneOpen(s.rows) && Enabled(s, a)
    ensures OneOpen(Next(s, a, true).rows)
  {
    var rows := Next(s, a, true).rows;
    forall i, j, key | i < j && OpenAt(rows, i, key) ensures !OpenAt(rows, j, key) {
      if j < |s.rows| {
        assert OpenAt(s.rows, i, key) && (OpenAt(rows, j, key) ==> OpenAt(s.rows, j, key));
      } else if j < |rows| {
        assert OpenAt(s.rows, i, key);
      }
    }
  }

  ghost predicate Run(states: seq<State>, actions: seq<Action>, openIndex: bool) {
    && |states| == |actions| + 1
    && states[0] == State([], map[])
    && forall k :: 0 <= k < |actions| ==> StepsTo(states[k], actions[k], states[k + 1], openIndex)
  }

  ghost predicate StepsTo(s: State, a: Action, t: State, openIndex: bool) {
    Enabled(s, a) && t == Next(s, a, openIndex)
  }

  lemma {:induction false} RunKeepsInv(states: seq<State>, actions: seq<Action>, openIndex: bool, k: nat)
    requires Run(states, actions, openIndex) && k < |states|
    ensures Inv(states[k], openIndex)
  {
    if k > 0 {
      RunKeepsInv(states, actions, openIndex, k - 1);
      assert StepsTo(states[k - 1], actions[k - 1], states[k], openIndex);
      StepKeepsNumbers(states[k - 1], actions[k - 1], openIndex);
      StepKeepsRead(states[k - 1], actions[k - 1], openIndex);
      if openIndex {
        StepKeepsOneOpen(states[k - 1], actions[k - 1]);
      }
    }
  }

  /** However callers interleave, the numbers of a key are 1..n without gap or repetition. */
  lemma NumbersHaveNoGap(states: seq<State>, actions: seq<Action>, openIndex: bool, k: nat, key: Key)
    requires Run(states, actions, openIndex) && k < |states|
    ensures forall m: nat :: NumberTaken(states[k].rows, key, m) <==> 1 <= m <= KeyCount(states[k].rows, key)
    ensures forall m: nat, i, j :: Carries(states[k].rows, i, key, m) && Carries(states[k].rows, j, key, m) ==> i == j
  {
    RunKeepsInv(states, actions, openIndex, k);
    var rows := states[k].rows;
    forall m: nat ensures NumberTaken(rows, key, m) <==> 1 <= m <= KeyCount(rows, key) {
      TakenExactly(rows, key, m);
    }
    forall m: nat, i, j | Carries(rows, i, key, m) && Carries(rows, j, key, m) ensures i == j {
      CarriedOnce(rows, key, m, i, j);
    }
  }

  /** With the open index no key ever has two attempts under way. */
  lemma AtMostOneOpen(states: seq<State>, actions: seq<Action>, k: nat)
    requires Run(states, actions, true) && k < |states|
    ensures OneOpen(states[k].rows)
  {
    RunKeepsInv(states, actions, true, k);
  }

  function RaceState(key: Key, k: nat): State {
    var first, second := NewAttempt(key, 1), NewAttempt(key, 2);
    match k
    case 0 => State([], map[])
    case 1 => State([], map[0 := Checking(key)])
    case 2 => State([], map[0 := Checking(key), 1 := Checking(key)])
    case 3 => State([], map[0 := Numbering(key), 1 := Checking(key)])
    case 4 => State([], map[0 := Numbering(key), 1 := Numbering(key)])
    case 5 => State([], map[0 := Inserting(key, 1), 1 := Numbering(key)])
    case 6 => State([first], map[0 := Returned(key, 0), 1 := Numbering(key)])
    case 7 => State([first], map[0 := Returned(key, 0), 1 := Inserting(key, 2)])
    case _ => State([first, second], map[0 := Returned(key, 0), 1 := Returned(key, 1)])
  }

  function RaceAction(key: Key, k: nat): Action {
    match k
    case 0 => Call(0, key.system, key.request)
    case 1 => Call(1, key.system, key.request)
    case 2 => Check(0, None)
    case 3 => Check(1, None)
    case 4 => ReadNumber(0)
    case 5 => Insert(0)
    case 6 => ReadNumber(1)
    case _ => Insert(1)
  }

  lemma RaceStep(key: Key, k: nat)
    requires key.system in SYSTEMS && k < 8
    ensures StepsTo(RaceState(key, k), RaceAction(key, k), RaceState(key, k + 1), false)
  {
    var s, a, t := RaceState(key, k), RaceAction(key, k), RaceState(key, k + 1);
    CanonicalStable(key.system);
    assert MaxNumber([NewAttempt(key, 1)], key) == 1 by {
      assert MaxNumber([NewAttempt(key, 1)][..0], key) == 0;
    }
    assert Enabled(s, a);
    assert Next(s, a, false).rows == t.rows;
    assert Next(s, a, false).calls == t.calls;
  }

  /** Without it two callers that both found nothing leave two. */
  lemma WithoutOpenIndexTwoOpen(key: Key)
    requires key.system in SYSTEMS
    ensures exists states: seq<State>, actions: seq<Action> ::
      Run(states, actions, false) && !OneOpen(states[|actions|].rows)
  {
    var states := seq(9, k requires 0 <= k < 9 => RaceState(key, k));
    var actions := seq(8, k requires 0 <= k < 8 => RaceAction(key, k));
    forall k | 0 <= k < 8 ensures StepsTo(states[k], actions[k], states[k + 1], false) {
      RaceStep(key, k);
    }
    assert Run(states, actions, false);
    assert OpenAt(states[8].rows, 0, key) && OpenAt(states[8].rows, 1, key);
  }

  /** An insert that goes through although an attempt of its key is under way. */
  predicate Doubles(s: State, a: Action) {
    && a.Insert? && a.id in s.calls && s.calls[a.id].Inserting?
    && !NumberTaken(s.rows, s.calls[a.id].key, s.calls[a.id].number)
    && SomeOpen(s.rows, s.calls[a.id].key)
  }

  /** Without the open index, exactly such an insert leaves a key with two attempts under way. */
  lemma StepDoublesExactly(s: State, a: Action)
    requires OneOpen(s.rows) && Enabled(s, a)
    ensures !OneOpen(Next(s, a, false).rows) <==> Doubles(s, a)
  {
    var rows := Next(s, a, false).rows;
    if Doubles(s, a) {
      var key := s.calls[a.id].key;
      var i :| 0 <= i < |s.rows| && OpenAt(s.rows, i, key);
      assert OpenAt(rows, i, key) && OpenAt(rows, |s.rows|, key);
    } else {
      forall i, j, key | i < j && OpenAt(rows, i, key) ensures !OpenAt(rows, j, key) {
        if j < |s.rows| {
          assert OpenAt(s.rows, i, key) && (OpenAt(rows, j, key) ==> OpenAt(s.rows, j, key));
        } else if j < |rows| {
          assert OpenAt(s.rows, i, key);
        }
      }
    }
  }

  /** Without it, a run never has two attempts of a key under way exactly when none of its inserts doubles. */
  lemma OneOpenExactly(states: seq<State>, actions: seq<Action>)
    requires Run(states, actions, false)
    ensures (forall k | 0 <= k < |states| :: OneOpen(states[k].rows)) <==>
      (forall k | 0 <= k < |actions| :: !Doubles(states[k], actions[k]))
  {
    if forall k | 0 <= k < |states| :: OneOpen(states[k].rows) {
      forall k | 0 <= k < |actions| ensures !Doubles(states[k], actions[k]) {
        assert StepsTo(states[k], actions[k], states[k + 1], false);
        StepDoublesExactly(states[k], actions[k]);
      }
    }
    if forall k | 0 <= k < |actions| :: !Doubles(states[k], actions[k]) {
      forall k | 0 <= k < |states| ensures OneOpen(states[k].rows) {
        OneOpenUpTo(states, actions, k);
      }
    }
  }

  lemma {:induction false} OneOpenUpTo(states: seq<State>, actions: seq<Action>, k: nat)
    requires Run(states, actions, false) && k < |states|
    requires forall i | 0 <= i < |actions| :: !Doubles(states[i], actions[i])
    ensures OneOpen(states[k].rows)
  {
    if k > 0 {
      OneOpenUpTo(states, actions, k - 1);
      assert StepsTo(states[k - 1], actions[k - 1], states[k], false);
      StepDoublesExactly(states[k - 1], actions[k - 1]);
    }
  }

  /** Where a call for this system and request can stand. */
  predicate WorksOn(pc: Pc, system: string, request: nat) {
    var known := system in {"axios_hq", "axios_headquarters", "paylocity", "lever", "hr_alumni", "bizdev_contacts"};
    match pc
    case NotFound => !known
    case Violated => known
    case _ => known && pc.key == Key(if system == "axios_hq" then "axios_headquarters" else system, request)
  }

  /** A call is refused exactly for an unknown system, and otherwise works on its own key to the end. */
  lemma {:induction false} CallKeepsKey(states: seq<State>, actions: seq<Action>, openIndex: bool,
                                        i: nat, j: nat, c: CallId, system: string, request: nat)
    requires Run(states, actions, openIndex) && i < j < |states| && actions[i] == Call(c, system, request)
    ensures c in states[j].calls && WorksOn(states[j].calls[c], system, request)
  {
    assert StepsTo(states[j - 1], actions[j - 1], states[j], openIndex);
    if j == i + 1 {
      KnownSystems(system);
    } else {
      CallKeepsKey(states, actions, openIndex, i, j - 1, c, system, request);
    }
  }

  ghost predicate OpenDuring(states: seq<State>, i: nat, j: nat, id: nat, key: Key) {
    exists k :: OpenMoment(states, i, j, k, id, key)
  }

  ghost predicate OpenMoment(states: seq<State>, i: nat, j: nat, k: int, id: nat, key: Key) {
    i <= k <= j && k < |states| && OpenAt(states[k].rows, id, key)
  }

  /** An id is only ever returned for an attempt of the caller's key that was under way at some moment of the call. */
  lemma {:induction false} ReturnedWasOpen(states: seq<State>, actions: seq<Action>, openIndex: bool,
                                           i: nat, j: nat, c: CallId)
    requires Run(states, actions, openIndex) && i <= j < |states|
    requires c !in states[i].calls && c in states[j].calls && states[j].calls[c].Returned?
    ensures OpenDuring(states, i, j, states[j].calls[c].id, states[j].calls[c].key)
  {
    var s, a, t := states[j - 1], actions[j - 1], states[j];
    assert StepsTo(s, a, t, openIndex);
    var id, key := t.calls[c].id, t.calls[c].key;
    if c in s.calls && s.calls[c] == t.calls[c] {
      ReturnedWasOpen(states, actions, openIndex, i, j - 1, c);
      var k :| OpenMoment(states, i, j - 1, k, id, key);
      assert OpenMoment(states, i, j, k, id, key);
    } else {
      assert OpenMoment(states, i, j, j, id, key);
    }
  }

  // ---- the code, run by one caller ------------------------------------------------------------------

  class Attempts {
    var rows: seq<Attempt>

    constructor ()
      ensures rows == []
    {
      rows := [];
    }

    method FindOpen(key: Key) returns (found: Option<nat>)
      ensures Answer(rows, key, found)
    {
      for i := 0 to |rows|
        invariant forall k :: 0 <= k < i ==> !OpenAt(rows, k, key)
      {
        if OpenAt(rows, i, key) {
          return Some(i);
        }
      }
      found := None;
    }

    /** Alone, a call returns the attempt under way or adds exactly one, and never runs into a violation. */
    method EnqueueRemainingMatching(system: string, request: nat) returns (attempt: Option<nat>)
      requires AllNumbered(rows)
      modifies this
      ensures AllNumbered(rows)
      ensures attempt.None? <==> Canonical(system) !in SYSTEMS
      ensures attempt.None? ==> rows == old(rows)
      ensures attempt.Some? ==>
        var key := Key(Canonical(system), request);
        && OpenAt(rows, attempt.value, key)
        && (if SomeOpen(old(rows), key) then rows == old(rows)
            else rows == old(rows) + [NewAttempt(key, KeyCount(old(rows), key) + 1)])
    {
      if Canonical(system) !in SYSTEMS {
        return None;
      }
      var key := Key(Canonical(system), request);
      var existing := FindOpen(key);
      if existing.Some? {
        return existing;
      }
      var number := MaxNumber(rows, key) + 1;
      MaxIsCount(rows, key);
      TakenExactly(rows, key, number);
      AllAppend(rows, NewAttempt(key, number));
      if NumberTaken(rows, key, number) {
        attempt := FindOpen(key);
      } else {
        attempt := Some(|rows|);
        rows := rows + [NewAttempt(key, number)];
      }
    }
  }
}
