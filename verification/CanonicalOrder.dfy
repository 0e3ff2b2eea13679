/**
The canonical ordering of combining marks in Unicode normalisation (Unicode Standard
Annex #15): within each run of characters whose combining class is not zero, characters
are ordered by class, and those of one class keep their order. The results say when
ordering a concatenation equals ordering its parts.
*/
module CanonicalOrder {
  type Classes = char -> nat

  /** The new last character moves left past marks of a higher class; a starter moves past nothing. */
  function Insert(ccc: Classes, x: string, c: char): string {
    if x == [] || ccc(c) == 0 || ccc(x[|x| - 1]) <= ccc(c) then x + [c]
    else Insert(ccc, x[..|x| - 1], c) + [x[|x| - 1]]
  }

  function Reorder(ccc: Classes, t: string): string {
    if t == [] then [] else Insert(ccc, Reorder(ccc, t[..|t| - 1]), t[|t| - 1])
  }

  /** No mark stands directly before one of a lower class. */
  ghost predicate Ordered(ccc: Classes, x: string) {
    forall i | 0 < i < |x| && ccc(x[i]) > 0 :: ccc(x[i - 1]) <= ccc(x[i])
  }

  function OfClass(ccc: Classes, x: string, k: nat): string {
    if x == [] then []
    else OfClass(ccc, x[..|x| - 1], k) + if ccc(x[|x| - 1]) == k then [x[|x| - 1]] else []
  }

  /** The same length, with the same starters at the same places. */
  ghost predicate SameStarters(ccc: Classes, x: string, y: string) {
    |x| == |y| && forall i | 0 <= i < |x| && (ccc(x[i]) == 0 || ccc(y[i]) == 0) :: x[i] == y[i]
  }

  // ---- what ordering does -----------------------------------------------------------------------

  lemma {:induction false} InsertOrdered(ccc: Classes, x: string, c: char)
    requires Ordered(ccc, x)
    ensures var r := Insert(ccc, x, c);
      && Ordered(ccc, r) && |r| == |x| + 1
      && (r[|x|] == c || (x != [] && r[|x|] == x[|x| - 1] && ccc(c) < ccc(r[|x|])))
  {
    if x == [] || ccc(c) == 0 || ccc(x[|x| - 1]) <= ccc(c) {
    } else {
      InsertOrdered(ccc, x[..|x| - 1], c);
    }
  }

  lemma {:induction false} InsertKeeps(ccc: Classes, x: string, c: char)
    ensures SameStarters(ccc, Insert(ccc, x, c), x + [c])
    ensures multiset(Insert(ccc, x, c)) == multiset(x + [c])
  {
    if x == [] || ccc(c) == 0 || ccc(x[|x| - 1]) <= ccc(c) {
    } else {
      var front, last := x[..|x| - 1], x[|x| - 1];
      InsertKeeps(ccc, front, c);
      assert x == front + [last];
      assert ccc(last) > 0 && ccc(c) > 0;
    }
  }

  lemma {:induction false} InsertClass(ccc: Classes, x: string, c: char, k: nat)
    ensures OfClass(ccc, Insert(ccc, x, c), k) == OfClass(ccc, x + [c], k)
  {
    assert (x + [c])[..|x|] == x;
    if x == [] || ccc(c) == 0 || ccc(x[|x| - 1]) <= ccc(c) {
    } else {
      var front, last := x[..|x| - 1], x[|x| - 1];
      InsertClass(ccc, front, c, k);
      assert (front + [c])[..|front|] == front;
      var r := Insert(ccc, front, c) + [last];
      assert r[..|r| - 1] == Insert(ccc, front, c);
    }
  }

  lemma {:induction false} ReorderOrders(ccc: Classes, t: string)
    ensures Ordered(ccc, Reorder(ccc, t))
  {
    if t != [] {
      ReorderOrders(ccc, t[..|t| - 1]);
      InsertOrdered(ccc, Reorder(ccc, t[..|t| - 1]), t[|t| - 1]);
    }
  }

  lemma {:induction false} ReorderKeeps(ccc: Classes, t: string)
    ensures multiset(Reorder(ccc, t)) == multiset(t) && SameStarters(ccc, Reorder(ccc, t), t)
  {
    if t != [] {
      var front, c := t[..|t| - 1], t[|t| - 1];
      ReorderKeeps(ccc, front);
      InsertKeeps(ccc, Reorder(ccc, front), c);
      assert t == front + [c];
    }
  }

  lemma {:induction false} ReorderClass(ccc: Classes, t: string, k: nat)
    ensures OfClass(ccc, Reorder(ccc, t), k) == OfClass(ccc, t, k)
  {
    if t != [] {
      var x := Reorder(ccc, t[..|t| - 1]);
      ReorderClass(ccc, t[..|t| - 1], k);
      InsertClass(ccc, x, t[|t| - 1], k);
      assert (x + [t[|t| - 1]])[..|x|] == x;
    }
  }

  /**
   The result is ordered, holds the same characters, leaves every starter in place, and
   keeps the order of the characters of each class: a stable sort of every run of marks.
   */
  lemma ReorderIsStableSort(ccc: Classes, t: string)
    ensures var r := Reorder(ccc, t);
      && Ordered(ccc, r) && multiset(r) == multiset(t) && SameStarters(ccc, r, t)
      && forall k: nat :: OfClass(ccc, r, k) == OfClass(ccc, t, k)
  {
    ReorderOrders(ccc, t);
    ReorderKeeps(ccc, t);
    forall k: nat ensures OfClass(ccc, Reorder(ccc, t), k) == OfClass(ccc, t, k) {
      ReorderClass(ccc, t, k);
    }
  }

  /** Text that is in order stays as it is. */
  lemma {:induction false} OrderedStays(ccc: Classes, t: string)
    requires Ordered(ccc, t)
    ensures Reorder(ccc, t) == t
  {
    if t != [] {
      var front, c := t[..|t| - 1], t[|t| - 1];
      OrderedStays(ccc, front);
      assert t == front + [c];
    }
  }

  // ---- the marks at either end --------------------------------------------------------------------

  function LastClass(ccc: Classes, x: string): nat {
    if x == [] then 0 else ccc(x[|x| - 1])
  }

  /** The highest class among the marks that end the text. */
  function TrailingMax(ccc: Classes, x: string): nat {
    if x == [] || ccc(x[|x| - 1]) == 0 then 0
    else
      var rest := TrailingMax(ccc, x[..|x| - 1]);
      if rest < ccc(x[|x| - 1]) then ccc(x[|x| - 1]) else rest
  }

  lemma {:induction false} InsertLast(ccc: Classes, x: string, c: char)
    ensures LastClass(ccc, Insert(ccc, x, c)) ==
      if ccc(c) == 0 then 0 else if LastClass(ccc, x) < ccc(c) then ccc(c) else LastClass(ccc, x)
  {
  }

  /** After ordering, the last mark is one of the highest class. */
  lemma {:induction false} ReorderLast(ccc: Classes, t: string)
    ensures LastClass(ccc, Reorder(ccc, t)) == TrailingMax(ccc, t)
  {
    if t != [] {
      ReorderLast(ccc, t[..|t| - 1]);
      InsertLast(ccc, Reorder(ccc, t[..|t| - 1]), t[|t| - 1]);
    }
  }

  ghost predicate AllMarks(ccc: Classes, x: string) {
    forall i | 0 <= i < |x| :: ccc(x[i]) > 0
  }

  /** No mark that begins the text has a class below the bound. */
  ghost predicate LeadsFrom(ccc: Classes, x: string, bound: nat) {
    forall j | 0 <= j < |x| && AllMarks(ccc, x[..j + 1]) :: bound <= ccc(x[j])
  }

  lemma LeadsSnoc(ccc: Classes, x: string, c: char, bound: nat)
    ensures LeadsFrom(ccc, x + [c], bound) <==>
      LeadsFrom(ccc, x, bound) && (AllMarks(ccc, x) && ccc(c) > 0 ==> bound <= ccc(c))
  {
    var all := x + [c];
    assert forall j | 0 <= j < |x| :: all[..j + 1] == x[..j + 1] && all[j] == x[j];
    assert all[..|x| + 1] == all;
    assert all[|x|] == c;
    assert AllMarks(ccc, all) <==> AllMarks(ccc, x) && ccc(c) > 0 by {
      assert forall j | 0 <= j < |x| :: all[j] == x[j];
    }
    if LeadsFrom(ccc, all, bound) {
      forall j | 0 <= j < |x| && AllMarks(ccc, x[..j + 1]) ensures bound <= ccc(x[j]) {
        assert AllMarks(ccc, all[..j + 1]);
      }
      if AllMarks(ccc, x) && ccc(c) > 0 {
        assert AllMarks(ccc, all[..|x| + 1]);
      }
    }
  }

  /** Text that does not begin with a mark has no leading marks to bound. */
  lemma {:induction false} LeadsStarter(ccc: Classes, x: string, bound: nat)
    requires x == [] || ccc(x[0]) == 0
    ensures LeadsFrom(ccc, x, bound)
  {
    if x != [] {
      var front, c := x[..|x| - 1], x[|x| - 1];
      assert x == front + [c];
      assert front != [] ==> front[0] == x[0];
      LeadsStarter(ccc, front, bound);
      LeadsSnoc(ccc, front, c, bound);
    }
  }

  // ---- ordering a concatenation ----------------------------------------------------------------------

  /** Ordering b behind a is ordering a and b apart. */
  lemma {:induction false} ReorderConcat(ccc: Classes, a: string, b: string)
    requires LeadsFrom(ccc, b, TrailingMax(ccc, a))
    ensures Reorder(ccc, a + b) == Reorder(ccc, a) + Reorder(ccc, b)
  {
    if b == [] {
      assert a + b == a;
    } else {
      var front, c := b[..|b| - 1], b[|b| - 1];
      assert b == front + [c];
      LeadsSnoc(ccc, front, c, TrailingMax(ccc, a));
      ReorderConcat(ccc, a, front);
      assert (a + b)[..|a + b| - 1] == a + front;
      ReorderLast(ccc, a);
      MarksKept(ccc, front);
      InsertBehind(ccc, Reorder(ccc, a), Reorder(ccc, front), c);
    }
  }

  lemma MarksKept(ccc: Classes, t: string)
    ensures AllMarks(ccc, Reorder(ccc, t)) <==> AllMarks(ccc, t)
  {
    ReorderKeeps(ccc, t);
    var r := Reorder(ccc, t);
    forall i | 0 <= i < |t| ensures ccc(r[i]) > 0 <==> ccc(t[i]) > 0 {
    }
  }

  /** Insertion into the second of two parts does not reach the first. */
  lemma {:induction false} InsertBehind(ccc: Classes, x: string, y: string, c: char)
    requires AllMarks(ccc, y) && ccc(c) > 0 ==> LastClass(ccc, x) <= ccc(c)
    ensures Insert(ccc, x + y, c) == x + Insert(ccc, y, c)
  {
    if y == [] {
      assert x + y == x;
    } else if ccc(c) == 0 || ccc(y[|y| - 1]) <= ccc(c) {
      assert (x + y)[|x + y| - 1] == y[|y| - 1];
      assert x + y + [c] == x + (y + [c]);
    } else {
      var front, last := y[..|y| - 1], y[|y| - 1];
      assert y == front + [last];
      assert (x + y)[..|x + y| - 1] == x + front;
      assert AllMarks(ccc, front) ==> AllMarks(ccc, y);
      InsertBehind(ccc, x, front, c);
      assert x + Insert(ccc, front, c) + [last] == x + (Insert(ccc, front, c) + [last]);
    }
  }

  /** If the two ordered parts put together are in order, no leading mark of b is below a trailing one of a. */
  lemma OrderedJunction(ccc: Classes, a: string, b: string)
    requires Ordered(ccc, Reorder(ccc, a) + Reorder(ccc, b))
    ensures LeadsFrom(ccc, b, TrailingMax(ccc, a))
  {
    var x, y := Reorder(ccc, a), Reorder(ccc, b);
    ReorderLast(ccc, a);
    assert LeadsFrom(ccc, y, TrailingMax(ccc, a)) by {
      if x != [] {
        OrderedLeads(ccc, x, y);
      }
    }
    LeadsBack(ccc, b, TrailingMax(ccc, a));
  }

  lemma OrderedLeads(ccc: Classes, x: string, y: string)
    requires Ordered(ccc, x + y) && x != []
    ensures LeadsFrom(ccc, y, LastClass(ccc, x))
  {
    forall j | 0 <= j < |y| && AllMarks(ccc, y[..j + 1]) ensures LastClass(ccc, x) <= ccc(y[j]) {
      RunRises(ccc, x, y, j);
    }
  }

  lemma {:induction false} RunRises(ccc: Classes, x: string, y: string, j: nat)
    requires Ordered(ccc, x + y) && x != [] && j < |y| && AllMarks(ccc, y[..j + 1])
    ensures LastClass(ccc, x) <= ccc(y[j])
  {
    var z := x + y;
    assert z[|x| + j] == y[j] == y[..j + 1][j];
    assert ccc(z[|x| + j - 1]) <= ccc(z[|x| + j]);
    if j > 0 {
      assert AllMarks(ccc, y[..j]) by {
        assert forall i | 0 <= i < j :: y[..j][i] == y[..j + 1][i];
      }
      RunRises(ccc, x, y, j - 1);
    }
  }

  /** A bound on the leading marks after ordering holds before it. */
  lemma {:induction false} LeadsBack(ccc: Classes, t: string, bound: nat)
    requires LeadsFrom(ccc, Reorder(ccc, t), bound)
    ensures LeadsFrom(ccc, t, bound)
  {
    if t != [] {
      var front, c := t[..|t| - 1], t[|t| - 1];
      assert t == front + [c];
      InsertLeads(ccc, Reorder(ccc, front), c, bound);
      LeadsBack(ccc, front, bound);
      MarksKept(ccc, front);
      LeadsSnoc(ccc, front, c, bound);
    }
  }

  lemma {:induction false} InsertLeads(ccc: Classes, x: string, c: char, bound: nat)
    requires LeadsFrom(ccc, Insert(ccc, x, c), bound)
    ensures LeadsFrom(ccc, x, bound) && (AllMarks(ccc, x) && ccc(c) > 0 ==> bound <= ccc(c))
  {
    LeadsSnoc(ccc, x, c, bound);
    if x == [] || ccc(c) == 0 || ccc(x[|x| - 1]) <= ccc(c) {
    } else {
      var front, last := x[..|x| - 1], x[|x| - 1];
      assert x == front + [last];
      LeadsSnoc(ccc, Insert(ccc, front, c), last, bound);
      InsertLeads(ccc, front, c, bound);
      LeadsSnoc(ccc, front, last, bound);
      InsertKeeps(ccc, front, c);
      MarksOfInsert(ccc, front, c);
    }
  }

  lemma MarksOfInsert(ccc: Classes, x: string, c: char)
    ensures AllMarks(ccc, Insert(ccc, x, c)) <==> AllMarks(ccc, x) && ccc(c) > 0
  {
    InsertKeeps(ccc, x, c);
    var r := Insert(ccc, x, c);
    forall i | 0 <= i < |r| ensures ccc(r[i]) > 0 <==> ccc((x + [c])[i]) > 0 {
    }
    assert forall i | 0 <= i < |x| :: (x + [c])[i] == x[i];
    assert (x + [c])[|x|] == c;
  }

  /** Ordering a concatenation orders the parts exactly when no leading mark of b is below a trailing one of a. */
  lemma ReorderConcatExactly(ccc: Classes, a: string, b: string)
    ensures Reorder(ccc, a + b) == Reorder(ccc, a) + Reorder(ccc, b) <==> LeadsFrom(ccc, b, TrailingMax(ccc, a))
  {
    if LeadsFrom(ccc, b, TrailingMax(ccc, a)) {
      ReorderConcat(ccc, a, b);
    }
    if Reorder(ccc, a + b) == Reorder(ccc, a) + Reorder(ccc, b) {
      ReorderOrders(ccc, a + b);
      OrderedJunction(ccc, a, b);
    }
  }

  // ---- ordering before a filter -----------------------------------------------------------------------

  /** The characters a filter keeps. */
  function Kept(keep: char -> bool, t: string): string {
    if t == [] then [] else Kept(keep, t[..|t| - 1]) + if keep(t[|t| - 1]) then [t[|t| - 1]] else []
  }

  /** Without the marks the filter drops; dropped starters still separate runs. */
  function Lean(ccc: Classes, keep: char -> bool, t: string): string {
    if t == [] then []
    else
      var last := t[|t| - 1];
      Lean(ccc, keep, t[..|t| - 1]) + if keep(last) || ccc(last) == 0 then [last] else []
  }

  lemma {:induction false} KeptConcat(keep: char -> bool, a: string, b: string)
    ensures Kept(keep, a + b) == Kept(keep, a) + Kept(keep, b)
  {
    if b == [] {
      assert a + b == a;
    } else {
      assert (a + b)[..|a + b| - 1] == a + b[..|b| - 1];
      KeptConcat(keep, a, b[..|b| - 1]);
    }
  }

  lemma KeptSnoc(keep: char -> bool, t: string, c: char)
    ensures Kept(keep, t + [c]) == Kept(keep, t) + if keep(c) then [c] else []
  {
    assert (t + [c])[..|t|] == t;
  }

  lemma {:induction false} LeanConcat(ccc: Classes, keep: char -> bool, a: string, b: string)
    ensures Lean(ccc, keep, a + b) == Lean(ccc, keep, a) + Lean(ccc, keep, b)
  {
    if b == [] {
      assert a + b == a;
    } else {
      assert (a + b)[..|a + b| - 1] == a + b[..|b| - 1];
      LeanConcat(ccc, keep, a, b[..|b| - 1]);
    }
  }

  lemma LeanSnoc(ccc: Classes, keep: char -> bool, t: string, c: char)
    ensures Lean(ccc, keep, t + [c]) == Lean(ccc, keep, t) + if keep(c) || ccc(c) == 0 then [c] else []
  {
    assert (t + [c])[..|t|] == t;
  }

  /** The filter keeps the same of lean text. */
  lemma {:induction false} KeptOfLean(ccc: Classes, keep: char -> bool, t: string)
    ensures Kept(keep, Lean(ccc, keep, t)) == Kept(keep, t)
  {
    if t != [] {
      var front, c := t[..|t| - 1], t[|t| - 1];
      KeptOfLean(ccc, keep, front);
      KeptSnoc(keep, Lean(ccc, keep, front), c);
      assert Lean(ccc, keep, front) + [] == Lean(ccc, keep, front);
    }
  }

  lemma {:induction false} LeanIsLean(ccc: Classes, keep: char -> bool, t: string)
    ensures IsLean(ccc, keep, Lean(ccc, keep, t))
  {
    if t != [] {
      LeanIsLean(ccc, keep, t[..|t| - 1]);
    }
  }

  /** Dropping marks does not raise the last class of ordered text. */
  lemma {:induction false} LeanLast(ccc: Classes, keep: char -> bool, x: string)
    requires Ordered(ccc, x)
    ensures LastClass(ccc, Lean(ccc, keep, x)) <= LastClass(ccc, x)
  {
    if x != [] {
      var front, last := x[..|x| - 1], x[|x| - 1];
      LeanLast(ccc, keep, front);
      if ccc(last) > 0 && front != [] {
        assert ccc(x[|x| - 2]) <= ccc(x[|x| - 1]);
      }
    }
  }

  lemma {:induction false} LeanInsert(ccc: Classes, keep: char -> bool, x: string, c: char)
    requires Ordered(ccc, x)
    ensures Lean(ccc, keep, Insert(ccc, x, c)) ==
      if keep(c) || ccc(c) == 0 then Insert(ccc, Lean(ccc, keep, x), c) else Lean(ccc, keep, x)
  {
    if x == [] || ccc(c) == 0 || ccc(x[|x| - 1]) <= ccc(c) {
      LeanSnoc(ccc, keep, x, c);
      LeanLast(ccc, keep, x);
    } else {
      var front, last := x[..|x| - 1], x[|x| - 1];
      LeanInsert(ccc, keep, front, c);
      LeanSnoc(ccc, keep, Insert(ccc, front, c), last);
      InsertAbove(ccc, Lean(ccc, keep, front), last, c);
      if !keep(last) {
        assert Lean(ccc, keep, x) == Lean(ccc, keep, front);
        assert Lean(ccc, keep, Insert(ccc, front, c) + [last]) == Lean(ccc, keep, Insert(ccc, front, c));
      }
    }
  }

  lemma InsertAbove(ccc: Classes, x: string, last: char, c: char)
    requires ccc(c) > 0 && ccc(last) > ccc(c)
    ensures Insert(ccc, x + [last], c) == Insert(ccc, x, c) + [last]
  {
    assert (x + [last])[..|x|] == x;
  }

  /** Dropping marks and ordering commute. */
  lemma {:induction false} LeanReorder(ccc: Classes, keep: char -> bool, t: string)
    ensures Lean(ccc, keep, Reorder(ccc, t)) == Reorder(ccc, Lean(ccc, keep, t))
  {
    if t != [] {
      var front, c := t[..|t| - 1], t[|t| - 1];
      LeanReorder(ccc, keep, front);
      ReorderOrders(ccc, front);
      LeanInsert(ccc, keep, Reorder(ccc, front), c);
      ReorderSnoc(ccc, Lean(ccc, keep, front), c);
      assert Lean(ccc, keep, front) + [] == Lean(ccc, keep, front);
    }
  }

  lemma ReorderSnoc(ccc: Classes, t: string, c: char)
    ensures Reorder(ccc, t + [c]) == Insert(ccc, Reorder(ccc, t), c)
  {
    assert (t + [c])[..|t|] == t;
  }

  /** Only kept characters and starters. */
  ghost predicate IsLean(ccc: Classes, keep: char -> bool, x: string) {
    forall i | 0 <= i < |x| :: keep(x[i]) || ccc(x[i]) == 0
  }

  /** Lean texts with the same starters in the same places differ only where the filter can see it. */
  lemma {:induction false} KeptTells(ccc: Classes, keep: char -> bool, x: string, y: string)
    requires SameStarters(ccc, x, y) && IsLean(ccc, keep, x) && IsLean(ccc, keep, y)
    requires Kept(keep, x) == Kept(keep, y)
    ensures x == y
  {
    if x != [] {
      var m, n := x[|x| - 1], y[|y| - 1];
      var front, back := x[..|x| - 1], y[..|y| - 1];
      assert keep(m) <==> keep(n);
      if keep(m) {
        SameEnds(Kept(keep, front), m, Kept(keep, back), n);
      } else {
        assert Kept(keep, x) == Kept(keep, front) && Kept(keep, y) == Kept(keep, back);
      }
      KeptTells(ccc, keep, front, back);
      assert x == front + [m] && y == back + [n];
    }
  }

  lemma SameEnds(x: string, c: char, y: string, d: char)
    requires x + [c] == y + [d]
    ensures x == y && c == d
  {
    assert x == (x + [c])[..|x|] && y == (y + [d])[..|y|];
    assert c == (x + [c])[|x|] && d == (y + [d])[|y|];
  }

  lemma ReorderIsLean(ccc: Classes, keep: char -> bool, x: string)
    requires IsLean(ccc, keep, x)
    ensures IsLean(ccc, keep, Reorder(ccc, x))
  {
    ReorderKeeps(ccc, x);
    var r := Reorder(ccc, x);
    forall i | 0 <= i < |r| ensures keep(r[i]) || ccc(r[i]) == 0 {
      assert r[i] in multiset(r);
      assert r[i] in multiset(x);
    }
  }

  lemma KeptReorder(ccc: Classes, keep: char -> bool, t: string)
    ensures Kept(keep, Reorder(ccc, t)) == Kept(keep, Reorder(ccc, Lean(ccc, keep, t)))
  {
    LeanReorder(ccc, keep, t);
    KeptOfLean(ccc, keep, Reorder(ccc, t));
  }

  /** Ordering changes nothing a filter keeps exactly when the kept marks of every run are in order. */
  lemma KeptReorderExactly(ccc: Classes, keep: char -> bool, t: string)
    ensures Kept(keep, Reorder(ccc, t)) == Kept(keep, t) <==> Ordered(ccc, Lean(ccc, keep, t))
  {
    var x := Lean(ccc, keep, t);
    KeptReorder(ccc, keep, t);
    KeptOfLean(ccc, keep, t);
    LeanIsLean(ccc, keep, t);
    if Ordered(ccc, x) {
      OrderedStays(ccc, x);
    }
    if Kept(keep, Reorder(ccc, x)) == Kept(keep, x) {
      ReorderKeeps(ccc, x);
      ReorderIsLean(ccc, keep, x);
      KeptTells(ccc, keep, Reorder(ccc, x), x);
      ReorderOrders(ccc, x);
    }
  }

  /** No kept mark that begins b has a class below a kept mark that ends a. */
  ghost predicate Meet(ccc: Classes, keep: char -> bool, a: string, b: string) {
    LeadsFrom(ccc, Lean(ccc, keep, b), TrailingMax(ccc, Lean(ccc, keep, a)))
  }

  /** Ordering and filtering a concatenation gives the parts exactly when they meet in order. */
  lemma KeptConcatExactly(ccc: Classes, keep: char -> bool, a: string, b: string)
    ensures Kept(keep, Reorder(ccc, a + b)) == Kept(keep, Reorder(ccc, a)) + Kept(keep, Reorder(ccc, b))
      <==> Meet(ccc, keep, a, b)
  {
    var x, y := Lean(ccc, keep, a), Lean(ccc, keep, b);
    LeanConcat(ccc, keep, a, b);
    KeptReorder(ccc, keep, a + b);
    KeptReorder(ccc, keep, a);
    KeptReorder(ccc, keep, b);
    var whole, parts := Reorder(ccc, x + y), Reorder(ccc, x) + Reorder(ccc, y);
    KeptConcat(keep, Reorder(ccc, x), Reorder(ccc, y));
    ReorderConcatExactly(ccc, x, y);
    if Kept(keep, whole) == Kept(keep, parts) {
      LeanIsLean(ccc, keep, a);
      LeanIsLean(ccc, keep, b);
      WholeAndParts(ccc, keep, x, y);
      KeptTells(ccc, keep, whole, parts);
    }
  }

  lemma WholeAndParts(ccc: Classes, keep: char -> bool, x: string, y: string)
    requires IsLean(ccc, keep, x) && IsLean(ccc, keep, y)
    ensures var whole, parts := Reorder(ccc, x + y), Reorder(ccc, x) + Reorder(ccc, y);
      SameStarters(ccc, whole, parts) && IsLean(ccc, keep, whole) && IsLean(ccc, keep, parts)
  {
    ReorderKeeps(ccc, x);
    ReorderKeeps(ccc, y);
    ReorderKeeps(ccc, x + y);
    StartersJoin(ccc, Reorder(ccc, x), x, Reorder(ccc, y), y);
    StartersMatch(ccc, Reorder(ccc, x + y), Reorder(ccc, x) + Reorder(ccc, y), x + y);
    ReorderIsLean(ccc, keep, x);
    ReorderIsLean(ccc, keep, y);
    LeanJoin(ccc, keep, Reorder(ccc, x), Reorder(ccc, y));
    LeanJoin(ccc, keep, x, y);
    ReorderIsLean(ccc, keep, x + y);
  }

  lemma StartersJoin(ccc: Classes, a: string, x: string, b: string, y: string)
    requires SameStarters(ccc, a, x) && SameStarters(ccc, b, y)
    ensures SameStarters(ccc, a + b, x + y)
  {
  }

  lemma StartersMatch(ccc: Classes, a: string, b: string, x: string)
    requires SameStarters(ccc, a, x) && SameStarters(ccc, b, x)
    ensures SameStarters(ccc, a, b)
  {
  }

  lemma LeanJoin(ccc: Classes, keep: char -> bool, a: string, b: string)
    requires IsLean(ccc, keep, a) && IsLean(ccc, keep, b)
    ensures IsLean(ccc, keep, a + b)
  {
  }

  /** Two kept marks meet in order exactly when the second is not of a lower class. */
  lemma TwoMarks(ccc: Classes, keep: char -> bool, a: char, b: char)
    requires keep(a) && keep(b) && ccc(a) > 0 && ccc(b) > 0
    ensures Meet(ccc, keep, [a], [b]) <==> ccc(a) <= ccc(b)
    ensures Ordered(ccc, Lean(ccc, keep, [a] + [b])) <==> ccc(a) <= ccc(b)
  {
    LeanSnoc(ccc, keep, [], a);
    LeanSnoc(ccc, keep, [], b);
    LeanConcat(ccc, keep, [a], [b]);
    assert [] + [a] == [a] && [] + [b] == [b];
    assert TrailingMax(ccc, [a]) == ccc(a);
    assert [b][..1] == [b] && [b][0] == b;
    assert LeadsFrom(ccc, [b], ccc(a)) <==> ccc(a) <= ccc(b) by {
      assert AllMarks(ccc, [b][..1]);
    }
    assert ([a] + [b])[0] == a && ([a] + [b])[1] == b;
  }
}
