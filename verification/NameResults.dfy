/**
What normalisation means: up to the canonical order of marks it acts letter by
letter, and it distributes over a concatenation exactly when the marks meet in order;
its output uses only characters the filter accepts; and a second run changes a name
exactly when it holds one of three letters.
*/
module NameResults {
  import opened CanonicalOrder
  import opened Common
  import opened NameTables
  import opened NameNormalize

  // ---- what is kept --------------------------------------------------------------

  predicate IsKept(c: char) {
    IsAlnum(c) && !IsMark(c)
  }

  function Strip(t: string): string {
    KeepAlnum(DropMarks(t))
  }

  lemma {:induction false} StripConcat(a: string, b: string)
    ensures Strip(a + b) == Strip(a) + Strip(b)
  {
    DropMarksConcat(a, b);
    KeepAlnumConcat(DropMarks(a), DropMarks(b));
  }

  /** Stripping marks and filtering keep what one filter keeps. */
  lemma {:induction false} StripIsKept(t: string)
    ensures Strip(t) == Kept(IsKept, t)
  {
    if t != [] {
      var front, c := t[..|t| - 1], t[|t| - 1];
      StripIsKept(front);
      assert t == front + [c];
      StripConcat(front, [c]);
      StripChar(c);
    }
  }

  lemma StripChar(c: char)
    ensures Strip([c]) == if IsKept(c) then [c] else []
  {
    assert DropMarks([c]) == (if IsMark(c) then [] else [c]) + DropMarks([c][1..]);
    assert KeepAlnum([c]) == (if IsAlnum(c) then [c] else []) + KeepAlnum([c][1..]);
  }

  lemma {:induction false} DecomposeConcat(u: Unicode, a: string, b: string)
    ensures Decompose(u, a + b) == Decompose(u, a) + Decompose(u, b)
  {
    if a == [] {
      assert a + b == b;
    } else {
      assert (a + b)[1..] == a[1..] + b;
      DecomposeConcat(u, a[1..], b);
    }
  }

  lemma {:induction false} DropMarksConcat(a: string, b: string)
    ensures DropMarks(a + b) == DropMarks(a) + DropMarks(b)
  {
    if a == [] {
      assert a + b == b;
    } else {
      assert (a + b)[1..] == a[1..] + b;
      DropMarksConcat(a[1..], b);
    }
  }

  lemma {:induction false} KeepAlnumConcat(a: string, b: string)
    ensures KeepAlnum(a + b) == KeepAlnum(a) + KeepAlnum(b)
  {
    if a == [] {
      assert a + b == b;
    } else {
      var head := if IsAlnum(a[0]) then [a[0]] else [];
      assert (a + b)[1..] == a[1..] + b;
      KeepAlnumConcat(a[1..], b);
      assert KeepAlnum(a + b) == head + KeepAlnum(a[1..] + b);
    }
  }

  // ---- the passes after lower-casing, character by character -----------------

  /** The four tables, each as a substitution of single characters. */
  function Rewritten(tb: Tables, t: string): string {
    Singles(tb.latin, tb.latin.Keys,
      Singles(tb.cyrillic, tb.cyrillic.Keys,
        Singles(tb.greek, tb.greek.Keys,
          Singles(tb.special, tb.special.Keys, t))))
  }

  /** What one input character is rewritten and decomposed to, wherever it stands. */
  function Spread(u: Unicode, tb: Tables, c: char): string {
    Decompose(u, Rewritten(tb, if c == 'Σ' then "σ" else u.lower(c)))
  }

  /** The decomposed text of a name, letter by letter, before its marks are ordered. */
  function Expanded(u: Unicode, tb: Tables, s: string): string {
    if s == [] then [] else Spread(u, tb, s[0]) + Expanded(u, tb, s[1..])
  }

  /** Decomposition, stripping and filtering without the ordering of marks. */
  function Bare(u: Unicode, t: string): string {
    Strip(Decompose(u, t))
  }

  function Passes(u: Unicode, tb: Tables, t: string): string {
    Bare(u, Rewritten(tb, t))
  }

  /** The contribution of one input character, wherever it stands. */
  function PerChar(u: Unicode, tb: Tables, c: char): string {
    Strip(Spread(u, tb, c))
  }

  function Letterwise(u: Unicode, tb: Tables, s: string): string {
    if s == [] then [] else PerChar(u, tb, s[0]) + Letterwise(u, tb, s[1..])
  }

  /** Empty stands for null. */
  function Text(o: Option<string>): string {
    if o.None? then [] else o.value
  }

  /** U+0307 decomposes into combining marks that are stripped (it is its own decomposition). */
  ghost predicate DotVanishes(u: Unicode) {
    forall i | 0 <= i < |u.decomp(DOT_ABOVE)| ::
      0x300 <= u.decomp(DOT_ABOVE)[i] as int <= 0x36f && u.ccc(u.decomp(DOT_ABOVE)[i]) > 0
  }

  lemma BareConcat(u: Unicode, a: string, b: string)
    ensures Bare(u, a + b) == Bare(u, a) + Bare(u, b)
  {
    DecomposeConcat(u, a, b);
    StripConcat(Decompose(u, a), Decompose(u, b));
  }

  lemma RewrittenConcat(tb: Tables, a: string, b: string)
    ensures Rewritten(tb, a + b) == Rewritten(tb, a) + Rewritten(tb, b)
  {
    SinglesConcat(tb.special, tb.special.Keys, a, b);
    var a1, b1 := Singles(tb.special, tb.special.Keys, a), Singles(tb.special, tb.special.Keys, b);
    SinglesConcat(tb.greek, tb.greek.Keys, a1, b1);
    var a2, b2 := Singles(tb.greek, tb.greek.Keys, a1), Singles(tb.greek, tb.greek.Keys, b1);
    SinglesConcat(tb.cyrillic, tb.cyrillic.Keys, a2, b2);
    var a3, b3 := Singles(tb.cyrillic, tb.cyrillic.Keys, a2), Singles(tb.cyrillic, tb.cyrillic.Keys, b2);
    SinglesConcat(tb.latin, tb.latin.Keys, a3, b3);
  }

  /** Decomposed, with the marks that will be stripped left out. */
  function LeanText(u: Unicode, t: string): string {
    Lean(u.ccc, IsKept, Decompose(u, t))
  }

  lemma LeanTextConcat(u: Unicode, a: string, b: string)
    ensures LeanText(u, a + b) == LeanText(u, a) + LeanText(u, b)
  {
    DecomposeConcat(u, a, b);
    LeanConcat(u.ccc, IsKept, Decompose(u, a), Decompose(u, b));
  }

  lemma {:induction false} AllDropped(u: Unicode, t: string)
    requires forall i | 0 <= i < |t| :: IsMark(t[i]) && u.ccc(t[i]) > 0
    ensures Lean(u.ccc, IsKept, t) == []
  {
    if t != [] {
      AllDropped(u, t[..|t| - 1]);
    }
  }

  lemma DotIsDropped(u: Unicode)
    requires DotVanishes(u)
    ensures LeanText(u, [DOT_ABOVE]) == []
  {
    assert [DOT_ABOVE][1..] == [];
    assert Decompose(u, [DOT_ABOVE]) == u.decomp(DOT_ABOVE) + [];
    assert Decompose(u, [DOT_ABOVE]) == u.decomp(DOT_ABOVE);
    AllDropped(u, u.decomp(DOT_ABOVE));
  }

  lemma PairSingles(m: CharMap, t: string)
    requires LatinEntries(m) && |t| >= 2 && t[0] == 'i' && t[1] == DOT_ABOVE
    ensures Singles(m, m.Keys, t) == "i" + ([DOT_ABOVE] + Singles(m, m.Keys, t[2..]))
  {
    assert One('i') !in m && One(DOT_ABOVE) !in m;
    assert t[1..][1..] == t[2..];
  }

  lemma DotBetween(u: Unicode, x: string, y: string)
    requires DotVanishes(u) && LeanText(u, x) == LeanText(u, y)
    ensures LeanText(u, "i" + x) == LeanText(u, "i" + ([DOT_ABOVE] + y))
  {
    LeanTextConcat(u, "i", x);
    LeanTextConcat(u, "i", [DOT_ABOVE] + y);
    LeanTextConcat(u, [DOT_ABOVE], y);
    DotIsDropped(u);
  }

  /** The two-character key is invisible once marks are stripped, and orders no other mark. */
  lemma {:induction false} PairInvisible(u: Unicode, m: CharMap, t: string)
    requires LatinEntries(m) && DotVanishes(u)
    ensures LeanText(u, Simultaneous(m, t)) == LeanText(u, Singles(m, m.Keys, t))
    decreases |t|
  {
    if t == [] {
    } else if |t| >= 2 && Two(t[0], t[1]) in m {
      assert LatinEntry(Two(t[0], t[1]), m[Two(t[0], t[1])]);
      PairSingles(m, t);
      PairInvisible(u, m, t[2..]);
      DotBetween(u, Simultaneous(m, t[2..]), Singles(m, m.Keys, t[2..]));
    } else {
      var head := if One(t[0]) in m then m[One(t[0])] else [t[0]];
      PairInvisible(u, m, t[1..]);
      LeanTextConcat(u, head, Simultaneous(m, t[1..]));
      LeanTextConcat(u, head, Singles(m, m.Keys, t[1..]));
    }
  }

  lemma NameTextIsRewritten(u: Unicode, tb: Tables, s: string)
    requires WellFormed(tb) && DotVanishes(u)
    ensures NameText(u, tb, s) == Strip(Nfkd(u, Rewritten(tb, LowerFrom(u, s, 0))))
  {
    var t := LowerFrom(u, s, 0);
    NoPairs(tb.special, t);
    var t1 := Simultaneous(tb.special, t);
    NoPairs(tb.greek, t1);
    var t2 := Simultaneous(tb.greek, t1);
    NoPairs(tb.cyrillic, t2);
    var t3 := Simultaneous(tb.cyrillic, t2);
    PairInvisible(u, tb.latin, t3);
    SameLean(u, Simultaneous(tb.latin, t3), Singles(tb.latin, tb.latin.Keys, t3));
  }

  lemma SameLean(u: Unicode, a: string, b: string)
    requires LeanText(u, a) == LeanText(u, b)
    ensures Strip(Nfkd(u, a)) == Strip(Nfkd(u, b))
  {
    StripIsKept(Nfkd(u, a));
    StripIsKept(Nfkd(u, b));
    KeptReorder(u.ccc, IsKept, Decompose(u, a));
    KeptReorder(u.ccc, IsKept, Decompose(u, b));
  }

  /** Whichever sigma the context selects, the Greek pass turns it into the same letter. */
  lemma SigmaForms(tb: Tables)
    requires WellFormed(tb)
    ensures Rewritten(tb, "σ") == Rewritten(tb, "ς")
  {
    SingleChar(tb.special, 'σ');
    SingleChar(tb.special, 'ς');
    SingleChar(tb.greek, 'σ');
    SingleChar(tb.greek, 'ς');
  }

  lemma SingleChar(m: CharMap, c: char)
    ensures Singles(m, m.Keys, [c]) == if One(c) in m then m[One(c)] else [c]
  {
    assert [c][1..] == [];
    assert Singles(m, m.Keys, [c][1..]) == [];
  }

  lemma {:induction false} LowerThenSpread(u: Unicode, tb: Tables, s: string, i: nat)
    requires WellFormed(tb) && i <= |s|
    ensures Decompose(u, Rewritten(tb, LowerFrom(u, s, i))) == Expanded(u, tb, s[i..])
    decreases |s| - i
  {
    if i < |s| {
      RewrittenConcat(tb, LowerAt(u, s, i), LowerFrom(u, s, i + 1));
      DecomposeConcat(u, Rewritten(tb, LowerAt(u, s, i)), Rewritten(tb, LowerFrom(u, s, i + 1)));
      LowerThenSpread(u, tb, s, i + 1);
      SigmaForms(tb);
      assert s[i..][0] == s[i] && s[i..][1..] == s[i + 1..];
    }
  }

  /** Five whole-text passes with a context-dependent first one: the letters' expansions, ordered and stripped. */
  lemma NormalizeIsOrderedExpansion(u: Unicode, tb: Tables, s: string)
    requires WellFormed(tb) && DotVanishes(u)
    ensures Text(Normalized(u, tb, Some(s))) == NameText(u, tb, s)
    ensures NameText(u, tb, s) == Strip(Reorder(u.ccc, Expanded(u, tb, s)))
  {
    NameTextIsRewritten(u, tb, s);
    LowerThenSpread(u, tb, s, 0);
    assert s[0..] == s;
  }

  lemma {:induction false} LetterwiseIsStripped(u: Unicode, tb: Tables, s: string)
    ensures Letterwise(u, tb, s) == Strip(Expanded(u, tb, s))
  {
    if s != [] {
      LetterwiseIsStripped(u, tb, s[1..]);
      StripConcat(Spread(u, tb, s[0]), Expanded(u, tb, s[1..]));
    }
  }

  lemma {:induction false} ExpandedConcat(u: Unicode, tb: Tables, a: string, b: string)
    ensures Expanded(u, tb, a + b) == Expanded(u, tb, a) + Expanded(u, tb, b)
  {
    if a == [] {
      assert a + b == b;
    } else {
      assert (a + b)[1..] == a[1..] + b;
      ExpandedConcat(u, tb, a[1..], b);
    }
  }

  // ---- letter by letter, and over concatenation --------------------------------------

  /** The marks the output keeps stand in canonical order in the name as it is spelled. */
  ghost predicate MarksInOrder(u: Unicode, tb: Tables, s: string) {
    Ordered(u.ccc, Lean(u.ccc, IsKept, Expanded(u, tb, s)))
  }

  /** No kept mark that begins b belongs before a kept mark that ends a. */
  ghost predicate MarksMeet(u: Unicode, tb: Tables, a: string, b: string) {
    Meet(u.ccc, IsKept, Expanded(u, tb, a), Expanded(u, tb, b))
  }

  /** Every mark of the name is one that is stripped. */
  ghost predicate OnlyStrippedMarks(u: Unicode, tb: Tables, s: string) {
    forall i | 0 <= i < |Expanded(u, tb, s)| && u.ccc(Expanded(u, tb, s)[i]) > 0 :: !IsKept(Expanded(u, tb, s)[i])
  }

  /** Normalisation acts letter by letter exactly when the kept marks are spelled in canonical order. */
  lemma NormalizeIsLetterwise(u: Unicode, s: string)
    requires DotVanishes(u)
    ensures Text(Normalized(u, DROP_TABLES, Some(s))) == Letterwise(u, DROP_TABLES, s) <==>
      MarksInOrder(u, DROP_TABLES, s)
  {
    DropTablesWellFormed();
    LetterwiseFor(u, DROP_TABLES, s);
  }

  lemma LetterwiseFor(u: Unicode, tb: Tables, s: string)
    requires WellFormed(tb) && DotVanishes(u)
    ensures Text(Normalized(u, tb, Some(s))) == Letterwise(u, tb, s) <==> MarksInOrder(u, tb, s)
  {
    var t := Expanded(u, tb, s);
    NormalizeIsOrderedExpansion(u, tb, s);
    LetterwiseIsStripped(u, tb, s);
    StripIsKept(t);
    StripIsKept(Reorder(u.ccc, t));
    KeptReorderExactly(u.ccc, IsKept, t);
  }

  /** With null as empty, normalisation distributes over a concatenation exactly when the marks meet in order. */
  lemma NormalizeDistributes(u: Unicode, a: string, b: string)
    requires DotVanishes(u)
    ensures Text(Normalized(u, DROP_TABLES, Some(a + b)))
         == Text(Normalized(u, DROP_TABLES, Some(a))) + Text(Normalized(u, DROP_TABLES, Some(b)))
      <==> MarksMeet(u, DROP_TABLES, a, b)
  {
    DropTablesWellFormed();
    DistributesFor(u, DROP_TABLES, a, b);
  }

  lemma DistributesFor(u: Unicode, tb: Tables, a: string, b: string)
    requires WellFormed(tb) && DotVanishes(u)
    ensures Text(Normalized(u, tb, Some(a + b)))
         == Text(Normalized(u, tb, Some(a))) + Text(Normalized(u, tb, Some(b)))
      <==> MarksMeet(u, tb, a, b)
  {
    var x, y := Expanded(u, tb, a), Expanded(u, tb, b);
    NormalizeIsOrderedExpansion(u, tb, a + b);
    NormalizeIsOrderedExpansion(u, tb, a);
    NormalizeIsOrderedExpansion(u, tb, b);
    ExpandedConcat(u, tb, a, b);
    StripIsKept(Reorder(u.ccc, x + y));
    StripIsKept(Reorder(u.ccc, x));
    StripIsKept(Reorder(u.ccc, y));
    KeptConcatExactly(u.ccc, IsKept, x, y);
  }

  /** Names whose marks are all stripped, as in Latin, Greek and Cyrillic, distribute whatever is put next to them. */
  lemma StrippedMarksDistribute(u: Unicode, tb: Tables, a: string, b: string)
    requires OnlyStrippedMarks(u, tb, a) || OnlyStrippedMarks(u, tb, b)
    ensures MarksMeet(u, tb, a, b)
  {
    if OnlyStrippedMarks(u, tb, a) {
      StrippedLast(u, Expanded(u, tb, a));
    } else {
      StrippedLast(u, Expanded(u, tb, b));
      var x, y := Lean(u.ccc, IsKept, Expanded(u, tb, a)), Lean(u.ccc, IsKept, Expanded(u, tb, b));
      LeadsStarter(u.ccc, y, TrailingMax(u.ccc, x));
    }
  }

  lemma {:induction false} StrippedLast(u: Unicode, t: string)
    requires forall i | 0 <= i < |t| && u.ccc(t[i]) > 0 :: !IsKept(t[i])
    ensures var x := Lean(u.ccc, IsKept, t);
      TrailingMax(u.ccc, x) == 0 && forall i | 0 <= i < |x| :: u.ccc(x[i]) == 0
  {
    if t != [] {
      StrippedLast(u, t[..|t| - 1]);
    }
  }

  const SHADDA: char := '\U{0651}'
  const FATHA: char := '\U{064E}'

  /** The Unicode data of two Arabic marks: their own lower case and decomposition, classes 33 and 30. */
  ghost predicate ArabicMarks(u: Unicode) {
    && u.lower(SHADDA) == u.decomp(SHADDA) == [SHADDA] && u.ccc(SHADDA) == 33
    && u.lower(FATHA) == u.decomp(FATHA) == [FATHA] && u.ccc(FATHA) == 30
  }

  lemma PlainSpreads(u: Unicode, tb: Tables, c: char)
    requires Plain(u, tb, c)
    ensures Spread(u, tb, c) == [c]
    ensures Expanded(u, tb, [c]) == [c]
  {
    SingleChar(tb.special, c);
    SingleChar(tb.greek, c);
    SingleChar(tb.cyrillic, c);
    SingleChar(tb.latin, c);
    assert [c][1..] == [];
    assert Decompose(u, [c]) == u.decomp(c) + Decompose(u, [c][1..]);
    assert Expanded(u, tb, [c]) == Spread(u, tb, c) + Expanded(u, tb, [c][1..]);
  }

  /** A shadda followed by a fatha: neither is stripped, and NFKD puts the fatha first. */
  lemma MarksCanSwap(u: Unicode)
    requires DotVanishes(u) && ArabicMarks(u)
    ensures Text(Normalized(u, DROP_TABLES, Some([SHADDA] + [FATHA])))
         != Text(Normalized(u, DROP_TABLES, Some([SHADDA]))) + Text(Normalized(u, DROP_TABLES, Some([FATHA])))
    ensures Text(Normalized(u, DROP_TABLES, Some([SHADDA] + [FATHA]))) != Letterwise(u, DROP_TABLES, [SHADDA] + [FATHA])
  {
    DropTablesWellFormed();
    SwapFor(u, DROP_TABLES);
  }

  lemma SwapFor(u: Unicode, tb: Tables)
    requires WellFormed(tb) && DotVanishes(u) && ArabicMarks(u)
    ensures Text(Normalized(u, tb, Some([SHADDA] + [FATHA])))
         != Text(Normalized(u, tb, Some([SHADDA]))) + Text(Normalized(u, tb, Some([FATHA])))
    ensures Text(Normalized(u, tb, Some([SHADDA] + [FATHA]))) != Letterwise(u, tb, [SHADDA] + [FATHA])
  {
    PlainSpreads(u, tb, SHADDA);
    PlainSpreads(u, tb, FATHA);
    ExpandedConcat(u, tb, [SHADDA], [FATHA]);
    LetterwiseFor(u, tb, [SHADDA] + [FATHA]);
    DistributesFor(u, tb, [SHADDA], [FATHA]);
    TwoMarks(u.ccc, IsKept, SHADDA, FATHA);
    assert Expanded(u, tb, [SHADDA] + [FATHA]) == [SHADDA] + [FATHA];
  }

  // ---- shape of the output ----------------------------------------------------

  lemma {:induction false} TailIsClean(t: string, i: nat)
    requires i < |KeepAlnum(DropMarks(t))|
    ensures IsAlnum(KeepAlnum(DropMarks(t))[i]) && !IsMark(KeepAlnum(DropMarks(t))[i])
  {
    if t != [] {
      var head := DropMarks([t[0]]);
      assert [t[0]][1..] == [];
      DropMarksConcat([t[0]], t[1..]);
      assert t == [t[0]] + t[1..];
      KeepAlnumConcat(head, DropMarks(t[1..]));
      if head == [t[0]] {
        assert KeepAlnum(head) == (if IsAlnum(t[0]) then [t[0]] else []) + KeepAlnum(head[1..]);
        assert KeepAlnum(head[1..]) == [];
      }
      if i >= |KeepAlnum(head)| {
        TailIsClean(t[1..], i - |KeepAlnum(head)|);
      }
    }
  }

  /**
   For every table set and every Unicode data: a result is never empty, holds no character of
   U+0300 to U+036F, and of ASCII only 0 to 9 and a to z.
   */
  lemma OutputShape(u: Unicode, tb: Tables, value: Option<string>)
    ensures var r := Normalized(u, tb, value);
      r.Some? ==> r.value != [] && forall i | 0 <= i < |r.value| :: Accepted(r.value[i] as int)
  {
    var r := Normalized(u, tb, value);
    if r.Some? {
      var t := Nfkd(u, Simultaneous(tb.latin, Simultaneous(tb.cyrillic,
        Simultaneous(tb.greek, Simultaneous(tb.special, LowerFrom(u, value.value, 0))))));
      forall i | 0 <= i < |r.value| ensures Accepted(r.value[i] as int) {
        TailIsClean(t, i);
      }
    }
  }

  /** The code points a result may hold: 0 to 9, a to z, and above ASCII all but the stripped marks. */
  predicate Accepted(code: int) {
    48 <= code <= 57 || 97 <= code <= 122 || 128 <= code < 0x300 || 0x36f < code
  }

  /** A character no earlier pass changes. */
  predicate Plain(u: Unicode, tb: Tables, c: char) {
    u.lower(c) == u.decomp(c) == [c] && c != 'Σ' && !Mapped(tb, c)
  }

  /** The stripped and filtered characters are exactly the ones outside that range. */
  lemma PlainCharacter(u: Unicode, tb: Tables, c: char)
    requires Plain(u, tb, c)
    ensures Normalized(u, tb, Some([c])) == if Accepted(c as int) then Some([c]) else None
  {
    assert LowerFrom(u, [c], 0) == LowerAt(u, [c], 0) + LowerFrom(u, [c], 1);
    assert LowerFrom(u, [c], 0) == [c];
    ScanOne(tb.special, c);
    ScanOne(tb.greek, c);
    ScanOne(tb.cyrillic, c);
    ScanOne(tb.latin, c);
    assert [c][1..] == [];
    assert Decompose(u, [c]) == u.decomp(c) + Decompose(u, [c][1..]);
    OrderedStays(u.ccc, [c]);
    StripChar(c);
  }

  lemma ScanOne(m: CharMap, c: char)
    requires One(c) !in m
    ensures Simultaneous(m, [c]) == [c]
  {
    assert [c][1..] == [];
    assert Simultaneous(m, [c]) == [c] + Simultaneous(m, [c][1..]);
  }

  /** A name of such characters loses exactly the others, when none of those it keeps is a mark. */
  lemma PlainNameIsFiltered(u: Unicode, tb: Tables, s: string)
    requires WellFormed(tb) && DotVanishes(u)
    requires forall i | 0 <= i < |s| :: Plain(u, tb, s[i])
    requires forall i | 0 <= i < |s| && Accepted(s[i] as int) :: u.ccc(s[i]) == 0
    ensures Text(Normalized(u, tb, Some(s))) == Kept((c: char) => Accepted(c as int), s)
  {
    PlainExpanded(u, tb, s);
    StrippedLast(u, s);
    LetterwiseFor(u, tb, s);
    LetterwiseIsStripped(u, tb, s);
    StripIsKept(s);
    SameKept(s);
  }

  lemma {:induction false} PlainExpanded(u: Unicode, tb: Tables, s: string)
    requires forall i | 0 <= i < |s| :: Plain(u, tb, s[i])
    ensures Expanded(u, tb, s) == s
  {
    if s != [] {
      assert forall i | 0 <= i < |s[1..]| :: s[1..][i] == s[i + 1];
      PlainExpanded(u, tb, s[1..]);
      PlainSpreads(u, tb, s[0]);
      assert s == [s[0]] + s[1..];
    }
  }

  lemma {:induction false} SameKept(s: string)
    ensures Kept(IsKept, s) == Kept((c: char) => Accepted(c as int), s)
  {
    if s != [] {
      SameKept(s[..|s| - 1]);
      assert IsKept(s[|s| - 1]) == Accepted(s[|s| - 1] as int);
    }
  }

  // ---- running it twice ---------------------------------------------------------

  predicate Ascii(c: char) {
    c <= '\U{7f}'
  }

  function AsciiLower(c: char): char {
    if 'A' <= c <= 'Z' then (c as int + 32) as char else c
  }

  /** A key of one of the tables. */
  predicate Mapped(tb: Tables, c: char) {
    One(c) in tb.special || One(c) in tb.greek || One(c) in tb.cyrillic || One(c) in tb.latin
  }

  /** The input letters the idempotence result is about. */
  predicate InAlphabet(tb: Tables, c: char) {
    Ascii(c) || c == DOT_ABOVE || Mapped(tb, c)
  }

  ghost predicate Spelled(tb: Tables, s: string) {
    forall i | 0 <= i < |s| :: InAlphabet(tb, s[i])
  }

  ghost predicate NoRelapse(s: string) {
    forall i | 0 <= i < |s| :: !Relapsing(s[i])
  }

  /** The characters a pass can leave for decomposition. */
  predicate Residue(c: char) {
    Ascii(c) || Settled(c) || c == 'æ' || c == 'ø' || c == DOT_ABOVE
  }

  /** Unicode facts about the alphabet: ASCII case folding, lower-case table keys, no decompositions, one mark. */
  ghost predicate Standard(u: Unicode, tb: Tables) {
    && (forall c | Ascii(c) :: u.lower(c) == [AsciiLower(c)])
    && (forall c | Mapped(tb, c) || (Residue(c) && !Ascii(c)) :: u.lower(c) == [c])
    && (forall c | Residue(c) :: u.decomp(c) == [c])
    && (forall c | Residue(c) :: u.ccc(c) > 0 <==> c == DOT_ABOVE)
  }

  ghost predicate AllResidueAlnum(t: string) {
    forall i | 0 <= i < |t| :: Residue(t[i]) && IsAlnum(t[i]) && !IsMark(t[i])
  }

  lemma {:induction false} BareKeeps(u: Unicode, tb: Tables, t: string)
    requires Standard(u, tb) && AllResidueAlnum(t)
    ensures Bare(u, t) == t
  {
    if t != [] {
      assert AllResidueAlnum(t[1..]) by {
        assert forall i | 0 <= i < |t[1..]| :: t[1..][i] == t[i + 1];
      }
      BareKeeps(u, tb, t[1..]);
      BareChar(u, tb, t[0]);
      BareConcat(u, [t[0]], t[1..]);
      assert t == [t[0]] + t[1..];
    }
  }

  lemma BareChar(u: Unicode, tb: Tables, c: char)
    requires Standard(u, tb) && Residue(c)
    ensures Bare(u, [c]) == if IsAlnum(c) && !IsMark(c) then [c] else []
  {
    assert [c][1..] == [];
    assert Decompose(u, [c]) == [c] + Decompose(u, [c][1..]);
    assert Decompose(u, [c]) == [c];
    assert DropMarks([c]) == (if IsMark(c) then [] else [c]) + DropMarks([c][1..]);
    assert KeepAlnum([c]) == (if IsAlnum(c) then [c] else []) + KeepAlnum([c][1..]);
  }

  /** Characters above ASCII that are no key of m pass through it. */
  ghost predicate Untouched(m: CharMap, t: string) {
    forall i | 0 <= i < |t| :: One(t[i]) !in m
  }

  lemma SettledUntouched(tb: Tables, t: string)
    requires WellFormed(tb) && AllSettled(t)
    ensures Untouched(tb.special, t) && Untouched(tb.greek, t) && Untouched(tb.cyrillic, t) && Untouched(tb.latin, t)
  {
  }

  lemma PassesOnResidue(u: Unicode, tb: Tables, c: char)
    requires WellFormed(tb) && Standard(u, tb) && !Mapped(tb, c) && Residue(c)
    ensures Passes(u, tb, [c]) == if IsAlnum(c) && !IsMark(c) then [c] else []
  {
    SingleChar(tb.special, c);
    SingleChar(tb.greek, c);
    SingleChar(tb.cyrillic, c);
    SingleChar(tb.latin, c);
    BareChar(u, tb, c);
  }

  /** Replacements of the first three tables go through the rest unchanged. */
  lemma SettledPasses(u: Unicode, tb: Tables, t: string)
    requires WellFormed(tb) && Standard(u, tb) && AllSettled(t)
    ensures Singles(tb.greek, tb.greek.Keys, t) == t
    ensures Singles(tb.cyrillic, tb.cyrillic.Keys, t) == t
    ensures Singles(tb.latin, tb.latin.Keys, t) == t
    ensures Bare(u, t) == t
  {
    SettledUntouched(tb, t);
    SinglesInert(tb.greek, tb.greek.Keys, t);
    SinglesInert(tb.cyrillic, tb.cyrillic.Keys, t);
    SinglesInert(tb.latin, tb.latin.Keys, t);
    BareKeeps(u, tb, t);
  }

  /** The replacement in the first table, in the order of the passes, that has the letter. */
  function FirstEntry(tb: Tables, c: char): string
    requires Mapped(tb, c)
  {
    if One(c) in tb.special then tb.special[One(c)]
    else if One(c) in tb.greek then tb.greek[One(c)]
    else if One(c) in tb.cyrillic then tb.cyrillic[One(c)]
    else tb.latin[One(c)]
  }

  /** One table key: its replacement is what is left of it, settled unless the key relapses. */
  lemma MappedResult(u: Unicode, tb: Tables, c: char)
    requires WellFormed(tb) && Standard(u, tb) && Mapped(tb, c)
    ensures var r := Passes(u, tb, [c]);
      && (if Relapsing(c) then r == "æ" || r == "ø" else AllSettled(r))
      && r == FirstEntry(tb, c)
  {
    SingleChar(tb.special, c);
    SingleChar(tb.greek, c);
    SingleChar(tb.cyrillic, c);
    SingleChar(tb.latin, c);
    if One(c) in tb.special {
      SettledPasses(u, tb, tb.special[One(c)]);
    } else if One(c) in tb.greek {
      SettledPasses(u, tb, tb.greek[One(c)]);
    } else if One(c) in tb.cyrillic {
      SettledPasses(u, tb, tb.cyrillic[One(c)]);
    } else {
      var v := tb.latin[One(c)];
      assert LatinEntry(One(c), v);
      BareKeeps(u, tb, v);
    }
  }

  lemma CharResult(u: Unicode, tb: Tables, c: char)
    requires WellFormed(tb) && Standard(u, tb) && InAlphabet(tb, c)
    ensures var r := PerChar(u, tb, c);
      if Relapsing(c) then r == "æ" || r == "ø" else AllSettled(r)
  {
    if Relapsing(c) {
      assert One(c) in tb.latin;
    }
    if Mapped(tb, c) && c != 'Σ' {
      MappedResult(u, tb, c);
    } else if c == 'Σ' {
      assert Mapped(tb, 'σ');
      MappedResult(u, tb, 'σ');
    } else {
      var d := if Ascii(c) then AsciiLower(c) else c;
      AsciiUnmapped(tb, d);
      PassesOnResidue(u, tb, d);
    }
  }

  lemma AsciiUnmapped(tb: Tables, c: char)
    requires WellFormed(tb) && (Ascii(c) || Settled(c) || IsMark(c))
    ensures !Mapped(tb, c)
  {
  }

  lemma SettledChar(u: Unicode, tb: Tables, c: char)
    requires WellFormed(tb) && Standard(u, tb) && Settled(c)
    ensures PerChar(u, tb, c) == [c]
  {
    AsciiUnmapped(tb, c);
    PassesOnResidue(u, tb, c);
  }

  /** A name of one table letter becomes that letter's replacement, from the first table that has it. */
  lemma FirstTableWins(u: Unicode, tb: Tables, c: char)
    requires WellFormed(tb) && Standard(u, tb) && Mapped(tb, c) && c != 'Σ'
    ensures Text(Normalized(u, tb, Some([c]))) == FirstEntry(tb, c)
  {
    MappedResult(u, tb, c);
    ResidueInOrder(u, tb, [c]);
    LetterwiseFor(u, tb, [c]);
    assert Letterwise(u, tb, [c]) == PerChar(u, tb, c) + Letterwise(u, tb, [c][1..]);
    assert [c][1..] == [];
  }

  /** A settled name is a fixed point. */
  lemma {:induction false} SettledFixed(u: Unicode, tb: Tables, s: string)
    requires WellFormed(tb) && Standard(u, tb) && AllSettled(s)
    ensures Letterwise(u, tb, s) == s
  {
    if s != [] {
      assert AllSettled(s[1..]) by {
        assert forall i | 0 <= i < |s[1..]| :: s[1..][i] == s[i + 1];
      }
      SettledChar(u, tb, s[0]);
      SettledFixed(u, tb, s[1..]);
    }
  }

  ghost predicate SettledOrLigature(r: string) {
    forall i | 0 <= i < |r| :: Settled(r[i]) || r[i] == 'æ' || r[i] == 'ø'
  }

  lemma SettledConcat(a: string, b: string)
    ensures AllSettled(a + b) <==> AllSettled(a) && AllSettled(b)
    ensures SettledOrLigature(a) && SettledOrLigature(b) ==> SettledOrLigature(a + b)
  {
    if AllSettled(a + b) {
      assert forall i | 0 <= i < |a| :: a[i] == (a + b)[i];
      assert forall i | 0 <= i < |b| :: b[i] == (a + b)[|a| + i];
    }
  }

  lemma NoRelapseSplit(s: string)
    requires s != []
    ensures NoRelapse(s) <==> !Relapsing(s[0]) && NoRelapse(s[1..])
  {
    assert forall i | 0 < i < |s| :: s[i] == s[1..][i - 1];
  }

  /** The first run: settled text, except for one ligature per relapsing letter. */
  lemma {:induction false} FirstRun(u: Unicode, tb: Tables, s: string)
    requires WellFormed(tb) && Standard(u, tb) && Spelled(tb, s)
    ensures SettledOrLigature(Letterwise(u, tb, s))
    ensures AllSettled(Letterwise(u, tb, s)) <==> NoRelapse(s)
  {
    if s != [] {
      assert Spelled(tb, s[1..]) by {
        assert forall i | 0 <= i < |s[1..]| :: s[1..][i] == s[i + 1];
      }
      FirstRun(u, tb, s[1..]);
      CharResult(u, tb, s[0]);
      NoRelapseSplit(s);
      SettledConcat(PerChar(u, tb, s[0]), Letterwise(u, tb, s[1..]));
      if Relapsing(s[0]) {
        assert !Settled(PerChar(u, tb, s[0])[0]);
      }
    }
  }

  lemma LigatureResult(u: Unicode, tb: Tables, c: char)
    requires WellFormed(tb) && Standard(u, tb) && (c == 'æ' || c == 'ø')
    ensures AllSettled(PerChar(u, tb, c))
  {
    assert One(c) in tb.special;
    MappedResult(u, tb, c);
  }

  /** The second run leaves no ligature. */
  lemma {:induction false} SecondRun(u: Unicode, tb: Tables, r: string)
    requires WellFormed(tb) && Standard(u, tb)
    requires SettledOrLigature(r)
    ensures AllSettled(Letterwise(u, tb, r))
  {
    if r != [] {
      assert forall i | 0 <= i < |r[1..]| :: r[1..][i] == r[i + 1];
      SecondRun(u, tb, r[1..]);
      if Settled(r[0]) {
        SettledChar(u, tb, r[0]);
      } else {
        LigatureResult(u, tb, r[0]);
      }
    }
  }

  ghost predicate AllResidue(t: string) {
    forall i | 0 <= i < |t| :: Residue(t[i])
  }

  lemma {:induction false} ResidueDecomposes(u: Unicode, tb: Tables, t: string)
    requires Standard(u, tb) && AllResidue(t)
    ensures Decompose(u, t) == t
  {
    if t != [] {
      assert forall i | 0 <= i < |t[1..]| :: t[1..][i] == t[i + 1];
      ResidueDecomposes(u, tb, t[1..]);
      assert t == [t[0]] + t[1..];
    }
  }

  lemma ReplacementIsResidue(tb: Tables, c: char)
    requires WellFormed(tb) && (Mapped(tb, c) || Residue(c))
    ensures AllResidue(Rewritten(tb, [c]))
  {
    SingleChar(tb.special, c);
    SingleChar(tb.greek, c);
    SingleChar(tb.cyrillic, c);
    SingleChar(tb.latin, c);
    if One(c) in tb.special {
      PlainPasses(tb, tb.special[One(c)]);
    } else if One(c) in tb.greek {
      PlainPasses(tb, tb.greek[One(c)]);
    } else if One(c) in tb.cyrillic {
      PlainPasses(tb, tb.cyrillic[One(c)]);
    } else if One(c) in tb.latin {
      assert LatinEntry(One(c), tb.latin[One(c)]);
    }
  }

  lemma PlainPasses(tb: Tables, t: string)
    requires WellFormed(tb) && AllSettled(t)
    ensures Singles(tb.greek, tb.greek.Keys, t) == t
    ensures Singles(tb.cyrillic, tb.cyrillic.Keys, t) == t
    ensures Singles(tb.latin, tb.latin.Keys, t) == t
  {
    SettledUntouched(tb, t);
    SinglesInert(tb.greek, tb.greek.Keys, t);
    SinglesInert(tb.cyrillic, tb.cyrillic.Keys, t);
    SinglesInert(tb.latin, tb.latin.Keys, t);
  }

  /** A letter of the alphabet, or one a first run leaves, lower-cases to a table key or to residue. */
  lemma SpreadIsResidue(u: Unicode, tb: Tables, c: char)
    requires WellFormed(tb) && Standard(u, tb) && (InAlphabet(tb, c) || Residue(c))
    ensures AllResidue(Spread(u, tb, c))
  {
    var d := if c == 'Σ' then 'σ' else if Ascii(c) then AsciiLower(c) else c;
    assert c != 'Σ' ==> u.lower(c) == [d];
    ReplacementIsResidue(tb, d);
    ResidueDecomposes(u, tb, Rewritten(tb, [d]));
  }

  lemma {:induction false} ExpandedIsResidue(u: Unicode, tb: Tables, s: string)
    requires WellFormed(tb) && Standard(u, tb)
    requires forall i | 0 <= i < |s| :: InAlphabet(tb, s[i]) || Residue(s[i])
    ensures AllResidue(Expanded(u, tb, s))
  {
    if s != [] {
      SpreadIsResidue(u, tb, s[0]);
      assert forall i | 0 <= i < |s[1..]| :: s[1..][i] == s[i + 1];
      ExpandedIsResidue(u, tb, s[1..]);
    }
  }

  /** Such names hold no kept mark, so their order is no matter. */
  lemma ResidueInOrder(u: Unicode, tb: Tables, s: string)
    requires WellFormed(tb) && Standard(u, tb)
    requires forall i | 0 <= i < |s| :: InAlphabet(tb, s[i]) || Residue(s[i])
    ensures MarksInOrder(u, tb, s)
  {
    ExpandedIsResidue(u, tb, s);
    StrippedLast(u, Expanded(u, tb, s));
  }

  /** Normalising twice equals normalising once exactly when no letter relapses. */
  lemma IdempotentExactly(u: Unicode, s: string)
    requires Standard(u, DROP_TABLES)
    requires Spelled(DROP_TABLES, s)
    ensures var once := Normalized(u, DROP_TABLES, Some(s));
      Normalized(u, DROP_TABLES, once) == once <==> NoRelapse(s)
  {
    DropTablesWellFormed();
    IdempotentFor(u, DROP_TABLES, s);
  }

  lemma IdempotentFor(u: Unicode, tb: Tables, s: string)
    requires WellFormed(tb) && Standard(u, tb)
    requires Spelled(tb, s)
    ensures var once := Normalized(u, tb, Some(s));
      Normalized(u, tb, once) == once <==> NoRelapse(s)
  {
    assert DotVanishes(u);
    var r := Letterwise(u, tb, s);
    FirstRun(u, tb, s);
    ResidueInOrder(u, tb, s);
    ResidueInOrder(u, tb, r);
    LetterwiseFor(u, tb, s);
    LetterwiseFor(u, tb, r);
    SecondRun(u, tb, r);
    if AllSettled(r) {
      SettledFixed(u, tb, r);
    }
  }

  /** The failing family is not empty: one letter is enough. */
  lemma RelapseExample(u: Unicode)
    requires Standard(u, DROP_TABLES)
    ensures var once := Normalized(u, DROP_TABLES, Some("ǣ")); Normalized(u, DROP_TABLES, once) != once
  {
    DropTablesWellFormed();
    RelapseFor(u, DROP_TABLES);
  }

  lemma RelapseFor(u: Unicode, tb: Tables)
    requires WellFormed(tb) && Standard(u, tb)
    ensures var once := Normalized(u, tb, Some("ǣ")); Normalized(u, tb, once) != once
  {
    assert Relapsing("ǣ"[0]);
    assert Mapped(tb, 'ǣ');
    IdempotentFor(u, tb, "ǣ");
  }
}
