/**
DROP name normalisation: lower-case, four table passes, decomposition, mark
stripping and an alphanumeric filter. Every pass rewrites the whole text; the
main results say the composition nevertheless acts letter by letter, and say
exactly when a second normalisation changes nothing.
*/
module NameNormalize {
  import opened Common
  import opened CanonicalOrder
  import opened NameTables

  /**
   The parts of Unicode the function calls: the lower-case expansion of one
   character, the final-sigma context test, and for NFKD the compatibility
   decomposition and the combining class of one character.
   */
  datatype Unicode = Unicode(
    lower: char -> string,
    finalSigma: (string, nat) -> bool,
    decomp: char -> string,
    ccc: char -> nat)

  datatype Tables = Tables(special: CharMap, greek: CharMap, cyrillic: CharMap, latin: CharMap)

  const DROP_TABLES := Tables(SPECIAL_LATIN, GREEK, CYRILLIC, LATIN_EXTENDED)

  // ---- split and join -------------------------------------------------------

  function Split(t: string, key: string): (parts: seq<string>)
    requires key != []
    ensures parts != []
  {
    if |t| < |key| then [t]
    else if t[..|key|] == key then [[]] + Split(t[|key|..], key)
    else
      var rest := Split(t[1..], key);
      [[t[0]] + rest[0]] + rest[1..]
  }

  function Join(parts: seq<string>, glue: string): string
    requires parts != []
  {
    if |parts| == 1 then parts[0] else parts[0] + glue + Join(parts[1..], glue)
  }

  function Replace(t: string, key: string, v: string): string
    requires key != []
  {
    Join(Split(t, key), v)
  }

  /** Joining with the separator restores the text. */
  lemma {:induction false} SplitJoin(t: string, key: string)
    requires key != []
    ensures Replace(t, key, key) == t
  {
    if |t| < |key| {
    } else if t[..|key|] == key {
      SplitJoin(t[|key|..], key);
      ReplaceHit(t, key, key);
      assert t == key + t[|key|..];
    } else {
      SplitJoin(t[1..], key);
      ReplaceMiss(t, key, key);
    }
  }

  lemma JoinCons(head: string, rest: seq<string>, glue: string)
    requires rest != []
    ensures Join([head] + rest, glue) == head + glue + Join(rest, glue)
  {
    assert ([head] + rest)[1..] == rest;
  }

  lemma ReplaceHit(t: string, key: string, v: string)
    requires key != [] && |t| >= |key| && t[..|key|] == key
    ensures Replace(t, key, v) == v + Replace(t[|key|..], key, v)
  {
    var rest := Split(t[|key|..], key);
    assert Split(t, key) == [[]] + rest;
    JoinCons([], rest, v);
  }

  lemma ReplaceMiss(t: string, key: string, v: string)
    requires key != [] && |t| >= |key| && t[..|key|] != key
    ensures Replace(t, key, v) == [t[0]] + Replace(t[1..], key, v)
  {
    var rest := Split(t[1..], key);
    var parts := [[t[0]] + rest[0]] + rest[1..];
    assert Split(t, key) == parts;
    if |rest| > 1 {
      assert parts[1..] == rest[1..];
      assert Join(parts, v) == [t[0]] + (rest[0] + v + Join(rest[1..], v));
    }
  }

  // ---- one table pass -------------------------------------------------------

  /** Key by key, in the given order, over the whole text each time. */
  function ApplyInOrder(t: string, order: seq<Key>, m: CharMap): string
    requires forall k | k in order :: k in m
    decreases |order|
  {
    if order == [] then t
    else ApplyInOrder(Replace(t, order[0].Text(), m[order[0]]), order[1..], m)
  }

  /** The order JavaScript's sort leaves: every key once, longer keys first, ties open. */
  ghost predicate LongestFirst(order: seq<Key>, m: CharMap) {
    && (forall k :: k in order <==> k in m)
    && (forall i, j | 0 <= i < j < |order| :: order[i] != order[j])
    && (forall i, j | 0 <= i < j < |order| :: |order[i].Text()| >= |order[j].Text()|)
  }

  /** One left-to-right scan that prefers a two-character key. */
  function Simultaneous(m: CharMap, t: string): string {
    if t == [] then []
    else if |t| >= 2 && Two(t[0], t[1]) in m then m[Two(t[0], t[1])] + Simultaneous(m, t[2..])
    else if One(t[0]) in m then m[One(t[0])] + Simultaneous(m, t[1..])
    else [t[0]] + Simultaneous(m, t[1..])
  }

  /** Substitution of the one-character keys in ks, character by character. */
  function Singles(m: CharMap, ks: set<Key>, t: string): string {
    if t == [] then []
    else (if One(t[0]) in ks && One(t[0]) in m then m[One(t[0])] else [t[0]]) + Singles(m, ks, t[1..])
  }

  ghost predicate Inert(ks: set<Key>, t: string) {
    forall i | 0 <= i < |t| :: One(t[i]) !in ks
  }

  /** No replacement contains a one-character key, and at most one key has two characters. */
  ghost predicate Stable(m: CharMap) {
    && (forall k | k in m :: Inert(m.Keys, m[k]))
    && (forall j, k | j in m && k in m && j.Two? && k.Two? :: j == k)
  }

  lemma {:induction false} SinglesConcat(m: CharMap, ks: set<Key>, a: string, b: string)
    ensures Singles(m, ks, a + b) == Singles(m, ks, a) + Singles(m, ks, b)
  {
    if a == [] {
      assert a + b == b;
    } else {
      assert (a + b)[1..] == a[1..] + b;
      SinglesConcat(m, ks, a[1..], b);
    }
  }

  lemma {:induction false} SinglesInert(m: CharMap, ks: set<Key>, t: string)
    requires Inert(ks, t)
    ensures Singles(m, ks, t) == t
  {
    if t != [] {
      assert forall i | 0 <= i < |t[1..]| :: t[1..][i] == t[i + 1];
      SinglesInert(m, ks, t[1..]);
    }
  }

  lemma {:induction false} SinglesCompose(m: CharMap, a: set<Key>, b: set<Key>, t: string)
    requires Stable(m) && b <= m.Keys
    ensures Singles(m, b, Singles(m, a, t)) == Singles(m, a + b, t)
  {
    if t != [] {
      var head := if One(t[0]) in a && One(t[0]) in m then m[One(t[0])] else [t[0]];
      SinglesConcat(m, b, head, Singles(m, a, t[1..]));
      SinglesCompose(m, a, b, t[1..]);
      if One(t[0]) in a && One(t[0]) in m {
        SinglesInert(m, b, head);
      } else {
        assert Singles(m, b, head) == (if One(t[0]) in b then m[One(t[0])] else head) + [];
      }
    }
  }

  lemma {:induction false} ReplaceOne(m: CharMap, c: char, t: string)
    requires One(c) in m
    ensures Replace(t, [c], m[One(c)]) == Singles(m, {One(c)}, t)
  {
    if t == [] {
    } else {
      ReplaceOne(m, c, t[1..]);
      if t[0] == c {
        assert t[..1] == [c];
        ReplaceHit(t, [c], m[One(c)]);
      } else {
        assert t[..1][0] != c;
        ReplaceMiss(t, [c], m[One(c)]);
      }
    }
  }

  /** Passes over one-character keys collapse, whatever their order. */
  lemma {:induction false} OnesInAnyOrder(t: string, order: seq<Key>, m: CharMap)
    requires Stable(m)
    requires forall k | k in order :: k in m && k.One?
    ensures ApplyInOrder(t, order, m) == Singles(m, (set k | k in order), t)
    decreases |order|
  {
    var ks := set k | k in order;
    if order == [] {
      SinglesInert(m, ks, t);
    } else {
      var k := order[0];
      var later := set j | j in order[1..];
      ReplaceOne(m, k.c, t);
      OnesInAnyOrder(Replace(t, k.Text(), m[k]), order[1..], m);
      SinglesCompose(m, {k}, later, t);
      assert order == [k] + order[1..];
      assert {k} + later == ks;
    }
  }

  lemma {:induction false} NoPairs(m: CharMap, t: string)
    requires forall k | k in m :: k.One?
    ensures Simultaneous(m, t) == Singles(m, m.Keys, t)
  {
    if t != [] {
      NoPairs(m, t[1..]);
    }
  }

  lemma {:induction false} PairThenSingles(m: CharMap, p: Key, ks: set<Key>, t: string)
    requires Stable(m) && p in m && p.Two?
    requires ks == m.Keys - {p}
    ensures Singles(m, ks, Replace(t, p.Text(), m[p])) == Simultaneous(m, t)
  {
    if |t| < 2 {
      if |t| == 1 {
        assert Replace(t, p.Text(), m[p]) == t;
        assert t[1..] == [];
        assert Singles(m, ks, t[1..]) == [] == Simultaneous(m, t[1..]);
      }
    } else if t[..2] == p.Text() {
      assert t[..2][0] == t[0] && t[..2][1] == t[1];
      ReplaceHit(t, p.Text(), m[p]);
      PairThenSingles(m, p, ks, t[2..]);
      SinglesConcat(m, ks, m[p], Replace(t[2..], p.Text(), m[p]));
      SinglesInert(m, ks, m[p]);
    } else {
      assert t[..2] == [t[0], t[1]];
      ReplaceMiss(t, p.Text(), m[p]);
      PairThenSingles(m, p, ks, t[1..]);
      SinglesConcat(m, ks, [t[0]], Replace(t[1..], p.Text(), m[p]));
      assert Two(t[0], t[1]) !in m;
      assert [t[0]][1..] == [];
    }
  }

  lemma PairFirst(t: string, order: seq<Key>, m: CharMap)
    requires Stable(m) && LongestFirst(order, m)
    requires order != [] && order[0].Two?
    ensures ApplyInOrder(t, order, m) == Simultaneous(m, t)
  {
    var p, tail := order[0], order[1..];
    forall k | k in tail ensures k in m && k != p {
      var i :| 0 <= i < |tail| && tail[i] == k;
      assert order[i + 1] == k && order[0] != order[i + 1];
    }
    OnesInAnyOrder(Replace(t, p.Text(), m[p]), tail, m);
    assert order == [p] + tail;
    assert (set k | k in tail) == m.Keys - {p};
    PairThenSingles(m, p, m.Keys - {p}, t);
  }

  lemma OnesOnly(t: string, order: seq<Key>, m: CharMap)
    requires Stable(m) && LongestFirst(order, m)
    requires order == [] || order[0].One?
    ensures ApplyInOrder(t, order, m) == Simultaneous(m, t)
  {
    forall k | k in m ensures k.One? {
      var i :| 0 <= i < |order| && order[i] == k;
      assert i == 0 || |order[0].Text()| >= |order[i].Text()|;
    }
    OnesInAnyOrder(t, order, m);
    assert (set k | k in order) == m.Keys;
    NoPairs(m, t);
  }

  /** A whole pass equals the one scan: equal-length keys may come in any order. */
  lemma OrderIrrelevant(t: string, order: seq<Key>, m: CharMap)
    requires Stable(m) && LongestFirst(order, m)
    ensures ApplyInOrder(t, order, m) == Simultaneous(m, t)
  {
    if order != [] && order[0].Two? {
      PairFirst(t, order, m);
    } else {
      OnesOnly(t, order, m);
    }
  }

  /** A longest-first order of the keys outside todo, none shorter than a key in todo. */
  ghost predicate LongestSoFar(order: seq<Key>, todo: set<Key>, m: CharMap) {
    && todo <= m.Keys
    && (forall k :: k in order <==> k in m && k !in todo)
    && (forall i, j | 0 <= i < j < |order| :: order[i] != order[j])
    && (forall i, j | 0 <= i < j < |order| :: |order[i].Text()| >= |order[j].Text()|)
    && (forall j, k | j in order && k in todo :: |j.Text()| >= |k.Text()|)
  }

  lemma TakeLongest(order: seq<Key>, todo: set<Key>, m: CharMap, k: Key)
    requires LongestSoFar(order, todo, m)
    requires k in todo && forall j | j in todo :: |j.Text()| <= |k.Text()|
    ensures LongestSoFar(order + [k], todo - {k}, m)
  {
    forall i, j | 0 <= i < j < |order + [k]|
      ensures (order + [k])[i] != (order + [k])[j]
      ensures |(order + [k])[i].Text()| >= |(order + [k])[j].Text()|
    {
      assert order[i] in order;
    }
  }

  /** The loop over sorted keys; ties are broken arbitrarily. */
  method ApplyCharMap(text: string, m: CharMap) returns (result: string, ghost order: seq<Key>)
    ensures LongestFirst(order, m)
    ensures result == ApplyInOrder(text, order, m)
  {
    result, order := text, [];
    var todo := m.Keys;
    while todo != {}
      invariant LongestSoFar(order, todo, m)
      invariant result == ApplyInOrder(text, order, m)
      decreases |todo|
    {
      LongestExists(todo);
      var k :| k in todo && forall j | j in todo :: |j.Text()| <= |k.Text()|;
      TakeLongest(order, todo, m, k);
      ApplySnoc(text, order, k, m);
      result := Replace(result, k.Text(), m[k]);
      order := order + [k];
      todo := todo - {k};
    }
  }

  lemma LongestExists(todo: set<Key>)
    requires todo != {}
    ensures exists k :: k in todo && forall j | j in todo :: |j.Text()| <= |k.Text()|
  {
    if exists k :: k in todo && k.Two? {
      var k :| k in todo && k.Two?;
      assert forall j | j in todo :: |j.Text()| <= |k.Text()|;
    } else {
      var k :| k in todo;
      assert forall j | j in todo :: |j.Text()| <= |k.Text()|;
    }
  }

  lemma {:induction false} ApplySnoc(t: string, order: seq<Key>, k: Key, m: CharMap)
    requires k in m && forall j | j in order :: j in m
    ensures ApplyInOrder(t, order + [k], m) == Replace(ApplyInOrder(t, order, m), k.Text(), m[k])
    decreases |order|
  {
    if order != [] {
      assert (order + [k])[1..] == order[1..] + [k];
      ApplySnoc(Replace(t, order[0].Text(), m[order[0]]), order[1..], k, m);
    }
  }

  // ---- the other passes -----------------------------------------------------

  function LowerAt(u: Unicode, s: string, i: nat): string
    requires i < |s|
  {
    if s[i] == 'Σ' then (if u.finalSigma(s, i) then "ς" else "σ") else u.lower(s[i])
  }

  function LowerFrom(u: Unicode, s: string, i: nat): string
    requires i <= |s|
    decreases |s| - i
  {
    if i == |s| then [] else LowerAt(u, s, i) + LowerFrom(u, s, i + 1)
  }

  function Decompose(u: Unicode, t: string): string {
    if t == [] then [] else u.decomp(t[0]) + Decompose(u, t[1..])
  }

  /** NFKD: the decomposed characters, with the marks in canonical order. */
  function Nfkd(u: Unicode, t: string): string {
    Reorder(u.ccc, Decompose(u, t))
  }

  function DropMarks(t: string): string {
    if t == [] then [] else (if IsMark(t[0]) then [] else [t[0]]) + DropMarks(t[1..])
  }

  predicate IsAlnum(c: char) {
    IsDigit(c) || IsLetter(c) || c > '\U{7f}'
  }

  function KeepAlnum(t: string): string {
    if t == [] then [] else (if IsAlnum(t[0]) then [t[0]] else []) + KeepAlnum(t[1..])
  }

  method StripCombiningMarks(u: Unicode, text: string) returns (result: string)
    ensures result == DropMarks(Nfkd(u, text))
  {
    var normalized := Nfkd(u, text);
    result := [];
    for i := 0 to |normalized|
      invariant result + DropMarks(normalized[i..]) == DropMarks(normalized)
    {
      if !IsMark(normalized[i]) {
        result := result + [normalized[i]];
      }
    }
  }

  /** The text normalisation leaves before the empty check. */
  function NameText(u: Unicode, tb: Tables, s: string): string {
    Tail(u, Simultaneous(tb.latin,
      Simultaneous(tb.cyrillic, Simultaneous(tb.greek, Simultaneous(tb.special, LowerFrom(u, s, 0))))))
  }

  /** NFKD, mark stripping and filtering. */
  function Tail(u: Unicode, t: string): string {
    KeepAlnum(DropMarks(Nfkd(u, t)))
  }

  function Normalized(u: Unicode, tb: Tables, value: Option<string>): Option<string> {
    if value.None? || NameText(u, tb, value.value) == [] then None else Some(NameText(u, tb, value.value))
  }

  method NormalizeName(u: Unicode, value: Option<string>) returns (r: Option<string>)
    ensures r == Normalized(u, DROP_TABLES, value)
  {
    DropTablesWellFormed();
    r := NormalizeWith(u, DROP_TABLES, value);
  }

  method NormalizeWith(u: Unicode, tb: Tables, value: Option<string>) returns (r: Option<string>)
    requires WellFormed(tb)
    ensures r == Normalized(u, tb, value)
  {
    if value.None? {
      return None;
    }
    StableTables(tb);
    var result := LowerFrom(u, value.value, 0);
    result := ApplyOneTable(result, tb.special);
    result := ApplyOneTable(result, tb.greek);
    result := ApplyOneTable(result, tb.cyrillic);
    result := ApplyOneTable(result, tb.latin);
    result := StripCombiningMarks(u, result);
    var filtered := FilterAlnum(result);
    r := if |filtered| == 0 then None else Some(filtered);
  }

  method FilterAlnum(text: string) returns (filtered: string)
    ensures filtered == KeepAlnum(text)
  {
    filtered := [];
    for i := 0 to |text|
      invariant filtered + KeepAlnum(text[i..]) == KeepAlnum(text)
    {
      if IsAlnum(text[i]) {
        filtered := filtered + [text[i]];
      }
    }
  }

  method ApplyOneTable(text: string, m: CharMap) returns (result: string)
    requires Stable(m)
    ensures result == Simultaneous(m, text)
  {
    ghost var order;
    result, order := ApplyCharMap(text, m);
    OrderIrrelevant(text, order, m);
  }

  // ---- facts about the tables -------------------------------------------------

  /** What the component needs to know about its tables. */
  ghost predicate WellFormed(tb: Tables) {
    && SpecialEntries(tb.special) && SpecialKeys(tb.special)
    && PlainEntries(tb.greek) && SigmaEntries(tb.greek)
    && PlainEntries(tb.cyrillic)
    && LatinEntries(tb.latin) && RelapsingEntries(tb.latin)
  }

  lemma DropTablesWellFormed()
    ensures WellFormed(DROP_TABLES)
  {
    SpecialLatinEntries();
    SpecialLatinKeys();
    GreekEntries();
    GreekSigmas();
    CyrillicEntries();
    LatinExtendedEntries();
    LatinRelapsingEntries();
  }

  lemma StableTables(tb: Tables)
    requires WellFormed(tb)
    ensures Stable(tb.special) && Stable(tb.greek) && Stable(tb.cyrillic) && Stable(tb.latin)
  {
  }
}
