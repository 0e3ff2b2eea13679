/**
The four replacement tables of the DROP name standard, and what their contents
have in common. The proofs about the tables are by cases on the key; everything
else in the name component reasons from the lemmas stated here.
*/
module NameTables {

  /** A table key: one character, or a base letter followed by one mark. */
  datatype Key = One(c: char) | Two(base: char, mark: char) {
    function Text(): string {
      match this
      case One(c) => [c]
      case Two(a, b) => [a, b]
    }
  }

  type CharMap = map<Key, string>

  /** U+0307, the mark of the only two-character key. */
  const DOT_ABOVE: char := '\U{0307}'

  const SPECIAL_LATIN: CharMap := map[
    One('ß') := "ss", One('æ') := "ae", One('ð') := "d", One('ø') := "o", One('þ') := "th", One('đ') := "d",
    One('ħ') := "h", One('ı') := "i", One('ĳ') := "ij", One('ŀ') := "l", One('ł') := "l", One('ŋ') := "n",
    One('œ') := "oe"
  ]

  const GREEK_1: CharMap := map[
    One('ΐ') := "i", One('ά') := "a", One('έ') := "e", One('ή') := "i", One('ί') := "i", One('ΰ') := "y",
    One('α') := "a", One('β') := "v", One('γ') := "g", One('δ') := "d", One('ε') := "e", One('ζ') := "z",
    One('η') := "i", One('θ') := "th", One('ι') := "i", One('κ') := "k", One('λ') := "l", One('μ') := "m"
  ]

  const GREEK_2: CharMap := map[
    One('ν') := "n", One('ξ') := "x", One('ο') := "o", One('π') := "p", One('ρ') := "r", One('ς') := "s",
    One('σ') := "s", One('τ') := "t", One('υ') := "y", One('φ') := "f", One('χ') := "ch", One('ψ') := "ps",
    One('ω') := "o", One('ϊ') := "i", One('ϋ') := "y", One('ό') := "o", One('ύ') := "y", One('ώ') := "o"
  ]

  const GREEK: CharMap := GREEK_1 + GREEK_2

  const CYRILLIC_1: CharMap := map[
    One('а') := "a", One('б') := "b", One('в') := "v", One('г') := "g", One('д') := "d", One('е') := "e",
    One('ж') := "zh", One('з') := "z", One('и') := "i", One('й') := "y", One('к') := "k", One('л') := "l",
    One('м') := "m", One('н') := "n", One('о') := "o", One('п') := "p", One('р') := "r", One('с') := "s",
    One('т') := "t"
  ]

  const CYRILLIC_2: CharMap := map[
    One('у') := "u", One('ф') := "f", One('х') := "kh", One('ц') := "ts", One('ч') := "ch", One('ш') := "sh",
    One('щ') := "shch", One('ъ') := "", One('ы') := "y", One('ь') := "", One('э') := "e", One('ю') := "yu",
    One('я') := "ya", One('ё') := "yo", One('є') := "e", One('і') := "i", One('ї') := "i", One('ў') := "u",
    One('ґ') := "g"
  ]

  const CYRILLIC: CharMap := CYRILLIC_1 + CYRILLIC_2

  const LATIN_1: CharMap := map[
    Two('i', DOT_ABOVE) := "i", One('à') := "a", One('á') := "a", One('â') := "a", One('ã') := "a",
    One('ä') := "a", One('å') := "a", One('ç') := "c", One('è') := "e", One('é') := "e", One('ê') := "e",
    One('ë') := "e", One('ì') := "i", One('í') := "i", One('î') := "i"
  ]

  const LATIN_2: CharMap := map[
    One('ï') := "i", One('ñ') := "n", One('ò') := "o", One('ó') := "o", One('ô') := "o", One('õ') := "o",
    One('ö') := "o", One('ù') := "u", One('ú') := "u", One('û') := "u", One('ü') := "u", One('ý') := "y",
    One('ÿ') := "y", One('ā') := "a", One('ă') := "a"
  ]

  const LATIN_3: CharMap := map[
    One('ą') := "a", One('ć') := "c", One('ĉ') := "c", One('ċ') := "c", One('č') := "c", One('ď') := "d",
    One('ē') := "e", One('ĕ') := "e", One('ė') := "e", One('ę') := "e", One('ě') := "e", One('ĝ') := "g",
    One('ğ') := "g", One('ġ') := "g", One('ģ') := "g"
  ]

  const LATIN_4: CharMap := map[
    One('ĥ') := "h", One('ĩ') := "i", One('ī') := "i", One('ĭ') := "i", One('į') := "i", One('ĵ') := "j",
    One('ķ') := "k", One('ĺ') := "l", One('ļ') := "l", One('ľ') := "l", One('ń') := "n", One('ņ') := "n",
    One('ň') := "n", One('ŉ') := "ʼn", One('ō') := "o"
  ]

  const LATIN_5: CharMap := map[
    One('ŏ') := "o", One('ő') := "o", One('ŕ') := "r", One('ŗ') := "r", One('ř') := "r", One('ś') := "s",
    One('ŝ') := "s", One('ş') := "s", One('š') := "s", One('ţ') := "t", One('ť') := "t", One('ũ') := "u",
    One('ū') := "u", One('ŭ') := "u", One('ů') := "u"
  ]

  const LATIN_6: CharMap := map[
    One('ű') := "u", One('ų') := "u", One('ŵ') := "w", One('ŷ') := "y", One('ź') := "z", One('ż') := "z",
    One('ž') := "z", One('ſ') := "s", One('ơ') := "o", One('ư') := "u", One('ǆ') := "dz", One('ǉ') := "lj",
    One('ǌ') := "nj", One('ǎ') := "a", One('ǐ') := "i"
  ]

  const LATIN_7: CharMap := map[
    One('ǒ') := "o", One('ǔ') := "u", One('ǖ') := "u", One('ǘ') := "u", One('ǚ') := "u", One('ǜ') := "u",
    One('ǟ') := "a", One('ǡ') := "a", One('ǧ') := "g", One('ǩ') := "k", One('ǫ') := "o", One('ǭ') := "o",
    One('ǯ') := "ʒ", One('ǰ') := "j", One('ǳ') := "dz"
  ]

  const LATIN_8: CharMap := map[
    One('ǵ') := "g", One('ǹ') := "n", One('ǻ') := "a", One('ȁ') := "a", One('ȃ') := "a", One('ȅ') := "e",
    One('ȇ') := "e", One('ȉ') := "i", One('ȋ') := "i", One('ȍ') := "o", One('ȏ') := "o", One('ȑ') := "r",
    One('ȓ') := "r", One('ȕ') := "u", One('ȗ') := "u"
  ]

  const LATIN_9: CharMap := map[
    One('ș') := "s", One('ț') := "t", One('ȟ') := "h", One('ȧ') := "a", One('ȩ') := "e", One('ȫ') := "o",
    One('ȭ') := "o", One('ȯ') := "o", One('ȱ') := "o", One('ȳ') := "y"
  ]

  /** The letters whose replacement is itself a key of SPECIAL_LATIN. */
  const LATIN_RELAPSING: CharMap := map[
    One('ǣ') := "æ", One('ǽ') := "æ", One('ǿ') := "ø"
  ]

  const LATIN_EXTENDED: CharMap :=
    LATIN_1 + LATIN_2 + LATIN_3 + LATIN_4 + LATIN_5 + LATIN_6 + LATIN_7 + LATIN_8 + LATIN_9 + LATIN_RELAPSING

  predicate IsMark(c: char) {
    '\U{0300}' <= c <= '\U{036f}'
  }

  predicate IsLetter(c: char) {
    'a' <= c <= 'z'
  }

  predicate IsDigit(c: char) {
    '0' <= c <= '9'
  }

  /** Characters that no table rewrites and that a second normalisation keeps. */
  predicate Settled(c: char) {
    IsLetter(c) || IsDigit(c) || c == 'ʼ' || c == 'ʒ'
  }

  /** Letters whose replacement is itself a key of SPECIAL_LATIN, which has run by then. */
  predicate Relapsing(c: char) {
    c == 'ǣ' || c == 'ǽ' || c == 'ǿ'
  }

  ghost predicate AllLetters(s: string) {
    forall i | 0 <= i < |s| :: IsLetter(s[i])
  }

  ghost predicate AllSettled(s: string) {
    forall i | 0 <= i < |s| :: Settled(s[i])
  }

  /** Latin, Greek or Cyrillic outside ASCII, not a mark, and not a character the tables leave alone. */
  predicate Foreign(c: char) {
    '\U{7f}' < c < '\U{0600}' && !Settled(c) && !IsMark(c)
  }

  lemma SpecialLatinEntry(k: Key)
    requires k in SPECIAL_LATIN
    ensures k.One? && Foreign(k.c) && !Relapsing(k.c) && AllLetters(SPECIAL_LATIN[k])
  {
  }

  lemma GreekEntry1(k: Key)
    requires k in GREEK_1
    ensures k.One? && Foreign(k.c) && k.c != 'æ' && k.c != 'ø' && !Relapsing(k.c) && AllLetters(GREEK_1[k])
  {
  }

  lemma GreekEntry2(k: Key)
    requires k in GREEK_2
    ensures k.One? && Foreign(k.c) && k.c != 'æ' && k.c != 'ø' && !Relapsing(k.c) && AllLetters(GREEK_2[k])
  {
  }

  lemma GreekEntry(k: Key)
    requires k in GREEK
    ensures k.One? && Foreign(k.c) && k.c != 'æ' && k.c != 'ø' && !Relapsing(k.c) && AllLetters(GREEK[k])
  {
    if k in GREEK_2 {
      GreekEntry2(k);
    } else {
      GreekEntry1(k);
    }
  }

  lemma CyrillicEntry1(k: Key)
    requires k in CYRILLIC_1
    ensures k.One? && Foreign(k.c) && k.c != 'æ' && k.c != 'ø' && !Relapsing(k.c) && AllLetters(CYRILLIC_1[k])
  {
  }

  lemma CyrillicEntry2(k: Key)
    requires k in CYRILLIC_2
    ensures k.One? && Foreign(k.c) && k.c != 'æ' && k.c != 'ø' && !Relapsing(k.c) && AllLetters(CYRILLIC_2[k])
  {
  }

  lemma CyrillicEntry(k: Key)
    requires k in CYRILLIC
    ensures k.One? && Foreign(k.c) && k.c != 'æ' && k.c != 'ø' && !Relapsing(k.c) && AllLetters(CYRILLIC[k])
  {
    if k in CYRILLIC_2 {
      CyrillicEntry2(k);
    } else {
      CyrillicEntry1(k);
    }
  }

  ghost predicate SpecialEntries(m: CharMap) {
    forall k | k in m :: k.One? && Foreign(k.c) && !Relapsing(k.c) && AllLetters(m[k])
  }

  /** The ligatures are keys here and the sigmas are not. */
  ghost predicate SpecialKeys(m: CharMap) {
    One('æ') in m && One('ø') in m && One('σ') !in m && One('ς') !in m
  }

  /** Entries of a table whose keys no other table's replacement can contain. */
  ghost predicate PlainEntries(m: CharMap) {
    forall k | k in m ::
      k.One? && Foreign(k.c) && k.c != 'æ' && k.c != 'ø' && !Relapsing(k.c) && AllLetters(m[k])
  }

  /** Both lower-case sigmas become the same letter. */
  ghost predicate SigmaEntries(m: CharMap) {
    One('σ') in m && One('ς') in m && m[One('σ')] == m[One('ς')]
  }

  lemma SpecialLatinEntries()
    ensures SpecialEntries(SPECIAL_LATIN)
  {
    forall k | k in SPECIAL_LATIN
      ensures k.One? && Foreign(k.c) && !Relapsing(k.c) && AllLetters(SPECIAL_LATIN[k])
    {
      SpecialLatinEntry(k);
    }
  }

  lemma SpecialLatinKeys()
    ensures SpecialKeys(SPECIAL_LATIN)
  {
  }

  lemma GreekEntries()
    ensures PlainEntries(GREEK)
  {
    forall k | k in GREEK
      ensures k.One? && Foreign(k.c) && k.c != 'æ' && k.c != 'ø' && !Relapsing(k.c) && AllLetters(GREEK[k])
    {
      GreekEntry(k);
    }
  }

  lemma GreekSigmas()
    ensures SigmaEntries(GREEK)
  {
    assert One('σ') in GREEK_2 && GREEK_2[One('σ')] == "s";
    assert One('ς') in GREEK_2 && GREEK_2[One('ς')] == "s";
  }

  lemma CyrillicEntries()
    ensures PlainEntries(CYRILLIC)
  {
    forall k | k in CYRILLIC
      ensures k.One? && Foreign(k.c) && k.c != 'æ' && k.c != 'ø' && !Relapsing(k.c) && AllLetters(CYRILLIC[k])
    {
      CyrillicEntry(k);
    }
  }

  /** What every entry of LATIN_EXTENDED looks like. */
  ghost predicate LatinEntry(k: Key, v: string) {
    if k.Two? then k == Two('i', DOT_ABOVE) && v == "i"
    else
      && Foreign(k.c) && k.c != 'æ' && k.c != 'ø'
      && (if Relapsing(k.c) then v == "æ" || v == "ø" else AllSettled(v))
  }

  ghost predicate LatinEntries(m: CharMap) {
    forall k | k in m :: LatinEntry(k, m[k])
  }

  lemma LatinEntries1()
    ensures LatinEntries(LATIN_1)
  {
    forall k | k in LATIN_1 ensures LatinEntry(k, LATIN_1[k]) {
    }
  }

  lemma LatinEntries2()
    ensures LatinEntries(LATIN_2)
  {
    forall k | k in LATIN_2 ensures LatinEntry(k, LATIN_2[k]) {
    }
  }

  lemma LatinEntries3()
    ensures LatinEntries(LATIN_3)
  {
    forall k | k in LATIN_3 ensures LatinEntry(k, LATIN_3[k]) {
    }
  }

  lemma LatinEntries4()
    ensures LatinEntries(LATIN_4)
  {
    forall k | k in LATIN_4 ensures LatinEntry(k, LATIN_4[k]) {
    }
  }

  lemma LatinEntries5()
    ensures LatinEntries(LATIN_5)
  {
    forall k | k in LATIN_5 ensures LatinEntry(k, LATIN_5[k]) {
    }
  }

  lemma LatinEntries6()
    ensures LatinEntries(LATIN_6)
  {
    forall k | k in LATIN_6 ensures LatinEntry(k, LATIN_6[k]) {
    }
  }

  lemma LatinEntries7()
    ensures LatinEntries(LATIN_7)
  {
    forall k | k in LATIN_7 ensures LatinEntry(k, LATIN_7[k]) {
    }
  }

  lemma LatinEntries8()
    ensures LatinEntries(LATIN_8)
  {
    forall k | k in LATIN_8 ensures LatinEntry(k, LATIN_8[k]) {
    }
  }

  lemma LatinEntries9()
    ensures LatinEntries(LATIN_9)
  {
    forall k | k in LATIN_9 ensures LatinEntry(k, LATIN_9[k]) {
    }
  }

  lemma LatinEntriesRelapsing()
    ensures LatinEntries(LATIN_RELAPSING)
  {
  }

  lemma LatinUnion(a: CharMap, b: CharMap)
    requires LatinEntries(a) && LatinEntries(b)
    ensures LatinEntries(a + b)
  {
  }

  lemma LatinExtendedEntries()
    ensures LatinEntries(LATIN_EXTENDED)
  {
    LatinEntries1();
    LatinEntries2();
    LatinEntries3();
    LatinEntries4();
    LatinEntries5();
    LatinEntries6();
    LatinEntries7();
    LatinEntries8();
    LatinEntries9();
    LatinEntriesRelapsing();
    LatinUnion(LATIN_1, LATIN_2);
    LatinUnion(LATIN_1 + LATIN_2, LATIN_3);
    LatinUnion(LATIN_1 + LATIN_2 + LATIN_3, LATIN_4);
    LatinUnion(LATIN_1 + LATIN_2 + LATIN_3 + LATIN_4, LATIN_5);
    LatinUnion(LATIN_1 + LATIN_2 + LATIN_3 + LATIN_4 + LATIN_5, LATIN_6);
    LatinUnion(LATIN_1 + LATIN_2 + LATIN_3 + LATIN_4 + LATIN_5 + LATIN_6, LATIN_7);
    LatinUnion(LATIN_1 + LATIN_2 + LATIN_3 + LATIN_4 + LATIN_5 + LATIN_6 + LATIN_7, LATIN_8);
    LatinUnion(LATIN_1 + LATIN_2 + LATIN_3 + LATIN_4 + LATIN_5 + LATIN_6 + LATIN_7 + LATIN_8, LATIN_9);
    LatinUnion(LATIN_1 + LATIN_2 + LATIN_3 + LATIN_4 + LATIN_5 + LATIN_6 + LATIN_7 + LATIN_8 + LATIN_9,
      LATIN_RELAPSING);
  }

  ghost predicate RelapsingEntries(m: CharMap) {
    forall c | Relapsing(c) :: One(c) in m
  }

  lemma LatinRelapsingEntries()
    ensures RelapsingEntries(LATIN_EXTENDED)
  {
    UnionRelapses(LATIN_1 + LATIN_2 + LATIN_3 + LATIN_4 + LATIN_5 + LATIN_6 + LATIN_7 + LATIN_8 + LATIN_9);
  }

  lemma UnionRelapses(m: CharMap)
    ensures RelapsingEntries(m + LATIN_RELAPSING)
  {
    assert RelapsingEntries(LATIN_RELAPSING);
  }
}
