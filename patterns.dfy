/**
 * Key tables used by the detector: bigrams that are typical of Hangul typed
 * on the two-set layout, bigrams that are typical of English, and the lists
 * of consonant and vowel keys.
 */
module Patterns {
  import opened Wrappers
  import JamoMapper
  import Fsm
  import Unicode
  import Converter

  /** The Hangul bigrams, one row per vowel key (ㅏ ㅓ ㅗ ㅜ ㅡ ㅣ ㅑ ㅕ ㅛ ㅠ), in the source's order. */
  const HangulBigramRows: seq<seq<string>> := [
    ["rk", "sk", "ek", "fk", "ak", "qk", "tk", "dk", "wk", "ck", "zk", "xk", "vk", "gk"],
    ["rj", "sj", "ej", "fj", "aj", "qj", "tj", "dj", "wj", "cj", "zj", "xj", "vj", "gj"],
    ["rh", "sh", "eh", "fh", "ah", "qh", "th", "dh", "wh", "ch", "zh", "xh", "vh", "gh"],
    ["rn", "sn", "en", "fn", "an", "qn", "tn", "dn", "wn", "cn", "zn", "xn", "vn", "gn"],
    ["rm", "sm", "em", "fm", "am", "qm", "tm", "dm", "wm", "cm", "zm", "xm", "vm", "gm"],
    ["rl", "sl", "el", "fl", "al", "ql", "tl", "dl", "wl", "cl", "zl", "xl", "vl", "gl"],
    ["ri", "si", "ei", "fi", "ai", "qi", "ti", "di", "wi", "ci", "zi", "xi", "vi", "gi"],
    ["ru", "su", "eu", "fu", "au", "qu", "tu", "du", "wu", "cu", "zu", "xu", "vu", "gu"],
    ["ry", "sy", "ey", "fy", "ay", "qy", "ty", "dy", "wy", "cy", "zy", "xy", "vy", "gy"],
    ["rb", "sb", "eb", "fb", "ab", "qb", "tb", "db", "wb", "cb", "zb", "xb", "vb", "gb"]
  ]

  /** The set built from the rows. */
  const HangulBigrams: set<string> :=
    set i, j | 0 <= i < |HangulBigramRows| && 0 <= j < |HangulBigramRows[i]| :: HangulBigramRows[i][j]

  /** The unshifted consonant keys, in the order of the rows, and the ten vowel keys of the rows. */
  const BigramConsonants: string := "rsefaqtdwczxvg"
  const BigramVowels: string := "kjhnmliuyb"

  /** Membership in the set of bigrams frequent in English, listed in the source's rows of ten. */
  predicate IsEnglishBigram(b: string) {
    b in {
      "th", "he", "in", "er", "an", "re", "on", "at", "en", "nd",
      "ti", "es", "or", "te", "of", "ed", "is", "it", "al", "ar",
      "st", "to", "nt", "ng", "se", "ha", "as", "ou", "io", "le",
      "ve", "co", "me", "de", "hi", "ri", "ro", "ic", "ne", "ea",
      "ra", "ce", "li", "ch", "ll", "be", "ma", "si", "om", "ur"
    }
  }

  const ConsonantKeys: seq<char> :=
    ['r', 'R', 's', 'e', 'E', 'f', 'a', 'q', 'Q', 't', 'T', 'd', 'w', 'W', 'c', 'z', 'x', 'v', 'g']

  const VowelKeys: seq<char> :=
    ['k', 'o', 'i', 'O', 'j', 'p', 'u', 'P', 'h', 'y', 'n', 'b', 'm', 'l']

  predicate IsConsonantKey(c: char) {
    c in ConsonantKeys
  }

  predicate IsVowelKey(c: char) {
    c in VowelKeys
  }

  /** The consonant list as a set of characters. */
  lemma ConsonantKeyChars(c: char)
    ensures IsConsonantKey(c) <==> c in {'r', 'R', 's', 'e', 'E', 'f', 'a', 'q', 'Q', 't', 'T', 'd', 'w', 'W', 'c', 'z', 'x', 'v', 'g'}
  {
    if c in ConsonantKeys {
      var i :| 0 <= i < |ConsonantKeys| && ConsonantKeys[i] == c;
    }
  }

  /** The vowel list as a set of characters. */
  lemma VowelKeyChars(c: char)
    ensures IsVowelKey(c) <==> c in {'k', 'o', 'i', 'O', 'j', 'p', 'u', 'P', 'h', 'y', 'n', 'b', 'm', 'l'}
  {
    if c in VowelKeys {
      var i :| 0 <= i < |VowelKeys| && VowelKeys[i] == c;
    }
  }

  /** The consonant list is exactly the keys the layout maps to consonants. */
  lemma ConsonantKeysMatchLayout(c: char)
    ensures IsConsonantKey(c) <==> JamoMapper.IsConsonant(c)
  {
    ConsonantKeyChars(c);
    JamoMapper.ConsonantChars(c);
  }

  /** The vowel list is exactly the keys the layout maps to vowels. */
  lemma VowelKeysMatchLayout(c: char)
    ensures IsVowelKey(c) <==> JamoMapper.IsVowel(c)
  {
    VowelKeyChars(c);
    JamoMapper.VowelChars(c);
  }

  /** 19 consonant keys and 14 vowel keys, no key in both lists. */
  lemma KeyListSizes()
    ensures |ConsonantKeys| == 19 && |VowelKeys| == 14
    ensures forall c :: IsConsonantKey(c) ==> !IsVowelKey(c)
  {
    forall c | IsConsonantKey(c)
      ensures !IsVowelKey(c)
    {
      ConsonantKeyChars(c);
      VowelKeyChars(c);
    }
  }

  // The rows one at a time: row `i` pairs each consonant key with vowel key `i`.
  lemma Row0Shape()
    ensures forall j :: 0 <= j < 14 ==> HangulBigramRows[0][j] == [BigramConsonants[j], BigramVowels[0]]
  {
  }

  lemma Row1Shape()
    ensures forall j :: 0 <= j < 14 ==> HangulBigramRows[1][j] == [BigramConsonants[j], BigramVowels[1]]
  {
  }

  lemma Row2Shape()
    ensures forall j :: 0 <= j < 14 ==> HangulBigramRows[2][j] == [BigramConsonants[j], BigramVowels[2]]
  {
  }

  lemma Row3Shape()
    ensures forall j :: 0 <= j < 14 ==> HangulBigramRows[3][j] == [BigramConsonants[j], BigramVowels[3]]
  {
  }

  lemma Row4Shape()
    ensures forall j :: 0 <= j < 14 ==> HangulBigramRows[4][j] == [BigramConsonants[j], BigramVowels[4]]
  {
  }

  lemma Row5Shape()
    ensures forall j :: 0 <= j < 14 ==> HangulBigramRows[5][j] == [BigramConsonants[j], BigramVowels[5]]
  {
  }

  lemma Row6Shape()
    ensures forall j :: 0 <= j < 14 ==> HangulBigramRows[6][j] == [BigramConsonants[j], BigramVowels[6]]
  {
  }

  lemma Row7Shape()
    ensures forall j :: 0 <= j < 14 ==> HangulBigramRows[7][j] == [BigramConsonants[j], BigramVowels[7]]
  {
  }

  lemma Row8Shape()
    ensures forall j :: 0 <= j < 14 ==> HangulBigramRows[8][j] == [BigramConsonants[j], BigramVowels[8]]
  {
  }

  lemma Row9Shape()
    ensures forall j :: 0 <= j < 14 ==> HangulBigramRows[9][j] == [BigramConsonants[j], BigramVowels[9]]
  {
  }

  /** Row `i` pairs every consonant key with the row's vowel key. */
  lemma RowShape(i: nat, j: nat)
    requires i < |HangulBigramRows| && j < |HangulBigramRows[i]|
    ensures |HangulBigramRows[i]| == |BigramConsonants|
    ensures HangulBigramRows[i][j] == [BigramConsonants[j], BigramVowels[i]]
  {
    if i == 0 { Row0Shape(); }
    else if i == 1 { Row1Shape(); }
    else if i == 2 { Row2Shape(); }
    else if i == 3 { Row3Shape(); }
    else if i == 4 { Row4Shape(); }
    else if i == 5 { Row5Shape(); }
    else if i == 6 { Row6Shape(); }
    else if i == 7 { Row7Shape(); }
    else if i == 8 { Row8Shape(); }
    else { Row9Shape(); }
  }

  /**
   * A Hangul bigram is exactly an unshifted consonant key followed by one
   * of the ten vowel keys of the rows.
   */
  lemma {:induction false} HangulBigramShape(b: string)
    ensures b in HangulBigrams <==> |b| == 2 && b[0] in BigramConsonants && b[1] in BigramVowels
  {
    if b in HangulBigrams {
      var i, j :| 0 <= i < |HangulBigramRows| && 0 <= j < |HangulBigramRows[i]| && b == HangulBigramRows[i][j];
      RowShape(i, j);
    }
    if |b| == 2 && b[0] in BigramConsonants && b[1] in BigramVowels {
      var j :| 0 <= j < |BigramConsonants| && BigramConsonants[j] == b[0];
      var i :| 0 <= i < |BigramVowels| && BigramVowels[i] == b[1];
      assert |HangulBigramRows[i]| == 14;
      RowShape(i, j);
      assert b == HangulBigramRows[i][j];
    }
  }

  /** A consonant key followed by a vowel key leaves the machine holding one open syllable. */
  lemma ConsonantVowelRun(c: char, v: char)
    requires JamoMapper.IsConsonant(c) && JamoMapper.IsVowel(v)
    ensures Converter.Run(Fsm.Initial, [c, v])
            == Fsm.Machine(Fsm.ChoseongJungseong, JamoMapper.MapToJamo(c).value.choIndex,
                           JamoMapper.MapToJamo(v).value.jungIndex, 0, "")
  {
    var m1 := Fsm.Machine(Fsm.Choseong, JamoMapper.MapToJamo(c).value.choIndex, 0, 0, "");
    assert Converter.StepChar(Fsm.Initial, c) == m1;
    assert [c, v][1..] == [v];
    assert Converter.Run(Fsm.Initial, [c, v]) == Converter.Run(m1, [v]);
  }

  /** Each Hangul bigram is a consonant key then a vowel key, and converts to a single syllable. */
  lemma {:induction false} HangulBigramTypesSyllable(b: string)
    requires b in HangulBigrams
    ensures IsConsonantKey(b[0]) && IsVowelKey(b[1])
    ensures |Converter.Converted(b)| == 1 && Unicode.IsHangulSyllable(Converter.Converted(b)[0])
  {
    HangulBigramShape(b);
    ConsonantKeysMatchLayout(b[0]);
    VowelKeysMatchLayout(b[1]);
    assert b == [b[0], b[1]];
    ConsonantVowelRun(b[0], b[1]);
    Fsm.PendingDefined(Converter.Run(Fsm.Initial, b));
  }

  lemma InBigramConsonants(c: char)
    ensures c in BigramConsonants <==> c in {'r', 's', 'e', 'f', 'a', 'q', 't', 'd', 'w', 'c', 'z', 'x', 'v', 'g'}
  {
    if c in BigramConsonants {
      var i :| 0 <= i < |BigramConsonants| && BigramConsonants[i] == c;
    }
  }

  lemma InBigramVowels(c: char)
    ensures c in BigramVowels <==> c in {'k', 'j', 'h', 'n', 'm', 'l', 'i', 'u', 'y', 'b'}
  {
    if c in BigramVowels {
      var i :| 0 <= i < |BigramVowels| && BigramVowels[i] == c;
    }
  }

  /** Membership in the Hangul bigrams, decided by the two characters. */
  lemma HangulBigramChars(b: string)
    requires |b| == 2
    ensures b in HangulBigrams <==>
              b[0] in {'r', 's', 'e', 'f', 'a', 'q', 't', 'd', 'w', 'c', 'z', 'x', 'v', 'g'}
              && b[1] in {'k', 'j', 'h', 'n', 'm', 'l', 'i', 'u', 'y', 'b'}
  {
    HangulBigramShape(b);
    InBigramConsonants(b[0]);
    InBigramVowels(b[1]);
  }

  /** The English bigrams that are also Hangul bigrams: th an en ti al ri ch si. */
  lemma SharedBigrams(b: string)
    ensures b in HangulBigrams && IsEnglishBigram(b) <==> b in {"th", "an", "en", "ti", "al", "ri", "ch", "si"}
  {
    if |b| == 2 {
      HangulBigramChars(b);
    } else {
      HangulBigramShape(b);
    }
  }

  lemma HangulBigramExamples()
    ensures "rk" in HangulBigrams && "gk" in HangulBigrams && "th" in HangulBigrams
  {
    HangulBigramShape("rk");
    HangulBigramShape("gk");
    HangulBigramShape("th");
  }

  /** The English bigrams grouped by their first letter. */
  predicate EnglishPair(x: char, y: char) {
    match x
    case 't' => y in {'h', 'i', 'e', 'o'}
    case 'h' => y in {'e', 'a', 'i'}
    case 'i' => y in {'n', 's', 't', 'o', 'c'}
    case 'e' => y in {'r', 'n', 's', 'd', 'a'}
    case 'a' => y in {'n', 't', 'l', 'r', 's'}
    case 'r' => y in {'e', 'i', 'o', 'a'}
    case 'o' => y in {'n', 'r', 'f', 'u', 'm'}
    case 'n' => y in {'d', 't', 'g', 'e'}
    case 's' => y in {'t', 'e', 'i'}
    case 'l' => y in {'e', 'i', 'l'}
    case 'c' => y in {'o', 'e', 'h'}
    case 'm' => y in {'e', 'a'}
    case 'v' => y == 'e'
    case 'd' => y == 'e'
    case 'b' => y == 'e'
    case 'u' => y == 'r'
    case _ => false
  }

  /** A string is an English bigram exactly when it is two letters that the grouping lists. */
  lemma EnglishBigramPair(b: string)
    ensures IsEnglishBigram(b) <==> |b| == 2 && EnglishPair(b[0], b[1])
  {
    if |b| == 2 && EnglishPair(b[0], b[1]) {
      assert b == [b[0], b[1]];
    }
  }

  lemma EnglishBigramExamples()
    ensures IsEnglishBigram("th") && IsEnglishBigram("er") && !IsEnglishBigram("rk")
  {
  }
}
