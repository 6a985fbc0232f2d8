/**
 * Reverse conversion: a Hangul text back to the Latin keys that type it on
 * the two-set layout. Characters other than precomposed syllables are kept.
 */
module Keymap {
  import opened Wrappers
  import opened Unicode
  import opened JamoMapper
  import opened Fsm
  import opened Converter
  import Text

  /** The key of an initial consonant. */
  function ChoseongToEng(cho: nat): (r: Option<char>)
    ensures r.Some? <==> cho < ChoseongCount
  {
    match cho
    case 0 => Some('r')
    case 1 => Some('R')
    case 2 => Some('s')
    case 3 => Some('e')
    case 4 => Some('E')
    case 5 => Some('f')
    case 6 => Some('a')
    case 7 => Some('q')
    case 8 => Some('Q')
    case 9 => Some('t')
    case 10 => Some('T')
    case 11 => Some('d')
    case 12 => Some('w')
    case 13 => Some('W')
    case 14 => Some('c')
    case 15 => Some('z')
    case 16 => Some('x')
    case 17 => Some('v')
    case 18 => Some('g')
    case _ => None
  }

  /** The keys of a vowel: two keys for a compound vowel, none for an index out of range. */
  function JungseongToEng(jung: nat): (r: string)
    ensures |r| == 2 <==> IsCompoundJungseong(jung)
    ensures |r| == 0 <==> jung >= JungseongCount
    ensures |r| <= 2
  {
    match jung
    case 0 => "k"
    case 1 => "o"
    case 2 => "i"
    case 3 => "O"
    case 4 => "j"
    case 5 => "p"
    case 6 => "u"
    case 7 => "P"
    case 8 => "h"
    case 9 => "hk"
    case 10 => "ho"
    case 11 => "hl"
    case 12 => "y"
    case 13 => "n"
    case 14 => "nj"
    case 15 => "np"
    case 16 => "nl"
    case 17 => "b"
    case 18 => "m"
    case 19 => "ml"
    case 20 => "l"
    case _ => ""
  }

  /** The keys of a final: two keys for a compound final, none for "no final" or an index out of range. */
  function JongseongToEng(jong: nat): (r: string)
    ensures |r| == 2 <==> IsCompoundJongseong(jong)
    ensures |r| == 0 <==> jong == 0 || jong >= JongseongCount
    ensures |r| <= 2
  {
    match jong
    case 1 => "r"
    case 2 => "R"
    case 3 => "rt"
    case 4 => "s"
    case 5 => "sw"
    case 6 => "sg"
    case 7 => "e"
    case 8 => "f"
    case 9 => "fr"
    case 10 => "fa"
    case 11 => "fq"
    case 12 => "ft"
    case 13 => "fx"
    case 14 => "fv"
    case 15 => "fg"
    case 16 => "a"
    case 17 => "q"
    case 18 => "qt"
    case 19 => "t"
    case 20 => "T"
    case 21 => "d"
    case 22 => "w"
    case 23 => "c"
    case 24 => "z"
    case 25 => "x"
    case 26 => "v"
    case 27 => "g"
    case _ => ""
  }

  /** The keys of one character: initial, vowel and final keys of a syllable; any other character itself. */
  function SyllableKeys(c: char): (r: string)
    ensures !IsHangulSyllable(c) ==> r == [c]
    ensures IsHangulSyllable(c) ==> 2 <= |r| <= 5
  {
    match DecomposeSyllable(c)
    case Some((cho, jung, jong)) =>
      [ChoseongToEng(cho).value] + JungseongToEng(jung) + JongseongToEng(jong)
    case None => [c]
  }

  /** The key sequence of a whole text. */
  function EngOf(s: string): (r: string)
    ensures |s| <= |r|
    decreases |s|
  {
    if s == [] then [] else SyllableKeys(s[0]) + EngOf(s[1..])
  }

  lemma {:induction false} EngOfAppend(a: string, b: string)
    ensures EngOf(a + b) == EngOf(a) + EngOf(b)
    decreases |a|
  {
    if a == [] {
      assert a + b == b;
    } else {
      assert (a + b)[1..] == a[1..] + b;
      EngOfAppend(a[1..], b);
    }
  }

  /** The keys of a prefix one character longer. */
  lemma EngOfPrefixSnoc(s: string, i: nat)
    requires i < |s|
    ensures EngOf(s[..i + 1]) == EngOf(s[..i]) + SyllableKeys(s[i])
  {
    Text.PrefixSnoc(s, i);
    EngOfSnoc(s[..i], s[i]);
  }

  /** Converts a Hangul text back to its keys, appending each character's keys in turn. */
  method KoreanToEng(input: string) returns (result: string)
    ensures result == EngOf(input)
  {
    result := "";
    for i := 0 to |input|
      invariant result == EngOf(input[..i])
    {
      var c := input[i];
      ghost var before := result;
      var parts := DecomposeSyllable(c);
      if parts.Some? {
        var (cho, jung, jong) := parts.value;
        var eng := ChoseongToEng(cho);
        if eng.Some? {
          result := result + [eng.value];
        }
        result := result + JungseongToEng(jung);
        result := result + JongseongToEng(jong);
      } else {
        result := result + [c];
      }
      assert result == before + SyllableKeys(c);
      EngOfPrefixSnoc(input, i);
    }
    Text.WholePrefix(input);
  }

  /** The key of an initial consonant types exactly that initial consonant. */
  lemma ChoseongKeyTypesInitial(cho: nat)
    requires cho < ChoseongCount
    ensures var j := MapToJamo(ChoseongToEng(cho).value);
            j.Some? && j.value.Consonant? && j.value.choIndex == cho
  {
  }

  /** The vowel keys type the vowel: one key for a simple vowel, two combining keys for a compound. */
  lemma JungseongKeysTypeVowel(jung: nat)
    requires jung < JungseongCount
    ensures var k := JungseongToEng(jung);
            var first := MapToJamo(k[0]);
            first.Some? && first.value.Vowel?
            && (|k| == 1 ==> first.value.jungIndex == jung)
            && (|k| == 2 ==> MapToJamo(k[1]).Some? && MapToJamo(k[1]).value.Vowel?
                             && CombineJungseong(first.value.jungIndex, MapToJamo(k[1]).value.jungIndex) == Some(jung))
  {
    if jung < 9 {
      SimpleVowelKeys(jung);
    } else {
      LaterVowelKeys(jung);
    }
  }

  // The vowel table checked in two parts.
  lemma SimpleVowelKeys(jung: nat)
    requires jung < 9
    ensures var k := JungseongToEng(jung);
            var first := MapToJamo(k[0]);
            first.Some? && first.value.Vowel?
            && (|k| == 1 ==> first.value.jungIndex == jung)
            && (|k| == 2 ==> MapToJamo(k[1]).Some? && MapToJamo(k[1]).value.Vowel?
                             && CombineJungseong(first.value.jungIndex, MapToJamo(k[1]).value.jungIndex) == Some(jung))
  {
  }

  lemma LaterVowelKeys(jung: nat)
    requires 9 <= jung < JungseongCount
    ensures var k := JungseongToEng(jung);
            var first := MapToJamo(k[0]);
            first.Some? && first.value.Vowel?
            && (|k| == 1 ==> first.value.jungIndex == jung)
            && (|k| == 2 ==> MapToJamo(k[1]).Some? && MapToJamo(k[1]).value.Vowel?
                             && CombineJungseong(first.value.jungIndex, MapToJamo(k[1]).value.jungIndex) == Some(jung))
  {
  }

  /** The final keys type the final: one key for a simple final, two combining keys for a compound. */
  lemma JongseongKeysTypeFinal(jong: nat)
    requires 0 < jong < JongseongCount
    ensures var k := JongseongToEng(jong);
            var first := MapToJamo(k[0]);
            first.Some? && first.value.Consonant? && first.value.jongIndex.Some?
            && (|k| == 1 ==> first.value.jongIndex.value == jong)
            && (|k| == 2 ==> MapToJamo(k[1]).Some? && MapToJamo(k[1]).value.Consonant?
                             && MapToJamo(k[1]).value.jongIndex.Some?
                             && CombineJongseong(first.value.jongIndex.value, MapToJamo(k[1]).value.jongIndex.value) == Some(jong))
  {
  }

  /** The machine holding syllable `ch` (not yet emitted) after having emitted `o`. */
  function Holding(ch: char, o: string): Machine
    requires IsHangulSyllable(ch)
  {
    var (cho, jung, jong) := DecomposeSyllable(ch).value;
    if jong == 0 then Machine(ChoseongJungseong, cho, jung, 0, o)
    else Machine(ChoseongJungseongJongseong, cho, jung, jong, o)
  }

  /** The machine before a syllable's keys: empty, or holding the previous syllable. */
  function Before(prev: Option<char>, o: string): Machine
    requires prev.Some? ==> IsHangulSyllable(prev.value)
  {
    if prev.Some? then Holding(prev.value, o) else Machine(Empty, 0, 0, 0, o)
  }

  lemma RunOne(m: Machine, a: char)
    ensures Run(m, [a]) == StepChar(m, a)
  {
    assert [a][1..] == [];
  }

  lemma RunTwo(m: Machine, a: char, b: char)
    ensures Run(m, [a, b]) == StepChar(StepChar(m, a), b)
  {
    assert [a, b][1..] == [b];
    RunOne(StepChar(m, a), b);
  }

  lemma RunKeys(m: Machine, k: string)
    requires |k| <= 2
    ensures |k| == 0 ==> Run(m, k) == m
    ensures |k| == 1 ==> Run(m, k) == StepChar(m, k[0])
    ensures |k| == 2 ==> Run(m, k) == StepChar(StepChar(m, k[0]), k[1])
  {
    if |k| == 1 {
      assert k == [k[0]];
      RunOne(m, k[0]);
    } else if |k| == 2 {
      assert k == [k[0], k[1]];
      RunTwo(m, k[0], k[1]);
    }
  }

  /** Finishing a machine that holds `ch` emits `ch`. */
  lemma FinishHolding(ch: char, o: string)
    requires IsHangulSyllable(ch)
    ensures Finished(Holding(ch, o)) == o + [ch]
  {
    ComposeDecompose(ch);
  }

  /**
   * The initial key of a syllable followed by its first vowel key, read by
   * a machine that is empty or holds the previous syllable: the previous
   * syllable is emitted unchanged and the new one holds the initial and
   * the first vowel. This is where a final that was provisionally attached
   * to the previous syllable moves back.
   */
  lemma {:induction false} InitialThenVowel(prev: Option<char>, o: string, cho: nat, v: nat)
    requires cho < ChoseongCount && v < JungseongCount && !IsCompoundJungseong(v)
    requires prev.Some? ==> IsHangulSyllable(prev.value)
    ensures Run(Before(prev, o), [ChoseongToEng(cho).value, JungseongToJamoKey(v)])
            == Machine(ChoseongJungseong, cho, v, 0, PushSome(o, prev))
  {
    var m := Before(prev, o);
    var key := ChoseongToEng(cho).value;
    ChoseongKeyTypesInitial(cho);
    var jamo := MapToJamo(key).value;
    var vk := JungseongToJamoKey(v);
    JungseongKeysTypeVowel(v);
    assert MapToJamo(vk) == Some(Vowel(v));
    RunTwo(m, key, vk);
    var m1 := StepChar(m, key);
    assert m1 == ConsonantStep(m, cho, jamo.jongIndex);
    if prev.None? {
      assert m1 == Machine(Choseong, cho, 0, 0, o);
    } else {
      var (pc, pj, pf) := DecomposeSyllable(prev.value).value;
      ComposeDecompose(prev.value);
      if jamo.jongIndex.Some? {
        FinalMovesBackToSameInitial(key);
      }
      if pf == 0 {
        if jamo.jongIndex.Some? {
          var y := jamo.jongIndex.value;
          assert m1 == Machine(ChoseongJungseongJongseong, pc, pj, y, o);
          assert JongseongToChoseong(y) == Some(cho);
          assert Flushed(m1.(jongseong := 0)).output == o + [prev.value];
        } else {
          assert m1 == Machine(Choseong, cho, 0, 0, o + [prev.value]);
        }
      } else {
        if jamo.jongIndex.Some? && CombineJongseong(pf, jamo.jongIndex.value).Some? {
          var y := jamo.jongIndex.value;
          var z := CombineJongseong(pf, y).value;
          assert m1 == Machine(ChoseongJungseongJongseong, pc, pj, z, o);
          SplitInvertsCombine(pf, y);
          assert SplitJongseong(z) == Some((pf, cho));
          assert Flushed(m1.(jongseong := pf)).output == o + [prev.value];
        } else {
          assert m1 == Machine(Choseong, cho, 0, 0, o + [prev.value]);
        }
      }
    }
  }

  /** The vowel typed by the first vowel key of `jung`. */
  function JungseongToJamoKey(v: nat): char
    requires v < JungseongCount
  {
    JungseongToEng(v)[0]
  }

  /** The remaining keys of a syllable (second vowel key, final keys) complete it. */
  lemma {:induction false} RestOfSyllable(ch: char, o: string)
    requires IsHangulSyllable(ch)
    ensures var (cho, jung, jong) := DecomposeSyllable(ch).value;
            var v := MapToJamo(JungseongToJamoKey(jung)).value.jungIndex;
            Run(Machine(ChoseongJungseong, cho, v, 0, o), JungseongToEng(jung)[1..] + JongseongToEng(jong))
            == Holding(ch, o)
  {
    var (cho, jung, jong) := DecomposeSyllable(ch).value;
    JungseongKeysTypeVowel(jung);
    var jk := JungseongToEng(jung);
    var v := MapToJamo(jk[0]).value.jungIndex;
    var m0 := Machine(ChoseongJungseong, cho, v, 0, o);
    RunAppend(m0, jk[1..], JongseongToEng(jong));
    RunKeys(m0, jk[1..]);
    var m1 := Machine(ChoseongJungseong, cho, jung, 0, o);
    assert Run(m0, jk[1..]) == m1;
    var fk := JongseongToEng(jong);
    RunKeys(m1, fk);
    if jong != 0 {
      JongseongKeysTypeFinal(jong);
    }
  }

  /** The first vowel key of a vowel types a simple vowel, whose own first key is that same key. */
  lemma FirstVowelKey(jung: nat)
    requires jung < JungseongCount
    ensures MapToJamo(JungseongToJamoKey(jung)).Some? && MapToJamo(JungseongToJamoKey(jung)).value.Vowel?
    ensures var v := MapToJamo(JungseongToJamoKey(jung)).value.jungIndex;
            v < JungseongCount && !IsCompoundJungseong(v) && JungseongToJamoKey(v) == JungseongToJamoKey(jung)
  {
    JungseongKeysTypeVowel(jung);
  }

  /** A syllable's keys: its initial key and first vowel key, then the rest. */
  lemma SyllableKeysParts(ch: char)
    requires IsHangulSyllable(ch)
    ensures var (cho, jung, jong) := DecomposeSyllable(ch).value;
            SyllableKeys(ch) == [ChoseongToEng(cho).value, JungseongToJamoKey(jung)]
                                + (JungseongToEng(jung)[1..] + JongseongToEng(jong))
  {
    var (cho, jung, jong) := DecomposeSyllable(ch).value;
    JungseongKeysTypeVowel(jung);
    var jk := JungseongToEng(jung);
    assert jk == [jk[0]] + jk[1..];
  }

  /** The keys of one syllable, read by a machine that is empty or holds the previous syllable. */
  lemma {:induction false} ReadSyllable(prev: Option<char>, o: string, ch: char)
    requires IsHangulSyllable(ch)
    requires prev.Some? ==> IsHangulSyllable(prev.value)
    ensures Run(Before(prev, o), SyllableKeys(ch)) == Holding(ch, PushSome(o, prev))
  {
    var (cho, jung, jong) := DecomposeSyllable(ch).value;
    FirstVowelKey(jung);
    var v := MapToJamo(JungseongToJamoKey(jung)).value.jungIndex;
    var head := [ChoseongToEng(cho).value, JungseongToJamoKey(jung)];
    var tail := JungseongToEng(jung)[1..] + JongseongToEng(jong);
    SyllableKeysParts(ch);
    RunAppend(Before(prev, o), head, tail);
    InitialThenVowel(prev, o, cho, v);
    RestOfSyllable(ch, PushSome(o, prev));
  }

  lemma EngOfSnoc(p: string, ch: char)
    ensures EngOf(p + [ch]) == EngOf(p) + SyllableKeys(ch)
  {
    EngOfAppend(p, [ch]);
    assert [ch][1..] == [];
    assert EngOf([ch]) == SyllableKeys(ch) + [];
  }

  /** The keys of one more syllable, after the keys of `p`, leave the machine holding it. */
  lemma ReadNextSyllable(p: string, ch: char)
    requires |p| > 0 && IsHangulSyllable(p[|p| - 1]) && IsHangulSyllable(ch)
    requires Run(Initial, EngOf(p)) == Holding(p[|p| - 1], p[..|p| - 1])
    ensures Run(Initial, EngOf(p + [ch])) == Holding(ch, p)
  {
    var o, prev := p[..|p| - 1], p[|p| - 1];
    EngOfSnoc(p, ch);
    RunAppend(Initial, EngOf(p), SyllableKeys(ch));
    ReadSyllable(Some(prev), o, ch);
    Text.FrontThenLast(p);
    assert PushSome(o, Some(prev)) == p;
  }

  /** The keys of a first syllable leave the machine holding it. */
  lemma ReadFirstSyllable(ch: char)
    requires IsHangulSyllable(ch)
    ensures Run(Initial, EngOf([ch])) == Holding(ch, "")
  {
    assert EngOf([ch]) == SyllableKeys(ch);
    ReadSyllable(None, "", ch);
  }

  /** A string of syllables is read back into a machine holding its last syllable. */
  lemma {:induction false} ReadSyllables(s: string)
    requires |s| > 0
    requires forall i :: 0 <= i < |s| ==> IsHangulSyllable(s[i])
    ensures Run(Initial, EngOf(s)) == Holding(s[|s| - 1], s[..|s| - 1])
    decreases |s|
  {
    var p := s[..|s| - 1];
    Text.FrontThenLast(s);
    if p == [] {
      ReadFirstSyllable(s[0]);
    } else {
      ReadSyllables(p);
      ReadNextSyllable(p, s[|s| - 1]);
    }
  }

  /** Every string of precomposed syllables survives korean_to_eng followed by convert. */
  lemma {:induction false} SyllablesRoundTrip(s: string)
    requires forall i :: 0 <= i < |s| ==> IsHangulSyllable(s[i])
    ensures Converted(EngOf(s)) == s
  {
    if s == [] {
      assert EngOf(s) == [];
      assert Run(Initial, []) == Initial;
    } else {
      ReadSyllables(s);
      FinishHolding(s[|s| - 1], s[..|s| - 1]);
      Text.FrontThenLast(s);
    }
  }

  /**
   * convert undoes korean_to_eng on every text that contains no key of the
   * layout: syllables come back from their keys, and every other character
   * (digits, punctuation, spaces, lone jamo, non-layout letters) is kept.
   */
  lemma {:induction false} TextRoundTrip(s: string)
    requires forall i :: 0 <= i < |s| ==> MapToJamo(s[i]).None?
    ensures Converted(EngOf(s)) == s
    decreases |s|
  {
    if forall i :: 0 <= i < |s| ==> IsHangulSyllable(s[i]) {
      SyllablesRoundTrip(s);
    } else {
      var k :| 0 <= k < |s| && !IsHangulSyllable(s[k]);
      var a, x, b := s[..k], s[k], s[k + 1..];
      assert s == a + [x] + b;
      EngOfAppend(a + [x], b);
      EngOfAppend(a, [x]);
      assert EngOf([x]) == [x];
      ConvertSplitsAtUnmapped(EngOf(a), x, EngOf(b));
      TextRoundTrip(a);
      TextRoundTrip(b);
    }
  }

  // One syllable at a time: each fact is evaluated by the verifier on its own.
  lemma EngOfGa() ensures EngOf("가") == "rk" {}
  lemma EngOfNa() ensures EngOf("나") == "sk" {}
  lemma EngOfDa() ensures EngOf("다") == "ek" {}
  lemma EngOfRa() ensures EngOf("라") == "fk" {}
  lemma EngOfGak() ensures EngOf("각") == "rkr" {}
  lemma EngOfHan() ensures EngOf("한") == "gks" {}
  lemma EngOfGeul() ensures EngOf("글") == "rmf" {}
  lemma EngOfAn() ensures EngOf("안") == "dks" {}
  lemma EngOfNyeong() ensures EngOf("녕") == "sud" {}
  lemma EngOfWan() ensures EngOf("완") == "dhks" {}
  lemma EngOfWen() ensures EngOf("웬") == "dnps" {}
  lemma EngOfUi() ensures EngOf("의") == "dml" {}
  lemma EngOfWon() ensures EngOf("원") == "dnjs" {}
  lemma EngOfIlk() ensures EngOf("읽") == "dlfr" {}
  lemma EngOfEops() ensures EngOf("없") == "djqt" {}
  lemma EngOfSalm() ensures EngOf("삶") == "tkfa" {}
  lemma EngOfKka() ensures EngOf("까") == "Rk" {}
  lemma EngOfSsa() ensures EngOf("싸") == "Tk" {}
  lemma EngOfPpa() ensures EngOf("빠") == "Qk" {}

  lemma EngOfAnnyeong()
    ensures EngOf("안녕") == "dkssud"
  {
    EngOfAn();
    EngOfNyeong();
    EngOfAppend("안", "녕");
    assert "안" + "녕" == "안녕";
  }

  lemma EngOfHangeul()
    ensures EngOf("한글") == "gksrmf"
  {
    EngOfHan();
    EngOfGeul();
    EngOfAppend("한", "글");
    assert "한" + "글" == "한글";
  }

  lemma EngOfGanada()
    ensures EngOf("가나다") == "rkskek"
  {
    EngOfGa();
    EngOfNa();
    EngOfDa();
    EngOfAppend("가", "나");
    EngOfAppend("가나", "다");
    assert "가" + "나" == "가나" && "가나" + "다" == "가나다";
  }

  lemma EngOfMixedText()
    ensures EngOf("가1나") == "rk1sk"
  {
    EngOfGa();
    EngOfNa();
    assert EngOf("1") == "1";
    EngOfAppend("가", "1");
    EngOfAppend("가1", "나");
    assert "가" + "1" == "가1" && "가1" + "나" == "가1나";
  }

  lemma EngOfWithPunctuation()
    ensures EngOf("안녕!") == "dkssud!"
  {
    EngOfAnnyeong();
    EngOfAppend("안녕", "!");
  }

  lemma EngOfNonHangul()
    ensures EngOf("abc") == "abc" && EngOf("123") == "123" && EngOf("") == ""
  {
  }

  /** The keys of 안녕 convert to 안녕 and come back to the same keys. */
  lemma KeysRoundTripExample()
    ensures Converted("dkssud") == "안녕" && EngOf(Converted("dkssud")) == "dkssud"
  {
    EngOfAnnyeong();
    SyllablesRoundTrip("안녕");
  }
}
