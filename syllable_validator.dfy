/**
 * Naturalness of the syllable structure of a conversion result: initial
 * and vowel pairs that are extremely rare in Korean, and final-to-initial
 * transitions between neighbouring syllables that are extremely rare.
 */
module SyllableValidator {
  import Text
  import opened Wrappers
  import opened Unicode
  import Validator
  import Converter

  /**
   * An initial and vowel pair that Korean words almost never use:
   * ㅒ except after ㄱ ㅇ ㅈ; ㅙ and ㅞ except after ㅇ; a doubled initial
   * before a y-vowel or ㅢ; ㅑ except after ㄱ ㄴ ㅅ ㅇ.
   */
  predicate IsRareOnset(cho: nat, jung: nat) {
    if jung == 3 && cho !in {0, 11, 12} then true
    else if jung == 10 && cho != 11 then true
    else if jung == 15 && cho != 11 then true
    else if cho in {1, 4, 8, 13} && jung in {2, 7, 12, 17, 19} then true
    else if jung == 2 && cho !in {0, 2, 9, 11} then true
    else false
  }

  /** A final followed by an initial that Korean almost never writes across a syllable boundary. */
  predicate IsRareTransition(prevJong: nat, nextCho: nat) {
    if prevJong == 0 then false
    else
      match (prevJong, nextCho)
      case (17, 17) => true
      case (7, 16) => true
      case (1, 15) => true
      case (17, 8) => true
      case (7, 4) => true
      case (22, 13) => true
      case (23, 14) => true
      case (24, 15) => true
      case (25, 16) => true
      case (26, 17) => true
      case _ => false
  }

  /** A precomposed syllable whose onset is rare. */
  predicate IsRareSyllable(c: char) {
    var d := DecomposeSyllable(c);
    d.Some? && IsRareOnset(d.value.0, d.value.1)
  }

  /** Two precomposed syllables with a rare transition from the first's final to the second's initial. */
  predicate IsRareStep(a: char, b: char) {
    var da := DecomposeSyllable(a);
    var db := DecomposeSyllable(b);
    da.Some? && db.Some? && IsRareTransition(da.value.2, db.value.0)
  }

  /** Number of precomposed syllables in `s`. */
  function SyllableCount(s: string): (r: nat)
    ensures r <= |s|
  {
    if s == [] then 0
    else SyllableCount(s[..|s| - 1]) + (if IsHangulSyllable(s[|s| - 1]) then 1 else 0)
  }

  /** Number of rare syllables in `s`. */
  function RareCount(s: string): (r: nat)
    ensures r <= SyllableCount(s)
  {
    if s == [] then 0
    else RareCount(s[..|s| - 1]) + (if IsRareSyllable(s[|s| - 1]) then 1 else 0)
  }

  /** Number of neighbouring syllable pairs of `s` with a rare transition. */
  function TransitionCount(s: string): (r: nat)
    ensures r < |s| || r == 0
  {
    if |s| < 2 then 0
    else TransitionCount(s[..|s| - 1]) + (if IsRareStep(s[|s| - 2], s[|s| - 1]) then 1 else 0)
  }

  /** Two rare syllables stand next to each other. */
  predicate HasAdjacentRare(s: string) {
    exists i :: 0 <= i < |s| - 1 && IsRareSyllable(s[i]) && IsRareSyllable(s[i + 1])
  }

  /**
   * A natural structure: no two rare syllables in a row, rare syllables
   * under half of all syllables, at most one rare transition, and no rare
   * transition together with a rare syllable in a text of three syllables
   * or fewer.
   */
  predicate NaturalStructure(s: string) {
    var total := SyllableCount(s);
    var rare := RareCount(s);
    var transitions := TransitionCount(s);
    !HasAdjacentRare(s)
    && !(total > 0 && rare as real / total as real >= 0.5)
    && transitions < 2
    && !(total <= 3 && transitions >= 1 && rare >= 1)
  }

  /** Scans `text` once, counting as it goes and stopping at the second rare syllable in a row. */
  method CheckSyllableStructure(text: string) returns (r: bool)
    ensures r <==> NaturalStructure(text)
  {
    var consecutiveRare := 0;
    var totalSyllables := 0;
    var rareCount := 0;
    var rareTransitions := 0;
    var prevJongseong: Option<nat> := None;
    for i := 0 to |text|
      invariant totalSyllables == SyllableCount(text[..i])
      invariant rareCount == RareCount(text[..i])
      invariant rareTransitions == TransitionCount(text[..i])
      invariant !HasAdjacentRare(text[..i])
      invariant consecutiveRare == (if i > 0 && IsRareSyllable(text[i - 1]) then 1 else 0)
      invariant prevJongseong.Some? <==> i > 0 && IsHangulSyllable(text[i - 1])
      invariant prevJongseong.Some? ==> prevJongseong.value == DecomposeSyllable(text[i - 1]).value.2
    {
      CountsStep(text, i);
      SyllableStep(text, i);
      var d := DecomposeSyllable(text[i]);
      if d.Some? {
        var (cho, jung, jong) := d.value;
        totalSyllables := totalSyllables + 1;
        if IsRareOnset(cho, jung) {
          rareCount := rareCount + 1;
          consecutiveRare := consecutiveRare + 1;
          if consecutiveRare >= 2 {
            assert IsRareSyllable(text[i - 1]) && IsRareSyllable(text[i]);
            AdjacentRareExtends(text, i - 1);
            return false;
          }
        } else {
          consecutiveRare := 0;
        }
        if prevJongseong.Some? {
          if IsRareTransition(prevJongseong.value, cho) {
            rareTransitions := rareTransitions + 1;
          }
        }
        prevJongseong := Some(jong);
      } else {
        consecutiveRare := 0;
        prevJongseong := None;
      }
      NoAdjacentRareExtends(text, i);
    }
    Text.WholePrefix(text);
    if totalSyllables > 0 && rareCount as real / totalSyllables as real >= 0.5 {
      return false;
    }
    if rareTransitions >= 2 {
      return false;
    }
    if totalSyllables <= 3 && rareTransitions >= 1 && rareCount >= 1 {
      return false;
    }
    return true;
  }

  /** The counts of a prefix one character longer. */
  lemma CountsStep(text: string, i: nat)
    requires i < |text|
    ensures SyllableCount(text[..i + 1]) == SyllableCount(text[..i]) + (if IsHangulSyllable(text[i]) then 1 else 0)
    ensures RareCount(text[..i + 1]) == RareCount(text[..i]) + (if IsRareSyllable(text[i]) then 1 else 0)
    ensures TransitionCount(text[..i + 1])
            == TransitionCount(text[..i]) + (if i > 0 && IsRareStep(text[i - 1], text[i]) then 1 else 0)
  {
    var prefix := text[..i + 1];
    assert prefix[..i] == text[..i];
    assert i > 0 ==> prefix[i - 1] == text[i - 1];
  }

  /** Whether the character at `i` is rare, and whether it is a rare step, in terms of its indices. */
  lemma SyllableStep(text: string, i: nat)
    requires i < |text|
    ensures DecomposeSyllable(text[i]).Some? ==>
              (IsRareSyllable(text[i]) <==> IsRareOnset(DecomposeSyllable(text[i]).value.0, DecomposeSyllable(text[i]).value.1))
    ensures DecomposeSyllable(text[i]).None? ==> !IsRareSyllable(text[i])
    ensures i > 0 ==>
              (IsRareStep(text[i - 1], text[i])
               <==> DecomposeSyllable(text[i - 1]).Some? && DecomposeSyllable(text[i]).Some?
                    && IsRareTransition(DecomposeSyllable(text[i - 1]).value.2, DecomposeSyllable(text[i]).value.0))
  {
  }

  /** A rare pair at `j`, `j + 1` is a rare pair of the whole text. */
  lemma AdjacentRareExtends(text: string, j: nat)
    requires j + 1 < |text| && IsRareSyllable(text[j]) && IsRareSyllable(text[j + 1])
    ensures HasAdjacentRare(text)
  {
  }

  /** The prefix grows by one character without creating a rare pair, unless the last two are one. */
  lemma NoAdjacentRareExtends(text: string, i: nat)
    requires i < |text| && !HasAdjacentRare(text[..i])
    requires !(i > 0 && IsRareSyllable(text[i - 1]) && IsRareSyllable(text[i]))
    ensures !HasAdjacentRare(text[..i + 1])
  {
    var p := text[..i + 1];
    forall k | 0 <= k < |p| - 1
      ensures !(IsRareSyllable(p[k]) && IsRareSyllable(p[k + 1]))
    {
      if k + 1 < i {
        assert p[k] == text[..i][k] && p[k + 1] == text[..i][k + 1];
      }
    }
  }

  /** The threshold of one half, stated on the counts. */
  lemma RareRatioIffHalf(s: string)
    ensures (SyllableCount(s) > 0 && RareCount(s) as real / SyllableCount(s) as real >= 0.5)
            <==> SyllableCount(s) > 0 && 2 * RareCount(s) >= SyllableCount(s)
  {
    if SyllableCount(s) > 0 {
      Validator.HalfOfCount(RareCount(s), SyllableCount(s));
    }
  }

  /** Only the y-vowels, ㅒ ㅙ ㅞ and ㅢ can make an onset rare. */
  lemma RareOnsetVowels(cho: nat, jung: nat)
    requires IsRareOnset(cho, jung)
    ensures jung in {2, 3, 7, 10, 12, 15, 17, 19}
  {
  }

  /** The silent initial ㅇ never makes a rare onset. */
  lemma SilentInitialNeverRare(jung: nat)
    ensures !IsRareOnset(11, jung)
  {
  }

  /** A rare transition always leaves a real final and enters an aspirated or doubled initial. */
  lemma RareTransitionShape(prevJong: nat, nextCho: nat)
    requires IsRareTransition(prevJong, nextCho)
    ensures prevJong in {1, 7, 17, 22, 23, 24, 25, 26}
    ensures nextCho in {4, 8, 13, 14, 15, 16, 17}
  {
  }

  /** Text with no syllable at all is natural: every count is zero. */
  lemma {:induction false} NoSyllablesIsNatural(s: string)
    requires forall i :: 0 <= i < |s| ==> !IsHangulSyllable(s[i])
    ensures NaturalStructure(s)
    decreases |s|
  {
    if s != [] {
      var p := s[..|s| - 1];
      NoSyllablesIsNatural(p);
      if |s| >= 2 {
        assert !IsRareStep(s[|s| - 2], s[|s| - 1]);
      }
    }
  }

  // The behaviours exercised by the source's own test cases.
  lemma OnsetExamples()
    ensures !IsRareOnset(0, 3) && !IsRareOnset(11, 3) && IsRareOnset(6, 3)
    ensures !IsRareOnset(11, 10) && IsRareOnset(0, 10) && !IsRareOnset(11, 15) && IsRareOnset(0, 15)
    ensures IsRareOnset(1, 2) && IsRareOnset(4, 7)
    ensures IsRareOnset(6, 2) && IsRareOnset(17, 2) && IsRareOnset(12, 2) && IsRareOnset(5, 2)
    ensures !IsRareOnset(0, 2) && !IsRareOnset(2, 2) && !IsRareOnset(9, 2) && !IsRareOnset(11, 2)
  {
  }

  lemma TransitionExamples()
    ensures IsRareTransition(17, 17) && IsRareTransition(7, 16) && IsRareTransition(1, 15)
    ensures !IsRareTransition(0, 17) && !IsRareTransition(4, 11) && !IsRareTransition(8, 11)
  {
  }

  lemma RarePairRejected()
    ensures !NaturalStructure("쟈랴")
  {
    assert IsRareSyllable("쟈랴"[0]) && IsRareSyllable("쟈랴"[1]);
  }

  lemma HalfRareRejected()
    ensures !NaturalStructure("먀뇨")
  {
    assert "먀뇨"[..1] == "먀";
  }

  lemma OneRareInThreeAccepted()
    ensures NaturalStructure("먀나다")
  {
    assert "먀나다"[..2] == "먀나";
    assert "먀나다"[..2][..1] == "먀";
    assert !IsRareSyllable('나') && !IsRareSyllable('다');
  }

  lemma CommonWordAccepted()
    ensures NaturalStructure("한글")
  {
    assert "한글"[..1] == "한";
  }

  /** Typing "wifi" with the Korean layout on gives 쟈랴, which the structure check rejects. */
  lemma WifiBlocked()
    ensures Converter.Converted("wifi") == "쟈랴"
    ensures !NaturalStructure(Converter.Converted("wifi"))
  {
    Converter.ConvertsWifi();
    RarePairRejected();
  }
}
