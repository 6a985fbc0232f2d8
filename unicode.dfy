/**
 * Composition and decomposition of precomposed Hangul syllables
 * (U+AC00..U+D7A3) and the index tables that combine and split
 * compound vowels and compound final consonants.
 *
 * Indices follow the Unicode ordering: 19 initial consonants (choseong),
 * 21 vowels (jungseong), 28 finals (jongseong, 0 meaning "no final").
 */
module Unicode {
  import opened Wrappers

  const HangulSyllableBase: int := 0xAC00
  const ChoseongCount: nat := 19
  const JungseongCount: nat := 21
  const JongseongCount: nat := 28
  /** Code point of the last precomposed syllable, U+D7A3. */
  const HangulSyllableLast: int := 0xAC00 + 11171

  /** A precomposed Hangul syllable. */
  predicate IsHangulSyllable(c: char) {
    HangulSyllableBase <= c as int <= HangulSyllableLast
  }

  /** A Hangul compatibility jamo of the consonant or vowel block. */
  predicate IsCompatJamo(c: char) {
    0x3131 <= c as int <= 0x3163
  }

  /** The compound vowels: ㅘ ㅙ ㅚ ㅝ ㅞ ㅟ ㅢ. */
  predicate IsCompoundJungseong(jung: nat) {
    jung in {9, 10, 11, 14, 15, 16, 19}
  }

  /** The compound finals: ㄳ ㄵ ㄶ ㄺ ㄻ ㄼ ㄽ ㄾ ㄿ ㅀ ㅄ. */
  predicate IsCompoundJongseong(jong: nat) {
    jong in {3, 5, 6, 9, 10, 11, 12, 13, 14, 15, 18}
  }

  /** The syllable offset of an index triple (within the block when the indices are in range). */
  function SyllableOffset(cho: nat, jung: nat, jong: nat): nat {
    (cho * JungseongCount + jung) * JongseongCount + jong
  }

  lemma OffsetBound(cho: nat, jung: nat, jong: nat)
    requires cho < ChoseongCount && jung < JungseongCount && jong < JongseongCount
    ensures SyllableOffset(cho, jung, jong) <= 11171
  {
    assert cho * 21 <= 18 * 21;
    assert cho * 21 + jung <= 398;
    assert (cho * 21 + jung) * 28 <= 398 * 28;
  }

  /** Builds the precomposed syllable for an index triple; None when an index is out of range. */
  function ComposeSyllable(cho: nat, jung: nat, jong: nat): (r: Option<char>)
    ensures r.Some? <==> cho < ChoseongCount && jung < JungseongCount && jong < JongseongCount
    ensures r.Some? ==> IsHangulSyllable(r.value)
  {
    if cho >= ChoseongCount || jung >= JungseongCount || jong >= JongseongCount then
      None
    else
      OffsetBound(cho, jung, jong);
      Some((HangulSyllableBase + SyllableOffset(cho, jung, jong)) as char)
  }

  /** Splits a precomposed syllable into its index triple; None for any other character. */
  function DecomposeSyllable(c: char): (r: Option<(nat, nat, nat)>)
    ensures r.Some? <==> IsHangulSyllable(c)
    ensures r.Some? ==> r.value.0 < ChoseongCount && r.value.1 < JungseongCount && r.value.2 < JongseongCount
  {
    var code := c as int;
    if !(HangulSyllableBase <= code <= HangulSyllableLast) then
      None
    else
      var offset := code - HangulSyllableBase;
      Some((offset / (JungseongCount * JongseongCount), (offset / JongseongCount) % JungseongCount, offset % JongseongCount))
  }

  /** Decomposing a composed syllable gives back its indices. */
  lemma {:induction false} DecomposeCompose(cho: nat, jung: nat, jong: nat)
    requires cho < ChoseongCount && jung < JungseongCount && jong < JongseongCount
    ensures DecomposeSyllable(ComposeSyllable(cho, jung, jong).value) == Some((cho, jung, jong))
  {
    var off := SyllableOffset(cho, jung, jong);
    OffsetBound(cho, jung, jong);
    var c := ComposeSyllable(cho, jung, jong).value;
    assert c as int - HangulSyllableBase == off;
    var q := cho * 21 + jung;
    DivModFinal(q, jong);
    DivModVowel(cho, jung);
    DivModInitial(cho, jung * 28 + jong);
  }

  /** Splitting an offset into the final and the rest. */
  lemma DivModFinal(q: nat, r: nat)
    requires r < 28
    ensures (q * 28 + r) / 28 == q && (q * 28 + r) % 28 == r
  {
  }

  /** Splitting the rest into the initial and the vowel. */
  lemma DivModVowel(q: nat, r: nat)
    requires r < 21
    ensures (q * 21 + r) / 21 == q && (q * 21 + r) % 21 == r
  {
  }

  /** Splitting an offset into the initial and the rest. */
  lemma DivModInitial(q: nat, r: nat)
    requires r < 588
    ensures (q * 588 + r) / 588 == q
  {
  }

  /** Composing the indices of a syllable gives back the syllable. */
  lemma {:induction false} ComposeDecompose(c: char)
    requires IsHangulSyllable(c)
    ensures var t := DecomposeSyllable(c).value; ComposeSyllable(t.0, t.1, t.2) == Some(c)
  {
    var t := DecomposeSyllable(c).value;
    var off := c as int - HangulSyllableBase;
    assert off == (off / 28) * 28 + off % 28;
    assert off / 28 == (off / 588) * 21 + (off / 28) % 21;
    assert SyllableOffset(t.0, t.1, t.2) == off;
  }

  /** Combines two vowels into a compound vowel (ㅗ+ㅏ=ㅘ and the like). */
  function CombineJungseong(first: nat, second: nat): (r: Option<nat>)
    ensures r.Some? ==> IsCompoundJungseong(r.value)
  {
    match (first, second)
    case (8, 0) => Some(9)
    case (8, 1) => Some(10)
    case (8, 20) => Some(11)
    case (13, 4) => Some(14)
    case (13, 5) => Some(15)
    case (13, 20) => Some(16)
    case (18, 20) => Some(19)
    case _ => None
  }

  /** Combines two finals into a compound final (ㄹ+ㄱ=ㄺ and the like). */
  function CombineJongseong(first: nat, second: nat): (r: Option<nat>)
    ensures r.Some? ==> IsCompoundJongseong(r.value) && !IsCompoundJongseong(first)
  {
    match (first, second)
    case (1, 19) => Some(3)
    case (4, 22) => Some(5)
    case (4, 27) => Some(6)
    case (8, 1) => Some(9)
    case (8, 16) => Some(10)
    case (8, 17) => Some(11)
    case (8, 19) => Some(12)
    case (8, 25) => Some(13)
    case (8, 26) => Some(14)
    case (8, 27) => Some(15)
    case (17, 19) => Some(18)
    case _ => None
  }

  /**
   * Splits a compound final into the final that stays and the initial
   * consonant index of the part that moves to the next syllable.
   */
  function SplitJongseong(jong: nat): (r: Option<(nat, nat)>)
    ensures r.Some? <==> IsCompoundJongseong(jong)
    ensures r.Some? ==> r.value.1 < ChoseongCount && 0 < r.value.0 < JongseongCount
  {
    match jong
    case 3 => Some((1, 9))
    case 5 => Some((4, 12))
    case 6 => Some((4, 18))
    case 9 => Some((8, 0))
    case 10 => Some((8, 6))
    case 11 => Some((8, 7))
    case 12 => Some((8, 9))
    case 13 => Some((8, 16))
    case 14 => Some((8, 17))
    case 15 => Some((8, 18))
    case 18 => Some((17, 9))
    case _ => None
  }

  /** The initial-consonant index of a simple final, used when the final moves to the next syllable. */
  function JongseongToChoseong(jong: nat): (r: Option<nat>)
    ensures r.Some? <==> 0 < jong < JongseongCount && !IsCompoundJongseong(jong)
    ensures r.Some? ==> r.value < ChoseongCount
  {
    match jong
    case 1 => Some(0)
    case 2 => Some(1)
    case 4 => Some(2)
    case 7 => Some(3)
    case 8 => Some(5)
    case 16 => Some(6)
    case 17 => Some(7)
    case 19 => Some(9)
    case 20 => Some(10)
    case 21 => Some(11)
    case 22 => Some(12)
    case 23 => Some(14)
    case 24 => Some(15)
    case 25 => Some(16)
    case 26 => Some(17)
    case 27 => Some(18)
    case _ => None
  }

  /** Compatibility-jamo code points of the 19 initial consonants, in index order. */
  const ChoseongJamoCodes: seq<int> :=
    [0x3131, 0x3132, 0x3134, 0x3137, 0x3138, 0x3139, 0x3141, 0x3142, 0x3143, 0x3145,
     0x3146, 0x3147, 0x3148, 0x3149, 0x314A, 0x314B, 0x314C, 0x314D, 0x314E]

  /** The standalone compatibility glyph of an initial consonant. */
  function ChoseongToJamoChar(cho: nat): (r: Option<char>)
    ensures r.Some? <==> cho < ChoseongCount
    ensures r.Some? ==> 0x3131 <= r.value as int <= 0x314E
  {
    if cho < ChoseongCount then Some(ChoseongJamoCodes[cho] as char) else None
  }

  /** Compatibility-jamo code points of the 21 vowels, in index order. */
  const JungseongJamoCodes: seq<int> :=
    [0x314F, 0x3150, 0x3151, 0x3152, 0x3153, 0x3154, 0x3155, 0x3156, 0x3157, 0x3158,
     0x3159, 0x315A, 0x315B, 0x315C, 0x315D, 0x315E, 0x315F, 0x3160, 0x3161, 0x3162, 0x3163]

  /** The standalone compatibility glyph of a vowel. */
  function JungseongToJamoChar(jung: nat): (r: Option<char>)
    ensures r.Some? <==> jung < JungseongCount
    ensures r.Some? ==> r.value as int == 0x314F + jung
  {
    if jung < JungseongCount then Some(JungseongJamoCodes[jung] as char) else None
  }

  /** The consonant glyph table is strictly increasing, hence one glyph per initial consonant. */
  lemma ChoseongJamoInjective(a: nat, b: nat)
    requires a < ChoseongCount && b < ChoseongCount && a != b
    ensures ChoseongToJamoChar(a) != ChoseongToJamoChar(b)
  {
    assert forall i, j :: 0 <= i < j < |ChoseongJamoCodes| ==> ChoseongJamoCodes[i] < ChoseongJamoCodes[j];
  }

  /** Every glyph either table produces is a compatibility jamo and never a syllable. */
  lemma JamoGlyphsAreCompat(cho: nat, jung: nat)
    ensures ChoseongToJamoChar(cho).Some? ==> IsCompatJamo(ChoseongToJamoChar(cho).value)
    ensures JungseongToJamoChar(jung).Some? ==> IsCompatJamo(JungseongToJamoChar(jung).value)
  {
  }

  /**
   * Splitting undoes combining: the compound made from a final and a
   * following consonant splits back into that final, with the consonant
   * moving over as the next initial.
   */
  lemma SplitInvertsCombine(first: nat, second: nat)
    requires CombineJongseong(first, second).Some?
    ensures JongseongToChoseong(second).Some?
    ensures SplitJongseong(CombineJongseong(first, second).value)
            == Some((first, JongseongToChoseong(second).value))
  {
  }

  /** Every compound final is made by combining exactly the parts it splits into. */
  lemma CombineCoversSplit(jong: nat)
    requires SplitJongseong(jong).Some?
    ensures exists second :: JongseongToChoseong(second) == Some(SplitJongseong(jong).value.1)
                             && CombineJongseong(SplitJongseong(jong).value.0, second) == Some(jong)
  {
    match jong
    case 3 => assert JongseongToChoseong(19) == Some(9) && CombineJongseong(1, 19) == Some(3);
    case 5 => assert JongseongToChoseong(22) == Some(12) && CombineJongseong(4, 22) == Some(5);
    case 6 => assert JongseongToChoseong(27) == Some(18) && CombineJongseong(4, 27) == Some(6);
    case 9 => assert JongseongToChoseong(1) == Some(0) && CombineJongseong(8, 1) == Some(9);
    case 10 => assert JongseongToChoseong(16) == Some(6) && CombineJongseong(8, 16) == Some(10);
    case 11 => assert JongseongToChoseong(17) == Some(7) && CombineJongseong(8, 17) == Some(11);
    case 12 => assert JongseongToChoseong(19) == Some(9) && CombineJongseong(8, 19) == Some(12);
    case 13 => assert JongseongToChoseong(25) == Some(16) && CombineJongseong(8, 25) == Some(13);
    case 14 => assert JongseongToChoseong(26) == Some(17) && CombineJongseong(8, 26) == Some(14);
    case 15 => assert JongseongToChoseong(27) == Some(18) && CombineJongseong(8, 27) == Some(15);
    case 18 => assert JongseongToChoseong(19) == Some(9) && CombineJongseong(17, 19) == Some(18);
  }

  /**
   * Every real final (1..27) is handled by exactly one of the two tables
   * used when a vowel follows a final: split (compound) or move (simple).
   */
  lemma FinalsPartitioned(jong: nat)
    requires 0 < jong < JongseongCount
    ensures SplitJongseong(jong).Some? != JongseongToChoseong(jong).Some?
  {
  }

  /** Each compound vowel is made from exactly one pair of vowels. */
  lemma CombineJungseongInjective(a: nat, b: nat, c: nat, d: nat)
    requires CombineJungseong(a, b).Some? && CombineJungseong(a, b) == CombineJungseong(c, d)
    ensures a == c && b == d
  {
  }
}
