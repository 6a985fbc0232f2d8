/**
 * Checks on a conversion result: standalone jamo (a consonant or vowel
 * that did not join a syllable) mark a result as incomplete Hangul, and a
 * valid result holds only precomposed syllables, printable ASCII and
 * spaces.
 */
module Validator {
  import Text
  import opened Unicode
  import JamoMapper
  import Fsm
  import Converter

  /** The compatibility jamo block as the validator scans it: U+3131 to U+318E. */
  predicate InJamoBlock(c: char) {
    0x3131 <= c as int <= 0x318E
  }

  /** A precomposed syllable 가 to 힣. */
  predicate IsCompleteHangul(c: char)
    ensures IsCompleteHangul(c) <==> IsHangulSyllable(c)
  {
    0xAC00 <= c as int <= 0xD7A3
  }

  /** Some character of `s` lies in the jamo block. */
  predicate ContainsJamo(s: string) {
    exists i :: 0 <= i < |s| && InJamoBlock(s[i])
  }

  /** Scans `text` and stops at the first standalone jamo. */
  method HasIncompleteJamo(text: string) returns (r: bool)
    ensures r <==> ContainsJamo(text)
  {
    for i := 0 to |text|
      invariant forall k :: 0 <= k < i ==> !InJamoBlock(text[k])
    {
      if InJamoBlock(text[i]) {
        return true;
      }
    }
    return false;
  }

  /** Number of jamo-block characters in `s`. */
  function JamoCount(s: string): (r: nat)
    ensures r <= |s|
  {
    if s == [] then 0 else JamoCount(s[..|s| - 1]) + (if InJamoBlock(s[|s| - 1]) then 1 else 0)
  }

  /** Number of Hangul characters in `s`: jamo and precomposed syllables together. */
  function HangulCount(s: string): (r: nat)
    ensures JamoCount(s) <= r <= |s|
  {
    if s == [] then 0
    else HangulCount(s[..|s| - 1])
         + (if InJamoBlock(s[|s| - 1]) || IsCompleteHangul(s[|s| - 1]) then 1 else 0)
  }

  /** The share of jamo among the Hangul characters; 0 when there are none. */
  function JamoRatio(s: string): (r: real)
    ensures 0.0 <= r <= 1.0
  {
    if HangulCount(s) == 0 then 0.0
    else
      RatioOfCounts(JamoCount(s), HangulCount(s));
      JamoCount(s) as real / HangulCount(s) as real
  }

  /** Counts both kinds of Hangul character in one pass and divides. */
  method IncompleteJamoRatio(text: string) returns (r: real)
    ensures r == JamoRatio(text)
  {
    var jamoCount := 0;
    var hangulCount := 0;
    for i := 0 to |text|
      invariant jamoCount == JamoCount(text[..i])
      invariant hangulCount == HangulCount(text[..i])
    {
      Text.PrefixSnoc(text, i);
      if InJamoBlock(text[i]) {
        jamoCount := jamoCount + 1;
        hangulCount := hangulCount + 1;
      } else if IsCompleteHangul(text[i]) {
        hangulCount := hangulCount + 1;
      }
    }
    Text.WholePrefix(text);
    if hangulCount == 0 {
      return 0.0;
    }
    r := jamoCount as real / hangulCount as real;
  }

  /** Half or more of the Hangul characters are standalone jamo. */
  method HasExcessiveJamo(text: string) returns (r: bool)
    ensures r <==> JamoRatio(text) >= 0.5
  {
    var ratio := IncompleteJamoRatio(text);
    r := ratio >= 0.5;
  }

  /** The characters a valid result may hold besides syllables: ASCII letters, digits, punctuation, space. */
  predicate IsAllowedChar(c: char) {
    ('0' <= c <= '9') || ('A' <= c <= 'Z') || ('a' <= c <= 'z')
    || ('!' <= c <= '/') || (':' <= c <= '@') || ('[' <= c <= '`') || ('{' <= c <= '~')
    || c == ' '
  }

  /** What a valid result is: non-empty, no standalone jamo, and every character a syllable or allowed. */
  predicate ValidHangulResult(s: string) {
    |s| > 0 && !ContainsJamo(s)
    && forall i :: 0 <= i < |s| ==> IsCompleteHangul(s[i]) || IsAllowedChar(s[i])
  }

  /** Rejects the empty text, then any jamo, then any character that is neither a syllable nor allowed. */
  method IsValidHangulResult(converted: string) returns (r: bool)
    ensures r <==> ValidHangulResult(converted)
  {
    if |converted| == 0 {
      return false;
    }
    var jamo := HasIncompleteJamo(converted);
    if jamo {
      return false;
    }
    for i := 0 to |converted|
      invariant forall k :: 0 <= k < i ==> IsCompleteHangul(converted[k]) || IsAllowedChar(converted[k])
    {
      var isHangul := IsCompleteHangul(converted[i]);
      var isAllowed := IsAllowedChar(converted[i]);
      if !isHangul && !isAllowed {
        return false;
      }
    }
    return true;
  }

  /** Some character of `text` is a precomposed syllable. */
  function HasAnyHangul(text: string): (r: bool)
    ensures r <==> exists i :: 0 <= i < |text| && IsCompleteHangul(text[i])
  {
    if text == [] then false
    else if IsCompleteHangul(text[0]) then true
    else
      var rest := HasAnyHangul(text[1..]);
      assert forall i :: 1 <= i < |text| ==> text[i] == text[1..][i - 1];
      rest
  }

  /** The allowed characters are exactly the printable ASCII range, space included. */
  lemma AllowedIsPrintableAscii(c: char)
    ensures IsAllowedChar(c) <==> ' ' <= c <= '~'
  {
  }

  /**
   * The jamo check of a valid result is implied by the character check: a
   * jamo is neither a syllable nor printable ASCII.
   */
  lemma {:induction false} JamoCheckImplied(s: string)
    ensures ValidHangulResult(s)
            <==> |s| > 0 && forall i :: 0 <= i < |s| ==> IsCompleteHangul(s[i]) || IsAllowedChar(s[i])
  {
    if |s| > 0 && forall i :: 0 <= i < |s| ==> IsCompleteHangul(s[i]) || IsAllowedChar(s[i]) {
      forall i | 0 <= i < |s|
        ensures !InJamoBlock(s[i])
      {
        AllowedIsPrintableAscii(s[i]);
      }
    }
  }

  /** A jamo appears exactly when the ratio is positive. */
  lemma {:induction false} RatioPositiveIffJamo(s: string)
    ensures JamoRatio(s) > 0.0 <==> ContainsJamo(s)
  {
    JamoCountPositiveIffJamo(s);
    if HangulCount(s) > 0 {
      RatioOfCounts(JamoCount(s), HangulCount(s));
    }
  }

  lemma {:induction false} JamoCountPositiveIffJamo(s: string)
    ensures JamoCount(s) > 0 <==> ContainsJamo(s)
    decreases |s|
  {
    if s != [] {
      var p := s[..|s| - 1];
      JamoCountPositiveIffJamo(p);
      if ContainsJamo(p) {
        var i :| 0 <= i < |p| && InJamoBlock(p[i]);
        assert s[i] == p[i];
      }
      if ContainsJamo(s) && !InJamoBlock(s[|s| - 1]) {
        var i :| 0 <= i < |s| && InJamoBlock(s[i]);
        assert p[i] == s[i];
      }
    }
  }

  /** The threshold of one half, stated on the counts. */
  lemma ExcessiveIffHalf(s: string)
    ensures JamoRatio(s) >= 0.5 <==> HangulCount(s) > 0 && 2 * JamoCount(s) >= HangulCount(s)
  {
    if HangulCount(s) > 0 {
      HalfOfCount(JamoCount(s), HangulCount(s));
    }
  }

  lemma HalfOfCount(j: nat, h: nat)
    requires h > 0
    ensures j as real / h as real >= 0.5 <==> 2 * j >= h
  {
    var q := j as real / h as real;
    assert q * h as real == j as real;
    if q >= 0.5 {
      assert q * h as real >= 0.5 * h as real;
    } else {
      assert q * h as real < 0.5 * h as real;
    }
  }

  /** A count over a positive count: never negative, positive exactly when the first is, at most one when it is not larger. */
  lemma RatioOfCounts(j: nat, h: nat)
    requires h > 0
    ensures 0.0 <= j as real / h as real
    ensures j as real / h as real > 0.0 <==> j > 0
    ensures j <= h ==> j as real / h as real <= 1.0
  {
    var q := j as real / h as real;
    assert q * h as real == j as real;
    if j <= h {
      assert (1.0 - q) * h as real == (h - j) as real;
    }
  }

  /** Non-empty text made only of jamo has a ratio of exactly one. */
  lemma {:induction false} AllJamoIsExcessive(s: string)
    requires |s| > 0 && forall i :: 0 <= i < |s| ==> InJamoBlock(s[i])
    ensures JamoRatio(s) == 1.0
    decreases |s|
  {
    var p := s[..|s| - 1];
    if |p| > 0 {
      AllJamoIsExcessive(p);
    }
  }

  /**
   * A consonant key typed alone converts to its standalone glyph, which the
   * validator flags as incomplete Hangul.
   */
  lemma LoneConsonantIsFlagged(c: char)
    requires JamoMapper.IsConsonant(c)
    ensures ContainsJamo(Converter.Converted([c]))
    ensures !ValidHangulResult(Converter.Converted([c]))
  {
    var cho := JamoMapper.MapToJamo(c).value.choIndex;
    assert Converter.Run(Fsm.Initial, [c]) == Fsm.Machine(Fsm.Choseong, cho, 0, 0, "");
    JamoGlyphsAreCompat(cho, 0);
    assert Converter.Converted([c])[0] == ChoseongToJamoChar(cho).value;
  }

  // The behaviours exercised by the source's own test cases.
  lemma JamoExamples()
    ensures ContainsJamo("ㅜ믇") && ContainsJamo("안녕ㅎ") && !ContainsJamo("안녕") && !ContainsJamo("")
  {
    assert InJamoBlock("ㅜ믇"[0]);
    assert InJamoBlock("안녕ㅎ"[2]);
  }

  lemma RatioAllJamo() ensures JamoRatio("ㄱㅏㄴㅏ") == 1.0 {
    AllJamoIsExcessive("ㄱㅏㄴㅏ");
  }

  lemma RatioHalf() ensures JamoRatio("ㅜ믇") == 0.5 {
    assert "ㅜ믇"[..1] == "ㅜ";
  }

  lemma RatioNoJamo() ensures JamoRatio("안녕") == 0.0 && JamoRatio("hello") == 0.0 {
    RatioPositiveIffJamo("안녕");
    RatioPositiveIffJamo("hello");
  }

  lemma ValidExamples()
    ensures ValidHangulResult("안녕하세요!") && ValidHangulResult("한글 테스트")
    ensures !ValidHangulResult("ㄱㅏ") && !ValidHangulResult("")
  {
    assert InJamoBlock("ㄱㅏ"[0]);
  }

  lemma AnyHangulExamples()
    ensures HasAnyHangul("hello 안녕") && !HasAnyHangul("ㄱㅏ") && !HasAnyHangul("123")
  {
  }
}
