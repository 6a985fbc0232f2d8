/**
 * The heuristic detector: scores a buffer of typed keys for how much it
 * looks like Korean typed on the two-set layout, and decides whether to
 * convert it. Scores are exact reals.
 */
module AutoDetect {
  import opened Wrappers
  import opened Text
  import Patterns
  import Validator

  /** Thresholds on the 0 to 100 confidence scale, minimum buffer length in bytes, debounce delay. */
  datatype AutoDetectorConfig = AutoDetectorConfig(
    threshold: real,
    realtimeThreshold: real,
    minLength: nat,
    debounceMs: nat)

  const DefaultConfig: AutoDetectorConfig := AutoDetectorConfig(70.0, 80.0, 3, 500)

  /** A consonant key, in either case. */
  predicate IsConsonantLike(c: char) {
    Patterns.IsConsonantKey(c) || Patterns.IsConsonantKey(UpperChar(c))
  }

  /** A vowel key, in either case. */
  predicate IsVowelLike(c: char) {
    Patterns.IsVowelKey(c) || Patterns.IsVowelKey(UpperChar(c))
  }

  /**
   * Ignoring case adds no key: the uppercase of a lowercase letter is a key
   * only for the doubled consonants and ㅒ ㅖ, whose lowercase keys are keys too.
   */
  lemma KeyLikeChars(c: char)
    ensures IsConsonantLike(c) <==> c in {'r', 'R', 's', 'e', 'E', 'f', 'a', 'q', 'Q', 't', 'T', 'd', 'w', 'W', 'c', 'z', 'x', 'v', 'g'}
    ensures IsVowelLike(c) <==> c in {'k', 'o', 'i', 'O', 'j', 'p', 'u', 'P', 'h', 'y', 'n', 'b', 'm', 'l'}
  {
    Patterns.ConsonantKeyChars(c);
    Patterns.ConsonantKeyChars(UpperChar(c));
    Patterns.VowelKeyChars(c);
    Patterns.VowelKeyChars(UpperChar(c));
  }

  lemma ConsonantNotVowel(c: char)
    ensures IsConsonantLike(c) ==> !IsVowelLike(c)
  {
    KeyLikeChars(c);
  }

  // ---- Consonant and vowel ratio: 0 to 30 ----

  function ConsonantCount(chars: string): (r: nat)
    ensures r <= |chars|
  {
    if chars == [] then 0
    else ConsonantCount(chars[..|chars| - 1]) + (if IsConsonantLike(chars[|chars| - 1]) then 1 else 0)
  }

  function VowelCount(chars: string): (r: nat)
    ensures ConsonantCount(chars) + r <= |chars|
  {
    if chars == [] then 0
    else
      var c := chars[|chars| - 1];
      VowelCount(chars[..|chars| - 1]) + (if !IsConsonantLike(c) && IsVowelLike(c) then 1 else 0)
  }

  /** 30 when consonants are 40% to 70% of the keys, 20 within 30% to 80%, 10 within 20% to 90%, else 0. */
  function CvBand(consonants: nat, vowels: nat): real {
    var total := consonants + vowels;
    if total == 0 then 0.0
    else
      var ratio := consonants as real / total as real;
      if 0.4 <= ratio <= 0.7 then 30.0
      else if 0.3 <= ratio <= 0.8 then 20.0
      else if 0.2 <= ratio <= 0.9 then 10.0
      else 0.0
  }

  function CvScore(chars: string): real {
    CvBand(ConsonantCount(chars), VowelCount(chars))
  }

  // ---- Bigrams: 0 to 40 ----

  /** Counts of the adjacent key pairs: Hangul bigram only, English bigram only, both. */
  datatype Tally = Tally(hangulOnly: nat, englishOnly: nat, both: nat)

  function Classify(t: Tally, bigram: string): Tally {
    var isHangul := bigram in Patterns.HangulBigrams;
    var isEnglish := Patterns.IsEnglishBigram(bigram);
    if isHangul && isEnglish then t.(both := t.both + 1)
    else if isHangul then t.(hangulOnly := t.hangulOnly + 1)
    else if isEnglish then t.(englishOnly := t.englishOnly + 1)
    else t
  }

  /** The tally over every adjacent pair of `chars`. */
  function BigramTally(chars: string): (r: Tally)
    ensures |chars| < 2 ==> r == Tally(0, 0, 0)
    ensures |chars| >= 2 ==> r.hangulOnly + r.englishOnly + r.both <= |chars| - 1
  {
    if |chars| < 2 then Tally(0, 0, 0)
    else Classify(BigramTally(chars[..|chars| - 1]), [chars[|chars| - 2], chars[|chars| - 1]])
  }

  /** A Hangul bigram by its keys: an unshifted consonant key of the table, then one of its vowel keys. */
  predicate HangulKeys(x: char, y: char) {
    x in {'r', 's', 'e', 'f', 'a', 'q', 't', 'd', 'w', 'c', 'z', 'x', 'v', 'g'}
    && y in {'k', 'j', 'h', 'n', 'm', 'l', 'i', 'u', 'y', 'b'}
  }

  /** `Classify` with the pair judged by its two keys. */
  function ClassifyKeys(t: Tally, x: char, y: char): Tally {
    if HangulKeys(x, y) && Patterns.EnglishPair(x, y) then t.(both := t.both + 1)
    else if HangulKeys(x, y) then t.(hangulOnly := t.hangulOnly + 1)
    else if Patterns.EnglishPair(x, y) then t.(englishOnly := t.englishOnly + 1)
    else t
  }

  /** The tally of the pairs, each classified by its two keys rather than by table lookup. */
  function KeyTally(chars: string): Tally {
    if |chars| < 2 then Tally(0, 0, 0)
    else ClassifyKeys(KeyTally(chars[..|chars| - 1]), chars[|chars| - 2], chars[|chars| - 1])
  }

  /** Looking the pairs up in the two tables and classifying them by their keys give the same tally. */
  lemma {:induction false} BigramTallyByKeys(chars: string)
    ensures BigramTally(chars) == KeyTally(chars)
  {
    if |chars| >= 2 {
      var b := [chars[|chars| - 2], chars[|chars| - 1]];
      BigramTallyByKeys(chars[..|chars| - 1]);
      Patterns.HangulBigramChars(b);
      Patterns.EnglishBigramPair(b);
    }
  }

  function Clamp(x: real, lo: real, hi: real): real
    requires lo <= hi
  {
    if x < lo then lo else if x > hi then hi else x
  }

  /**
   * The score before clamping: when more than half the pairs are English
   * only the Hangul-only share counts, otherwise the Hangul-only share
   * minus the English-only share, shifted to 0 to 1.
   */
  function RawBigramScore(t: Tally, total: nat): real
    requires total > 0
  {
    var hangulRatio := t.hangulOnly as real / total as real;
    var englishRatio := t.englishOnly as real / total as real;
    var englishTotalRatio := (t.englishOnly + t.both) as real / total as real;
    if englishTotalRatio > 0.5 then hangulRatio * 40.0
    else (hangulRatio - englishRatio + 1.0) / 2.0 * 40.0
  }

  /** The bigram score of a lowercased buffer. */
  function BigramScore(buffer: string): real {
    if Utf8Len(buffer) < 2 || |buffer| < 2 then 0.0
    else Clamp(RawBigramScore(BigramTally(buffer), |buffer| - 1), 0.0, 40.0)
  }

  // ---- Alternation: 0 to 30 ----

  /** Whether the last consonant or vowel key of `chars` was a consonant; None when there is none. */
  function LastKeyKind(chars: string): (r: Option<bool>)
    ensures r.Some? ==> |chars| > 0
  {
    if chars == [] then None
    else
      var c := chars[|chars| - 1];
      if IsConsonantLike(c) then Some(true)
      else if IsVowelLike(c) then Some(false)
      else LastKeyKind(chars[..|chars| - 1])
  }

  /** A key of the other kind than the previous consonant or vowel key. */
  predicate Alternates(prev: Option<bool>, c: char) {
    prev.Some? && ((prev.value && IsVowelLike(c)) || (!prev.value && IsConsonantLike(c)))
  }

  /** Number of keys that switch between consonant and vowel. */
  function Alternations(chars: string): (r: nat)
    ensures |chars| == 0 ==> r == 0
    ensures |chars| > 0 ==> r <= |chars| - 1
  {
    if chars == [] then 0
    else
      var p := chars[..|chars| - 1];
      Alternations(p) + (if Alternates(LastKeyKind(p), chars[|chars| - 1]) then 1 else 0)
  }

  /** The share of possible switches that happen, scaled to 30. */
  function AlternationShare(alternations: nat, possible: nat): (r: real)
    requires 0 < possible && alternations <= possible
    ensures 0.0 <= r <= 30.0
  {
    var ratio := alternations as real / possible as real;
    assert ratio <= 1.0;
    ratio * 30.0
  }

  /** The switch count and the last key kind of a prefix one key longer. */
  lemma AlternationStep(chars: string, i: nat)
    requires i < |chars|
    ensures Alternations(chars[..i + 1])
            == Alternations(chars[..i]) + (if Alternates(LastKeyKind(chars[..i]), chars[i]) then 1 else 0)
    ensures LastKeyKind(chars[..i + 1])
            == if IsConsonantLike(chars[i]) then Some(true)
               else if IsVowelLike(chars[i]) then Some(false)
               else LastKeyKind(chars[..i])
  {
    Text.PrefixSnoc(chars, i);
  }

  function AlternationScore(chars: string): (r: real)
    ensures 0.0 <= r <= 30.0
  {
    if |chars| < 2 then 0.0 else AlternationShare(Alternations(chars), |chars| - 1)
  }

  // ---- Consecutive vowel keys: penalty 0, 10 or 20 ----

  /** Length of the run of vowel keys that ends `chars`. */
  function TrailingVowels(chars: string): (r: nat)
    ensures r <= |chars|
  {
    if chars == [] || !IsVowelLike(chars[|chars| - 1]) then 0
    else TrailingVowels(chars[..|chars| - 1]) + 1
  }

  /** Length of the longest run of vowel keys. */
  function MaxVowelRun(chars: string): (r: nat)
    ensures TrailingVowels(chars) <= r <= |chars|
  {
    if chars == [] then 0
    else
      var m := MaxVowelRun(chars[..|chars| - 1]);
      var t := TrailingVowels(chars);
      if t > m then t else m
  }

  /** Twenty points off for four or more vowel keys in a row, ten for three. */
  function VowelPenalty(chars: string): real {
    if MaxVowelRun(chars) >= 4 then 20.0
    else if MaxVowelRun(chars) >= 3 then 10.0
    else 0.0
  }

  // ---- Confidence ----

  /** The sum of the three scores minus the penalty, floored at zero; zero for the empty buffer. */
  function Confidence(buffer: string): real {
    if |buffer| == 0 then 0.0
    else
      var lower := Lower(buffer);
      var sum := CvScore(lower) + BigramScore(lower) + AlternationScore(lower) - VowelPenalty(lower);
      if sum < 0.0 then 0.0 else sum
  }

  // ---- English surface patterns ----

  const EnglishSuffixes: seq<string> :=
    ["tion", "ment", "ness", "ing", "able", "ful", "less", "ous", "ive", "ence", "ance"]

  const EnglishPrefixes: seq<string> := ["un", "re", "pre", "dis", "mis"]

  /** Two or more bytes, all ASCII capitals: an abbreviation such as PDF. */
  predicate IsAbbreviation(buffer: string) {
    Utf8Len(buffer) >= 2 && forall i :: 0 <= i < |buffer| ==> IsAsciiUpper(buffer[i])
  }

  /** Three or more characters, a lowercase start and a capital later: camelCase. */
  predicate IsCamelCase(buffer: string) {
    |buffer| >= 3 && IsAsciiLower(buffer[0]) && exists i :: 1 <= i < |buffer| && IsAsciiUpper(buffer[i])
  }

  /** Ends with a listed English suffix and is longer than it. */
  predicate HasEnglishSuffix(lower: string) {
    exists k :: 0 <= k < |EnglishSuffixes| && Utf8Len(lower) > |EnglishSuffixes[k]| && EndsWith(lower, EnglishSuffixes[k])
  }

  /** Five bytes or more and starts with a listed English prefix. */
  predicate HasEnglishPrefix(lower: string) {
    Utf8Len(lower) >= 5 && exists k :: 0 <= k < |EnglishPrefixes| && StartsWith(lower, EnglishPrefixes[k])
  }

  predicate HasEnglishPattern(buffer: string) {
    IsAbbreviation(buffer) || IsCamelCase(buffer)
    || HasEnglishSuffix(Lower(buffer)) || HasEnglishPrefix(Lower(buffer))
  }

  // ---- The decision ----

  /**
   * Whether a buffer is converted, against `threshold`: the detector is
   * on, the buffer is long enough, its lowercase form is not a common
   * English word, an English pattern is outweighed by a confidence of 90
   * or more, and the confidence reaches the threshold, ten points higher
   * for buffers of at most four bytes.
   */
  predicate Accepts(cfg: AutoDetectorConfig, enabled: bool, words: set<string>, buffer: string, threshold: real) {
    var confidence := Confidence(buffer);
    enabled
    && Utf8Len(buffer) >= cfg.minLength
    && Lower(buffer) !in words
    && !(confidence < 90.0 && HasEnglishPattern(buffer))
    && confidence >= (if Utf8Len(buffer) <= 4 then threshold + 10.0 else threshold)
  }

  /** The detector; `commonEnglishWords` is the list of words never converted. */
  class AutoDetector {
    const config: AutoDetectorConfig
    const commonEnglishWords: set<string>
    var enabled: bool

    constructor(config: AutoDetectorConfig, commonEnglishWords: set<string>)
      ensures this.config == config && this.commonEnglishWords == commonEnglishWords && enabled
    {
      this.config := config;
      this.commonEnglishWords := commonEnglishWords;
      enabled := true;
    }

    constructor WithDefaults(commonEnglishWords: set<string>)
      ensures config == DefaultConfig && this.commonEnglishWords == commonEnglishWords && enabled
    {
      config := DefaultConfig;
      this.commonEnglishWords := commonEnglishWords;
      enabled := true;
    }

    method SetEnabled(enabled: bool)
      modifies this
      ensures this.enabled == enabled
    {
      this.enabled := enabled;
    }

    function IsEnabled(): bool
      reads this
    {
      enabled
    }

    function DebounceMs(): nat {
      config.debounceMs
    }

    /** The decision taken when Space or Enter ends a word. */
    method ShouldConvert(buffer: string) returns (r: bool)
      ensures r <==> Accepts(config, enabled, commonEnglishWords, buffer, config.threshold)
    {
      r := Decide(buffer, config.threshold);
    }

    /** The decision taken when the debounce timer fires, against the higher realtime threshold. */
    method ShouldConvertRealtime(buffer: string) returns (r: bool)
      ensures r <==> Accepts(config, enabled, commonEnglishWords, buffer, config.realtimeThreshold)
    {
      r := Decide(buffer, config.realtimeThreshold);
    }

    /** The gates shared by both decisions, in the source's order. */
    method Decide(buffer: string, threshold: real) returns (r: bool)
      ensures r <==> Accepts(config, enabled, commonEnglishWords, buffer, threshold)
    {
      if !enabled {
        return false;
      }
      if Utf8Len(buffer) < config.minLength {
        return false;
      }
      var lower := Lower(buffer);
      if lower in commonEnglishWords {
        return false;
      }
      var confidence := GetConfidence(buffer);
      if confidence < 90.0 && HasEnglishPattern(buffer) {
        return false;
      }
      var effective := if Utf8Len(buffer) <= 4 then threshold + 10.0 else threshold;
      r := confidence >= effective;
    }

    /** A converted result is kept unless it is empty or half or more of its Hangul is standalone jamo. */
    method IsValidConversion(converted: string) returns (r: bool)
      ensures r <==> |converted| > 0 && Validator.JamoRatio(converted) < 0.5
    {
      if |converted| == 0 {
        return false;
      }
      var excessive := Validator.HasExcessiveJamo(converted);
      if excessive {
        return false;
      }
      return true;
    }

    method GetConfidence(buffer: string) returns (r: real)
      ensures r == Confidence(buffer)
    {
      if |buffer| == 0 {
        return 0.0;
      }
      var lower := Lower(buffer);
      var cv := CalculateCvRatioScore(lower);
      var bigram := CalculateBigramScore(lower);
      var alternation := CalculateAlternationScore(lower);
      var penalty := CalculateConsecutiveVowelPenalty(lower);
      var sum := cv + bigram + alternation - penalty;
      r := if sum < 0.0 then 0.0 else sum;
    }

    method CalculateCvRatioScore(chars: string) returns (r: real)
      ensures r == CvScore(chars)
    {
      var consonants := 0;
      var vowels := 0;
      for i := 0 to |chars|
        invariant consonants == ConsonantCount(chars[..i])
        invariant vowels == VowelCount(chars[..i])
      {
        Text.PrefixSnoc(chars, i);
        var c := chars[i];
        if IsConsonantLike(c) {
          consonants := consonants + 1;
        } else if IsVowelLike(c) {
          vowels := vowels + 1;
        }
      }
      Text.WholePrefix(chars);
      var total := consonants + vowels;
      if total == 0 {
        return 0.0;
      }
      var ratio := consonants as real / total as real;
      if 0.4 <= ratio <= 0.7 {
        r := 30.0;
      } else if 0.3 <= ratio <= 0.8 {
        r := 20.0;
      } else if 0.2 <= ratio <= 0.9 {
        r := 10.0;
      } else {
        r := 0.0;
      }
    }

    method CalculateBigramScore(buffer: string) returns (r: real)
      ensures r == BigramScore(buffer)
    {
      if Utf8Len(buffer) < 2 {
        return 0.0;
      }
      var exclusiveHangul := 0;
      var exclusiveEnglish := 0;
      var bothMatch := 0;
      var totalBigrams := 0;
      var chars := buffer;
      var windows := if |chars| < 2 then 0 else |chars| - 1;
      for i := 0 to windows
        invariant totalBigrams == i
        invariant Tally(exclusiveHangul, exclusiveEnglish, bothMatch) == BigramTally(chars[..i + 1])
      {
        assert chars[..i + 2][..i + 1] == chars[..i + 1];
        var bigram := [chars[i], chars[i + 1]];
        totalBigrams := totalBigrams + 1;
        var isHangul := bigram in Patterns.HangulBigrams;
        var isEnglish := Patterns.IsEnglishBigram(bigram);
        if isHangul && isEnglish {
          bothMatch := bothMatch + 1;
        } else if isHangul {
          exclusiveHangul := exclusiveHangul + 1;
        } else if isEnglish {
          exclusiveEnglish := exclusiveEnglish + 1;
        }
      }
      if totalBigrams == 0 {
        return 0.0;
      }
      assert chars[..windows + 1] == chars;
      var tally := Tally(exclusiveHangul, exclusiveEnglish, bothMatch);
      assert tally == BigramTally(buffer) && totalBigrams == |buffer| - 1;
      r := Clamp(RawBigramScore(tally, totalBigrams), 0.0, 40.0);
    }

    method CalculateAlternationScore(chars: string) returns (r: real)
      ensures r == AlternationScore(chars)
    {
      if |chars| < 2 {
        return 0.0;
      }
      var alternations := CountAlternations(chars);
      var maxAlternations := |chars| - 1;
      var ratio := alternations as real / maxAlternations as real;
      r := ratio * 30.0;
    }

    /** The counting loop of the alternation score: keys that switch between consonant and vowel. */
    method CountAlternations(chars: string) returns (alternations: nat)
      ensures alternations == Alternations(chars)
    {
      alternations := 0;
      var prevIsConsonant: Option<bool> := None;
      for i := 0 to |chars|
        invariant alternations == Alternations(chars[..i])
        invariant prevIsConsonant == LastKeyKind(chars[..i])
      {
        AlternationStep(chars, i);
        var c := chars[i];
        var isCons := IsConsonantLike(c);
        var isVowel := IsVowelLike(c);
        if prevIsConsonant.Some? {
          var prev := prevIsConsonant.value;
          if (prev && isVowel) || (!prev && isCons) {
            alternations := alternations + 1;
          }
        }
        if isCons {
          prevIsConsonant := Some(true);
        } else if isVowel {
          prevIsConsonant := Some(false);
        }
      }
      Text.WholePrefix(chars);
    }

    method CalculateConsecutiveVowelPenalty(chars: string) returns (r: real)
      ensures r == VowelPenalty(chars)
    {
      var maxConsecutive := 0;
      var currentConsecutive := 0;
      for i := 0 to |chars|
        invariant currentConsecutive == TrailingVowels(chars[..i])
        invariant maxConsecutive == MaxVowelRun(chars[..i])
      {
        Text.PrefixSnoc(chars, i);
        if IsVowelLike(chars[i]) {
          currentConsecutive := currentConsecutive + 1;
          if currentConsecutive > maxConsecutive {
            maxConsecutive := currentConsecutive;
          }
        } else {
          currentConsecutive := 0;
        }
      }
      Text.WholePrefix(chars);
      if maxConsecutive >= 4 {
        r := 20.0;
      } else if maxConsecutive >= 3 {
        r := 10.0;
      } else {
        r := 0.0;
      }
    }
  }

  // ---- Properties ----

  /** The raw bigram score already lies in 0 to 40, so the clamp never changes it. */
  lemma RawBigramScoreInRange(t: Tally, total: nat)
    requires total > 0 && t.hangulOnly + t.englishOnly + t.both <= total
    ensures 0.0 <= RawBigramScore(t, total) <= 40.0
  {
    var n := total as real;
    var h := t.hangulOnly as real / n;
    var e := t.englishOnly as real / n;
    assert h * n == t.hangulOnly as real && e * n == t.englishOnly as real;
    assert h + e == (t.hangulOnly + t.englishOnly) as real / n;
    ShareAtMostOne(t.hangulOnly, total);
    ShareAtMostOne(t.englishOnly, total);
  }

  lemma ShareAtMostOne(a: nat, n: nat)
    requires 0 < n && a <= n
    ensures 0.0 <= a as real / n as real <= 1.0
  {
    var q := a as real / n as real;
    assert q * n as real == a as real;
  }

  /** Each part of the confidence stays in its band. */
  lemma ScoreParts(chars: string)
    ensures CvScore(chars) in {0.0, 10.0, 20.0, 30.0}
    ensures 0.0 <= BigramScore(chars) <= 40.0
    ensures 0.0 <= AlternationScore(chars) <= 30.0
    ensures VowelPenalty(chars) in {0.0, 10.0, 20.0}
  {
  }

  /** The confidence is a score from 0 to 100, and 0 for the empty buffer. */
  lemma ConfidenceBounds(buffer: string)
    ensures 0.0 <= Confidence(buffer) <= 100.0
    ensures buffer == [] ==> Confidence(buffer) == 0.0
  {
    ScoreParts(Lower(buffer));
  }

  /** A run of vowel keys ending at `j` is no longer than the trailing run of `chars[..j]`. */
  lemma {:induction false} RunEndsWithin(chars: string, i: nat, j: nat)
    requires i <= j <= |chars|
    requires forall k :: i <= k < j ==> IsVowelLike(chars[k])
    ensures j - i <= TrailingVowels(chars[..j])
    decreases j - i
  {
    if i < j {
      assert chars[..j][..j - 1] == chars[..j - 1];
      RunEndsWithin(chars, i, j - 1);
    }
  }

  /** Every run of vowel keys is at most `MaxVowelRun` long. */
  lemma {:induction false} MaxVowelRunBoundsRuns(chars: string, i: nat, j: nat)
    requires i <= j <= |chars|
    requires forall k :: i <= k < j ==> IsVowelLike(chars[k])
    ensures j - i <= MaxVowelRun(chars)
    decreases |chars|
  {
    if j == |chars| {
      assert chars[..j] == chars;
      RunEndsWithin(chars, i, j);
    } else {
      var p := chars[..|chars| - 1];
      forall k | i <= k < j
        ensures IsVowelLike(p[k])
      {
        assert p[k] == chars[k];
      }
      MaxVowelRunBoundsRuns(p, i, j);
    }
  }

  /** The trailing run is made of vowel keys. */
  lemma {:induction false} TrailingRunIsVowels(chars: string)
    ensures forall k :: |chars| - TrailingVowels(chars) <= k < |chars| ==> IsVowelLike(chars[k])
    decreases |chars|
  {
    if chars != [] && IsVowelLike(chars[|chars| - 1]) {
      var p := chars[..|chars| - 1];
      TrailingRunIsVowels(p);
      assert forall k :: 0 <= k < |p| ==> p[k] == chars[k];
    }
  }

  /** `chars` holds `len` vowel keys in a row from index `i`. */
  predicate VowelRunAt(chars: string, i: nat, len: nat) {
    i + len <= |chars| && forall k :: i <= k < i + len ==> IsVowelLike(chars[k])
  }

  /** Some run of vowel keys is exactly `MaxVowelRun` long. */
  lemma {:induction false} MaxVowelRunAttained(chars: string)
    ensures exists i: nat :: VowelRunAt(chars, i, MaxVowelRun(chars))
    decreases |chars|
  {
    if chars == [] {
      assert MaxVowelRun(chars) == 0;
      assert VowelRunAt(chars, 0, 0);
    } else {
      var p := chars[..|chars| - 1];
      var t := TrailingVowels(chars);
      if t > MaxVowelRun(p) {
        TrailingRunIsVowels(chars);
        assert MaxVowelRun(chars) == t;
        assert VowelRunAt(chars, |chars| - t, t);
      } else {
        MaxVowelRunAttained(p);
        var i: nat :| VowelRunAt(p, i, MaxVowelRun(p));
        assert forall k :: i <= k < i + MaxVowelRun(p) ==> p[k] == chars[k];
        assert VowelRunAt(chars, i, MaxVowelRun(chars));
      }
    }
  }

  /** A disabled detector converts nothing. */
  lemma DisabledRejects(cfg: AutoDetectorConfig, words: set<string>, buffer: string, threshold: real)
    ensures !Accepts(cfg, false, words, buffer, threshold)
  {
  }

  /** What an accepted buffer satisfies: length, not a listed word, the pattern rule and the threshold. */
  lemma AcceptedGates(cfg: AutoDetectorConfig, enabled: bool, words: set<string>, buffer: string, threshold: real)
    requires Accepts(cfg, enabled, words, buffer, threshold)
    ensures enabled && Utf8Len(buffer) >= cfg.minLength && Lower(buffer) !in words
    ensures HasEnglishPattern(buffer) ==> Confidence(buffer) >= 90.0
    ensures Confidence(buffer) >= threshold
    ensures Utf8Len(buffer) <= 4 ==> Confidence(buffer) >= threshold + 10.0
  {
  }

  /**
   * With a realtime threshold at least the normal one, whatever converts
   * when the timer fires also converts on Space or Enter.
   */
  lemma RealtimeImpliesNormal(cfg: AutoDetectorConfig, enabled: bool, words: set<string>, buffer: string)
    requires cfg.realtimeThreshold >= cfg.threshold
    ensures Accepts(cfg, enabled, words, buffer, cfg.realtimeThreshold)
            ==> Accepts(cfg, enabled, words, buffer, cfg.threshold)
  {
  }

  /** No buffer reaches a realtime threshold above 100, nor above 90 when it is four bytes or shorter. */
  lemma ThresholdOutOfReach(cfg: AutoDetectorConfig, enabled: bool, words: set<string>, buffer: string, threshold: real)
    requires threshold > 100.0 || (threshold > 90.0 && Utf8Len(buffer) <= 4)
    ensures !Accepts(cfg, enabled, words, buffer, threshold)
  {
    ConfidenceBounds(buffer);
  }

  /**
   * A Korean word with a shifted key for a doubled consonant or ㅒ ㅖ
   * (R E Q T W O P) after the first key looks like camelCase, so it is only
   * converted at a confidence of 90 or more.
   */
  lemma ShiftedKeyLooksLikeCamelCase(buffer: string, i: nat)
    requires |buffer| >= 3 && IsAsciiLower(buffer[0])
    requires 1 <= i < |buffer| && buffer[i] in "REQTWOP"
    ensures HasEnglishPattern(buffer)
  {
    assert IsAsciiUpper(buffer[i]);
  }

  // The behaviours exercised by the source's own test cases.
  lemma AbbreviationExample() ensures HasEnglishPattern("PDF") {}

  lemma CamelCaseExample() ensures HasEnglishPattern("onClick") {
    assert IsAsciiUpper("onClick"[2]);
  }

  lemma SuffixExample() ensures HasEnglishPattern("function") {
    assert Lower("function") == "function";
    assert EndsWith("function", EnglishSuffixes[0]);
  }

  lemma PrefixExample() ensures HasEnglishPattern("unable") {
    assert Lower("unable") == "unable";
    assert StartsWith("unable", EnglishPrefixes[0]);
  }
}

/** The detector's scores evaluated on the source's test inputs, one fact at a time. */
module AutoDetectExamples {
  import opened Wrappers
  import opened Text
  import opened AutoDetect
  import Patterns

  // "rks" (간): consonant, vowel, consonant.
  lemma ScoresOfR()
    ensures LastKeyKind("r") == Some(true) && Alternations("r") == 0
    ensures ConsonantCount("r") == 1 && VowelCount("r") == 0 && MaxVowelRun("r") == 0
  {
    KeyLikeChars('r');
  }

  lemma ScoresOfRk()
    ensures LastKeyKind("rk") == Some(false) && Alternations("rk") == 1
    ensures ConsonantCount("rk") == 1 && VowelCount("rk") == 1 && MaxVowelRun("rk") == 1
  {
    ScoresOfR();
    KeyLikeChars('k');
    assert "rk"[..1] == "r";
  }

  lemma AlternationsOfRks()
    ensures Alternations("rks") == 2
  {
    ScoresOfRk();
    KeyLikeChars('s');
    assert "rks"[..2] == "rk";
  }

  lemma CountsOfRks()
    ensures ConsonantCount("rks") == 2 && VowelCount("rks") == 1
  {
    ScoresOfRk();
    KeyLikeChars('s');
    assert "rks"[..2] == "rk";
  }

  lemma VowelRunOfRks()
    ensures MaxVowelRun("rks") == 1
  {
    ScoresOfRk();
    KeyLikeChars('s');
    assert "rks"[..2] == "rk";
  }

  lemma TallyOfRk()
    ensures BigramTally("rk") == Tally(1, 0, 0)
  {
    Patterns.HangulBigramChars("rk");
    assert !Patterns.IsEnglishBigram("rk");
    assert "rk"[..1] == "r" && ['r', 'k'] == "rk";
  }

  lemma NeitherKs(t: Tally)
    ensures Classify(t, "ks") == t
  {
    Patterns.HangulBigramChars("ks");
    assert !Patterns.IsEnglishBigram("ks");
  }

  lemma TallyOfRks()
    ensures BigramTally("rks") == Tally(1, 0, 0)
  {
    TallyOfRk();
    NeitherKs(Tally(1, 0, 0));
    assert "rks"[..2] == "rk" && ['k', 's'] == "ks";
  }

  /** "rks" scores the full 30 for its consonant ratio and alternation, and 30 for its bigrams. */
  lemma ConfidenceRks()
    ensures Confidence("rks") == 90.0
  {
    assert Lower("rks") == "rks";
    AlternationsOfRks();
    CountsOfRks();
    VowelRunOfRks();
    TallyOfRks();
  }

  // "you": three vowel keys (ㅛ ㅐ ㅕ).
  lemma ScoresOfY()
    ensures LastKeyKind("y") == Some(false) && Alternations("y") == 0
    ensures ConsonantCount("y") == 0 && VowelCount("y") == 1 && MaxVowelRun("y") == 1
  {
    KeyLikeChars('y');
  }

  lemma ScoresOfYo()
    ensures LastKeyKind("yo") == Some(false) && Alternations("yo") == 0
    ensures ConsonantCount("yo") == 0 && VowelCount("yo") == 2 && MaxVowelRun("yo") == 2
  {
    ScoresOfY();
    KeyLikeChars('o');
    assert "yo"[..1] == "y";
  }

  lemma ScoresOfYou()
    ensures Alternations("you") == 0
    ensures ConsonantCount("you") == 0 && VowelCount("you") == 3 && MaxVowelRun("you") == 3
  {
    ScoresOfYo();
    KeyLikeChars('u');
    assert "you"[..2] == "yo";
  }

  lemma TallyOfYo()
    ensures BigramTally("yo") == Tally(0, 0, 0)
  {
    Patterns.HangulBigramChars("yo");
    assert !Patterns.IsEnglishBigram("yo");
    assert "yo"[..1] == "y" && ['y', 'o'] == "yo";
  }

  lemma TallyOfYou()
    ensures BigramTally("you") == Tally(0, 1, 0)
  {
    TallyOfYo();
    Patterns.HangulBigramChars("ou");
    assert Patterns.IsEnglishBigram("ou");
    assert "you"[..2] == "yo" && ['o', 'u'] == "ou";
  }

  /**
   * "you" gets no consonant-ratio or alternation points, 10 for its
   * bigrams and a 10 point penalty for three vowel keys in a row: 0, below "rks".
   */
  lemma ConfidenceYou()
    ensures Confidence("you") == 0.0
  {
    assert Lower("you") == "you";
    ScoresOfYou();
    TallyOfYou();
  }

  /** The source's comparison: the consecutive-vowel penalty puts "you" below "rks". */
  lemma YouBelowRks()
    ensures Confidence("you") < Confidence("rks")
  {
    ConfidenceYou();
    ConfidenceRks();
  }

  /** With the default configuration one or two keys are too short to convert, whatever the threshold. */
  lemma ShortBuffersRejected(enabled: bool, words: set<string>, threshold: real)
    ensures !Accepts(DefaultConfig, enabled, words, "r", threshold)
    ensures !Accepts(DefaultConfig, enabled, words, "rk", threshold)
    ensures !Accepts(DefaultConfig, enabled, words, "", threshold)
  {
    assert Utf8Len("rk") == 2;
  }

  // ---- The source's accepted words: "dkssud" (안녕), "gksrmf" (한글), "rkskek" (가나다) ----

  /** The counts the consonant-ratio, alternation and vowel-run scores read, gathered to score a buffer one key at a time. */
  datatype KeyProfile = KeyProfile(
    consonants: nat, vowels: nat, alternations: nat, last: Option<bool>, trailing: nat, maxRun: nat)

  function ProfileOf(s: string): KeyProfile {
    KeyProfile(ConsonantCount(s), VowelCount(s), Alternations(s), LastKeyKind(s), TrailingVowels(s), MaxVowelRun(s))
  }

  /** The profile after one more key `c`. */
  function NextProfile(q: KeyProfile, c: char): KeyProfile {
    var trailing := if IsVowelLike(c) then q.trailing + 1 else 0;
    KeyProfile(
      q.consonants + (if IsConsonantLike(c) then 1 else 0),
      q.vowels + (if !IsConsonantLike(c) && IsVowelLike(c) then 1 else 0),
      q.alternations + (if Alternates(q.last, c) then 1 else 0),
      if IsConsonantLike(c) then Some(true) else if IsVowelLike(c) then Some(false) else q.last,
      trailing,
      if trailing > q.maxRun then trailing else q.maxRun)
  }

  lemma ProfileStep(s: string, i: nat)
    requires i < |s|
    ensures ProfileOf(s[..i + 1]) == NextProfile(ProfileOf(s[..i]), s[i])
  {
    assert s[..i + 1][..i] == s[..i];
  }

  /** Up to six small letters: no abbreviation, no camelCase, its own lowercase form, one byte per letter. */
  lemma SmallLetters(s: string)
    requires |s| <= 6
    requires |s| > 0 ==> IsAsciiLower(s[0])
    requires |s| > 1 ==> IsAsciiLower(s[1])
    requires |s| > 2 ==> IsAsciiLower(s[2])
    requires |s| > 3 ==> IsAsciiLower(s[3])
    requires |s| > 4 ==> IsAsciiLower(s[4])
    requires |s| > 5 ==> IsAsciiLower(s[5])
    ensures !IsAbbreviation(s) && !IsCamelCase(s) && Lower(s) == s && Utf8Len(s) == |s|
  {
    forall i | 0 <= i < |s| ensures IsAsciiLower(s[i]) {
      if i == 0 {} else if i == 1 {} else if i == 2 {} else if i == 3 {} else if i == 4 {} else {}
    }
    if |s| > 0 {
      assert !IsAsciiUpper(s[0]);
    }
    AsciiUtf8Len(s);
  }

  /** Every listed suffix ends with one of n t s g e l. */
  lemma NoSuffix(s: string)
    requires |s| > 0 && s[|s| - 1] !in {'n', 't', 's', 'g', 'e', 'l'}
    ensures !HasEnglishSuffix(s)
  {
    forall k | 0 <= k < |EnglishSuffixes|
      ensures !EndsWith(s, EnglishSuffixes[k])
    {
      var x := EnglishSuffixes[k];
      assert s[|s| - 1] != x[|x| - 1];
    }
  }

  /** The second letter of every listed prefix is n, e, r or i. */
  lemma NoPrefix(s: string)
    requires |s| >= 2 && s[1] !in {'n', 'e', 'r', 'i'}
    ensures !HasEnglishPrefix(s)
  {
    forall k | 0 <= k < |EnglishPrefixes|
      ensures !StartsWith(s, EnglishPrefixes[k])
    {
      var x := EnglishPrefixes[k];
      assert x[1] in {'n', 'e', 'r', 'i'};
      assert s[1] != x[1];
    }
  }

  /** A consonant key: one more consonant, a switch after a vowel key, and the vowel run broken. */
  lemma ConsonantAt(s: string, i: nat, q: KeyProfile)
    requires i < |s| && ProfileOf(s[..i]) == q && IsConsonantLike(s[i])
    ensures ProfileOf(s[..i + 1])
            == KeyProfile(q.consonants + 1, q.vowels, q.alternations + (if q.last == Some(false) then 1 else 0),
                          Some(true), 0, q.maxRun)
  {
    ProfileStep(s, i);
    ConsonantNotVowel(s[i]);
  }

  /** A vowel key: one more vowel, a switch after a consonant key, and the vowel run one longer. */
  lemma VowelAt(s: string, i: nat, q: KeyProfile)
    requires i < |s| && ProfileOf(s[..i]) == q && IsVowelLike(s[i])
    ensures ProfileOf(s[..i + 1])
            == KeyProfile(q.consonants, q.vowels + 1, q.alternations + (if q.last == Some(true) then 1 else 0),
                          Some(false), q.trailing + 1, if q.trailing + 1 > q.maxRun then q.trailing + 1 else q.maxRun)
  {
    ProfileStep(s, i);
    ConsonantNotVowel(s[i]);
  }

  const NoKeys := KeyProfile(0, 0, 0, None, 0, 0)

  lemma NoKeysProfile(s: string)
    ensures ProfileOf(s[..0]) == NoKeys
  {
    assert s[..0] == [];
  }

  /** The key tally of a prefix one key longer classifies the pair that key closes. */
  lemma KeyTallyAt(s: string, i: nat, t: Tally)
    requires 1 <= i < |s| && KeyTally(s[..i]) == t
    ensures KeyTally(s[..i + 1]) == ClassifyKeys(t, s[i - 1], s[i])
  {
    assert s[..i + 1][..i] == s[..i];
  }

  lemma FirstKeyTally(s: string)
    requires |s| >= 1
    ensures KeyTally(s[..1]) == Tally(0, 0, 0)
  {
  }

  /** A buffer holding the keys of 안녕, 한글, 가나다 and the English word hello. */
  predicate SpellsDkssud(s: string) {
    |s| == 6 && s[0] == 'd' && s[1] == 'k' && s[2] == 's' && s[3] == 's' && s[4] == 'u' && s[5] == 'd'
  }

  predicate SpellsGksrmf(s: string) {
    |s| == 6 && s[0] == 'g' && s[1] == 'k' && s[2] == 's' && s[3] == 'r' && s[4] == 'm' && s[5] == 'f'
  }

  predicate SpellsRkskek(s: string) {
    |s| == 6 && s[0] == 'r' && s[1] == 'k' && s[2] == 's' && s[3] == 'k' && s[4] == 'e' && s[5] == 'k'
  }

  predicate SpellsHello(s: string) {
    |s| == 5 && s[0] == 'h' && s[1] == 'e' && s[2] == 'l' && s[3] == 'l' && s[4] == 'o'
  }

  /** "dkssud": four consonants, two vowels, four switches, no two vowel keys in a row. */
  lemma DkssudProfile(s: string)
    requires SpellsDkssud(s)
    ensures ProfileOf(s) == KeyProfile(4, 2, 4, Some(true), 0, 1)
  {
    KeyLikeChars('d'); KeyLikeChars('k'); KeyLikeChars('s'); KeyLikeChars('u');
    NoKeysProfile(s);
    ConsonantAt(s, 0, NoKeys);
    VowelAt(s, 1, KeyProfile(1, 0, 0, Some(true), 0, 0));
    ConsonantAt(s, 2, KeyProfile(1, 1, 1, Some(false), 1, 1));
    ConsonantAt(s, 3, KeyProfile(2, 1, 2, Some(true), 0, 1));
    VowelAt(s, 4, KeyProfile(3, 1, 2, Some(true), 0, 1));
    ConsonantAt(s, 5, KeyProfile(3, 2, 3, Some(false), 1, 1));
    assert s[..6] == s;
  }

  /** The pairs of "dkssud": dk and su are Hangul bigrams, none is English. */
  lemma DkssudKeyTally(s: string)
    requires SpellsDkssud(s)
    ensures KeyTally(s) == Tally(2, 0, 0)
  {
    FirstKeyTally(s);
    KeyTallyAt(s, 1, Tally(0, 0, 0));
    KeyTallyAt(s, 2, Tally(1, 0, 0));
    KeyTallyAt(s, 3, Tally(1, 0, 0));
    KeyTallyAt(s, 4, Tally(1, 0, 0));
    KeyTallyAt(s, 5, Tally(2, 0, 0));
    assert s[..6] == s;
  }

  lemma GksrmfProfile(s: string)
    requires SpellsGksrmf(s)
    ensures ProfileOf(s) == KeyProfile(4, 2, 4, Some(true), 0, 1)
  {
    KeyLikeChars('g'); KeyLikeChars('k'); KeyLikeChars('s'); KeyLikeChars('r'); KeyLikeChars('m'); KeyLikeChars('f');
    NoKeysProfile(s);
    ConsonantAt(s, 0, NoKeys);
    VowelAt(s, 1, KeyProfile(1, 0, 0, Some(true), 0, 0));
    ConsonantAt(s, 2, KeyProfile(1, 1, 1, Some(false), 1, 1));
    ConsonantAt(s, 3, KeyProfile(2, 1, 2, Some(true), 0, 1));
    VowelAt(s, 4, KeyProfile(3, 1, 2, Some(true), 0, 1));
    ConsonantAt(s, 5, KeyProfile(3, 2, 3, Some(false), 1, 1));
    assert s[..6] == s;
  }

  /** The pairs of "gksrmf": gk and rm are Hangul bigrams, none is English. */
  lemma GksrmfKeyTally(s: string)
    requires SpellsGksrmf(s)
    ensures KeyTally(s) == Tally(2, 0, 0)
  {
    FirstKeyTally(s);
    KeyTallyAt(s, 1, Tally(0, 0, 0));
    KeyTallyAt(s, 2, Tally(1, 0, 0));
    KeyTallyAt(s, 3, Tally(1, 0, 0));
    KeyTallyAt(s, 4, Tally(1, 0, 0));
    KeyTallyAt(s, 5, Tally(2, 0, 0));
    assert s[..6] == s;
  }

  /** "rkskek": three consonants and three vowels, switching at every key. */
  lemma RkskekProfile(s: string)
    requires SpellsRkskek(s)
    ensures ProfileOf(s) == KeyProfile(3, 3, 5, Some(false), 1, 1)
  {
    KeyLikeChars('r'); KeyLikeChars('k'); KeyLikeChars('s'); KeyLikeChars('e');
    NoKeysProfile(s);
    ConsonantAt(s, 0, NoKeys);
    VowelAt(s, 1, KeyProfile(1, 0, 0, Some(true), 0, 0));
    ConsonantAt(s, 2, KeyProfile(1, 1, 1, Some(false), 1, 1));
    VowelAt(s, 3, KeyProfile(2, 1, 2, Some(true), 0, 1));
    ConsonantAt(s, 4, KeyProfile(2, 2, 3, Some(false), 1, 1));
    VowelAt(s, 5, KeyProfile(3, 2, 4, Some(true), 0, 1));
    assert s[..6] == s;
  }

  /** The pairs of "rkskek": rk, sk and ek are Hangul bigrams, none is English. */
  lemma RkskekKeyTally(s: string)
    requires SpellsRkskek(s)
    ensures KeyTally(s) == Tally(3, 0, 0)
  {
    FirstKeyTally(s);
    KeyTallyAt(s, 1, Tally(0, 0, 0));
    KeyTallyAt(s, 2, Tally(1, 0, 0));
    KeyTallyAt(s, 3, Tally(1, 0, 0));
    KeyTallyAt(s, 4, Tally(2, 0, 0));
    KeyTallyAt(s, 5, Tally(2, 0, 0));
    assert s[..6] == s;
  }

  /** "hello" (ㅗ ㄷ ㅣ ㅣ ㅐ): one consonant, four vowels, two switches, three vowel keys in a row. */
  lemma HelloProfile(s: string)
    requires SpellsHello(s)
    ensures ProfileOf(s) == KeyProfile(1, 4, 2, Some(false), 3, 3)
  {
    KeyLikeChars('h'); KeyLikeChars('e'); KeyLikeChars('l'); KeyLikeChars('o');
    NoKeysProfile(s);
    VowelAt(s, 0, NoKeys);
    ConsonantAt(s, 1, KeyProfile(0, 1, 0, Some(false), 1, 1));
    VowelAt(s, 2, KeyProfile(1, 1, 1, Some(true), 0, 1));
    VowelAt(s, 3, KeyProfile(1, 2, 2, Some(false), 1, 1));
    VowelAt(s, 4, KeyProfile(1, 3, 2, Some(false), 2, 2));
    assert s[..5] == s;
  }

  /** The pairs of "hello": he and ll are English only, el is a Hangul bigram, lo is neither. */
  lemma HelloKeyTally(s: string)
    requires SpellsHello(s)
    ensures KeyTally(s) == Tally(1, 2, 0)
  {
    FirstKeyTally(s);
    KeyTallyAt(s, 1, Tally(0, 0, 0));
    KeyTallyAt(s, 2, Tally(0, 1, 0));
    KeyTallyAt(s, 3, Tally(1, 1, 0));
    KeyTallyAt(s, 4, Tally(1, 2, 0));
    assert s[..5] == s;
  }

  /** 30 for the consonant ratio, 28 for two Hangul pairs in five, 24 for four switches in five: 82. */
  lemma DkssudConfidence(s: string)
    requires SpellsDkssud(s)
    ensures Confidence(s) == 82.0
  {
    SmallLetters(s);
    DkssudProfile(s);
    DkssudKeyTally(s);
    BigramTallyByKeys(s);
  }

  /** The same counts as "dkssud": 82. */
  lemma GksrmfConfidence(s: string)
    requires SpellsGksrmf(s)
    ensures Confidence(s) == 82.0
  {
    SmallLetters(s);
    GksrmfProfile(s);
    GksrmfKeyTally(s);
    BigramTallyByKeys(s);
  }

  /** 30 for the even ratio, 32 for three Hangul pairs in five, the full 30 for switching at every key: 92. */
  lemma RkskekConfidence(s: string)
    requires SpellsRkskek(s)
    ensures Confidence(s) == 92.0
  {
    SmallLetters(s);
    RkskekProfile(s);
    RkskekKeyTally(s);
    BigramTallyByKeys(s);
  }

  /** 10 for a one-in-five ratio, 15 for the pairs, 15 for two switches in four, less 10 for the vowel run: 30. */
  lemma HelloConfidence(s: string)
    requires SpellsHello(s)
    ensures Confidence(s) == 30.0
  {
    SmallLetters(s);
    HelloProfile(s);
    HelloKeyTally(s);
    BigramTallyByKeys(s);
  }

  /** None of the three Korean words looks English: no capitals, no listed suffix or prefix. */
  lemma KoreanWordsHaveNoEnglishPattern(s: string)
    requires SpellsDkssud(s) || SpellsGksrmf(s) || SpellsRkskek(s)
    ensures !HasEnglishPattern(s)
  {
    SmallLetters(s);
    NoSuffix(s);
    NoPrefix(s);
  }

  /**
   * A default detector that is on converts each of the three Korean words,
   * both when a word ends and when the debounce timer fires, unless the
   * word is in its common English word list.
   */
  lemma KoreanWordsConvert(s: string, words: set<string>)
    requires SpellsDkssud(s) || SpellsGksrmf(s) || SpellsRkskek(s)
    requires s !in words
    ensures Accepts(DefaultConfig, true, words, s, DefaultConfig.threshold)
    ensures Accepts(DefaultConfig, true, words, s, DefaultConfig.realtimeThreshold)
  {
    SmallLetters(s);
    KoreanWordsHaveNoEnglishPattern(s);
    if SpellsDkssud(s) {
      DkssudConfidence(s);
    } else if SpellsGksrmf(s) {
      GksrmfConfidence(s);
    } else {
      RkskekConfidence(s);
    }
  }

  /** "hello" scores 30, under both default thresholds, so it is never converted whatever the word list. */
  lemma HelloNeverConverts(s: string, enabled: bool, words: set<string>)
    requires SpellsHello(s)
    ensures !Accepts(DefaultConfig, enabled, words, s, DefaultConfig.threshold)
    ensures !Accepts(DefaultConfig, enabled, words, s, DefaultConfig.realtimeThreshold)
  {
    SmallLetters(s);
    HelloConfidence(s);
  }

  /** The source's comparison: "dkssud" scores higher than "hello". */
  lemma DkssudAboveHello(s: string, h: string)
    requires SpellsDkssud(s) && SpellsHello(h)
    ensures Confidence(s) > Confidence(h)
  {
    DkssudConfidence(s);
    HelloConfidence(h);
  }

  /** The source's examples as written: "dkssud", "gksrmf" and "rkskek" convert at both thresholds and have no English pattern. */
  lemma SourceKoreanWordsConvert(w: string, words: set<string>)
    requires w == "dkssud" || w == "gksrmf" || w == "rkskek"
    requires w !in words
    ensures Accepts(DefaultConfig, true, words, w, DefaultConfig.threshold)
    ensures Accepts(DefaultConfig, true, words, w, DefaultConfig.realtimeThreshold)
    ensures !HasEnglishPattern(w)
  {
    KoreanWordsConvert(w, words);
    KoreanWordsHaveNoEnglishPattern(w);
  }

  /** The source's comparison as written. */
  lemma SourceDkssudAboveHello()
    ensures Confidence("dkssud") > Confidence("hello")
  {
    DkssudAboveHello("dkssud", "hello");
  }

  /** The source's rejected English word as written. */
  lemma SourceHelloNeverConverts(words: set<string>)
    ensures !Accepts(DefaultConfig, true, words, "hello", DefaultConfig.threshold)
    ensures !Accepts(DefaultConfig, true, words, "hello", DefaultConfig.realtimeThreshold)
  {
    HelloNeverConverts("hello", true, words);
  }
}
