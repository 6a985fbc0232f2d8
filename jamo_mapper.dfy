/**
 * The two-set (dubeolsik) keyboard layout: which Latin key produces which
 * Hangul consonant or vowel.
 */
module JamoMapper {
  import opened Wrappers
  import opened Unicode

  /**
   * A jamo as typed on the keyboard. A consonant carries its initial index
   * and, when it may end a syllable, its final index; ㄸ ㅃ ㅉ cannot.
   */
  datatype Jamo =
    | Consonant(choIndex: nat, jongIndex: Option<nat>)
    | Vowel(jungIndex: nat)
  {
    /** The initial-consonant index, for consonants only. */
    function ChoseongIndex(): (r: Option<nat>)
      ensures r.Some? <==> Consonant?
      ensures r.Some? ==> r.value == choIndex
    {
      match this
      case Consonant(cho, _) => Some(cho)
      case Vowel(_) => None
    }

    /** The vowel index, for vowels only. */
    function JungseongIndex(): (r: Option<nat>)
      ensures r.Some? <==> Vowel?
      ensures r.Some? ==> r.value == jungIndex
    {
      match this
      case Vowel(jung) => Some(jung)
      case Consonant(_, _) => None
    }

    /** The final index, for consonants that may end a syllable only. */
    function JongseongIndex(): (r: Option<nat>)
      ensures r.Some? <==> Consonant? && jongIndex.Some?
      ensures r.Some? ==> r == jongIndex
    {
      match this
      case Consonant(_, jong) => jong
      case Vowel(_) => None
    }

    predicate IsConsonant()
      ensures IsConsonant() <==> ChoseongIndex().Some?
    {
      Consonant?
    }

    predicate IsVowel()
      ensures IsVowel() <==> JungseongIndex().Some?
    {
      Vowel?
    }
  }

  /** A jamo whose indices are in range and whose final, if any, is a real final. */
  predicate WellFormed(j: Jamo) {
    match j
    case Consonant(cho, jong) => cho < ChoseongCount && (jong.Some? ==> 0 < jong.value < JongseongCount)
    case Vowel(jung) => jung < JungseongCount
  }

  /** The jamo a key produces; None for every key outside the layout. */
  function MapToJamo(c: char): (r: Option<Jamo>)
    ensures r.Some? ==> WellFormed(r.value)
  {
    match c
    case 'r' => Some(Consonant(0, Some(1)))
    case 'R' => Some(Consonant(1, Some(2)))
    case 's' => Some(Consonant(2, Some(4)))
    case 'e' => Some(Consonant(3, Some(7)))
    case 'E' => Some(Consonant(4, None))
    case 'f' => Some(Consonant(5, Some(8)))
    case 'a' => Some(Consonant(6, Some(16)))
    case 'q' => Some(Consonant(7, Some(17)))
    case 'Q' => Some(Consonant(8, None))
    case 't' => Some(Consonant(9, Some(19)))
    case 'T' => Some(Consonant(10, Some(20)))
    case 'd' => Some(Consonant(11, Some(21)))
    case 'w' => Some(Consonant(12, Some(22)))
    case 'W' => Some(Consonant(13, None))
    case 'c' => Some(Consonant(14, Some(23)))
    case 'z' => Some(Consonant(15, Some(24)))
    case 'x' => Some(Consonant(16, Some(25)))
    case 'v' => Some(Consonant(17, Some(26)))
    case 'g' => Some(Consonant(18, Some(27)))
    case 'k' => Some(Vowel(0))
    case 'o' => Some(Vowel(1))
    case 'i' => Some(Vowel(2))
    case 'O' => Some(Vowel(3))
    case 'j' => Some(Vowel(4))
    case 'p' => Some(Vowel(5))
    case 'u' => Some(Vowel(6))
    case 'P' => Some(Vowel(7))
    case 'h' => Some(Vowel(8))
    case 'y' => Some(Vowel(12))
    case 'n' => Some(Vowel(13))
    case 'b' => Some(Vowel(17))
    case 'm' => Some(Vowel(18))
    case 'l' => Some(Vowel(20))
    case _ => None
  }

  /** A key that produces a consonant. */
  predicate IsConsonant(c: char) {
    MapToJamo(c).Some? && MapToJamo(c).value.Consonant?
  }

  /** A key that produces a vowel. */
  predicate IsVowel(c: char) {
    MapToJamo(c).Some? && MapToJamo(c).value.Vowel?
  }

  /** The keys that produce a consonant, listed. */
  lemma ConsonantChars(c: char)
    ensures IsConsonant(c) <==> c in {'r', 'R', 's', 'e', 'E', 'f', 'a', 'q', 'Q', 't', 'T', 'd', 'w', 'W', 'c', 'z', 'x', 'v', 'g'}
  {
  }

  /** The keys that produce a vowel, listed. */
  lemma VowelChars(c: char)
    ensures IsVowel(c) <==> c in {'k', 'o', 'i', 'O', 'j', 'p', 'u', 'P', 'h', 'y', 'n', 'b', 'm', 'l'}
  {
  }

  /** No key is both a consonant and a vowel, and only mapped keys are either. */
  lemma KeyClassesDisjoint(c: char)
    ensures !(IsConsonant(c) && IsVowel(c))
    ensures IsConsonant(c) || IsVowel(c) <==> MapToJamo(c).Some?
  {
  }

  /** The layout has no compound vowel on a single key: ㅘ and the like are typed as two vowels. */
  lemma NoCompoundVowelKey(c: char)
    requires IsVowel(c)
    ensures !IsCompoundJungseong(MapToJamo(c).value.jungIndex)
  {
  }

  /**
   * A consonant key that can end a syllable gives a simple final that
   * moves back to exactly the same initial consonant when a vowel follows.
   */
  lemma FinalMovesBackToSameInitial(c: char)
    requires IsConsonant(c) && MapToJamo(c).value.jongIndex.Some?
    ensures var j := MapToJamo(c).value;
            !IsCompoundJongseong(j.jongIndex.value)
            && JongseongToChoseong(j.jongIndex.value) == Some(j.choIndex)
  {
  }

  /** Different keys produce different jamo. */
  lemma MapToJamoInjective(c: char, d: char)
    requires MapToJamo(c).Some? && MapToJamo(c) == MapToJamo(d)
    ensures c == d
  {
  }
}
