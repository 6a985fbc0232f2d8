/**
 * The part of the keyboard hook that does not touch the operating system:
 * the bounded buffer of typed keys and the table from US-layout virtual
 * keycodes to characters.
 */
module EventTap {
  import opened Wrappers
  import opened Text

  /** The buffer after one key: the oldest character goes first when the byte length has reached the capacity. */
  function Pushed(buffer: string, maxSize: nat, c: char): (r: string)
    requires buffer == [] ==> maxSize > 0
    ensures |r| == |buffer| + 1 || |r| == |buffer|
    ensures |r| >= 1 && r[|r| - 1] == c
  {
    (if Utf8Len(buffer) >= maxSize then buffer[1..] else buffer) + [c]
  }

  /** Before the new key the buffer holds the old one, less at most its oldest character. */
  lemma PushedKeepsOrder(buffer: string, maxSize: nat, c: char)
    requires buffer == [] ==> maxSize > 0
    ensures var r := Pushed(buffer, maxSize, c);
            r[..|r| - 1] == buffer[|buffer| + 1 - |r|..]
            && (|r| == |buffer| <==> Utf8Len(buffer) >= maxSize)
  {
  }

  /** A buffer holding `s` typed one key at a time, starting empty. */
  function PushAll(maxSize: nat, s: string): string
    requires maxSize > 0
  {
    if s == [] then [] else Pushed(PushAll(maxSize, s[..|s| - 1]), maxSize, s[|s| - 1])
  }

  predicate IsAscii(s: string) {
    forall i :: 0 <= i < |s| ==> s[i] as int < 0x80
  }

  /** The last `n` characters of `s`, or all of them when there are fewer. */
  function Last(s: string, n: nat): (r: string)
    ensures |r| == if |s| < n then |s| else n
  {
    if |s| < n then s else s[|s| - n..]
  }

  /** One ASCII key typed after a buffer that held the last keys of `p`. */
  lemma PushedKeepsLast(maxSize: nat, p: string, c: char)
    requires maxSize > 0 && IsAscii(p)
    ensures Pushed(Last(p, maxSize), maxSize, c) == Last(p + [c], maxSize)
  {
    var b := Last(p, maxSize);
    assert IsAscii(b) by {
      forall i | 0 <= i < |b| ensures b[i] as int < 0x80 {
        assert b[i] == p[|p| - |b| + i];
      }
    }
    AsciiUtf8Len(b);
    var s := p + [c];
    if |b| >= maxSize {
      assert b[1..] + [c] == s[|s| - maxSize..];
    } else {
      assert b == p;
    }
  }

  /**
   * Typing ASCII keys into a buffer of capacity `maxSize` keeps exactly the
   * last `maxSize` of them, in order.
   */
  lemma {:induction false} PushAllKeepsLast(maxSize: nat, s: string)
    requires maxSize > 0 && IsAscii(s)
    ensures PushAll(maxSize, s) == Last(s, maxSize)
    decreases |s|
  {
    if s != [] {
      var p := s[..|s| - 1];
      assert IsAscii(p) by {
        forall i | 0 <= i < |p| ensures p[i] as int < 0x80 {
          assert p[i] == s[i];
        }
      }
      var c := s[|s| - 1];
      assert PushAll(maxSize, s) == Pushed(PushAll(maxSize, p), maxSize, c);
      PushAllKeepsLast(maxSize, p);
      PushedKeepsLast(maxSize, p, c);
      assert p + [c] == s;
    }
  }

  class KeyBuffer {
    var buffer: string
    const maxSize: nat

    /** A capacity of at least one byte, and ASCII content within it. */
    predicate Valid()
      reads this
    {
      maxSize > 0 && IsAscii(buffer) && |buffer| <= maxSize
    }

    constructor(maxSize: nat)
      ensures buffer == [] && this.maxSize == maxSize
      ensures maxSize > 0 ==> Valid()
    {
      buffer := [];
      this.maxSize := maxSize;
    }

    /** Appends `c`, first dropping the oldest character when the buffer is full. */
    method Push(c: char)
      requires buffer == [] ==> maxSize > 0
      modifies this
      ensures buffer == Pushed(old(buffer), maxSize, c)
      ensures old(Valid()) && c as int < 0x80 ==> Valid()
    {
      if old(Valid()) && c as int < 0x80 {
        PushKeepsValid(buffer, maxSize, c);
      }
      if Utf8Len(buffer) >= maxSize {
        buffer := buffer[1..];
      }
      buffer := buffer + [c];
    }

    method Clear()
      modifies this
      ensures buffer == []
    {
      buffer := [];
    }

    function Get(): string
      reads this
    {
      buffer
    }

    /** Length in bytes. */
    function Len(): (r: nat)
      reads this
      ensures Valid() ==> r == |buffer|
    {
      assert Valid() ==> Utf8Len(buffer) == |buffer| by {
        if Valid() {
          AsciiUtf8Len(buffer);
        }
      }
      Utf8Len(buffer)
    }

    predicate IsEmpty()
      reads this
      ensures IsEmpty() <==> Len() == 0
    {
      buffer == []
    }
  }

  /** An ASCII key keeps a valid buffer valid. */
  lemma PushKeepsValid(buffer: string, maxSize: nat, c: char)
    requires maxSize > 0 && IsAscii(buffer) && |buffer| <= maxSize && c as int < 0x80
    ensures IsAscii(Pushed(buffer, maxSize, c)) && |Pushed(buffer, maxSize, c)| <= maxSize
  {
    AsciiUtf8Len(buffer);
    var r := Pushed(buffer, maxSize, c);
    forall i | 0 <= i < |r| ensures r[i] as int < 0x80 {
      if i < |r| - 1 {
        assert r[i] == buffer[i + |buffer| + 1 - |r|];
      }
    }
  }

  /** The unshifted character of each listed keycode of the US layout. */
  function BaseKey(keycode: nat): Option<char> {
    match keycode
    case 0 => Some('a')  case 1 => Some('s')  case 2 => Some('d')  case 3 => Some('f')
    case 4 => Some('h')  case 5 => Some('g')  case 6 => Some('z')  case 7 => Some('x')
    case 8 => Some('c')  case 9 => Some('v')  case 11 => Some('b') case 12 => Some('q')
    case 13 => Some('w') case 14 => Some('e') case 15 => Some('r') case 16 => Some('y')
    case 17 => Some('t') case 18 => Some('1') case 19 => Some('2') case 20 => Some('3')
    case 21 => Some('4') case 22 => Some('6') case 23 => Some('5') case 24 => Some('=')
    case 25 => Some('9') case 26 => Some('7') case 27 => Some('-') case 28 => Some('8')
    case 29 => Some('0') case 30 => Some(']') case 31 => Some('o') case 32 => Some('u')
    case 33 => Some('[') case 34 => Some('i') case 35 => Some('p') case 37 => Some('l')
    case 38 => Some('j') case 39 => Some('\'') case 40 => Some('k') case 41 => Some(';')
    case 42 => Some('\\') case 43 => Some(',') case 44 => Some('/') case 45 => Some('n')
    case 46 => Some('m') case 47 => Some('.') case 50 => Some('`')
    case _ => None
  }

  /** The character of a keycode; with Shift held only letters change, to their capitals. */
  function KeycodeToChar(keycode: nat, shift: bool): (r: Option<char>)
    ensures r.Some? <==> BaseKey(keycode).Some?
  {
    match BaseKey(keycode)
    case None => None
    case Some(base) => Some(if shift then UpperChar(base) else base)
  }

  /** Every character a keycode gives is printable ASCII other than space, so no key types Hangul. */
  lemma KeysArePrintableAscii(keycode: nat, shift: bool)
    requires KeycodeToChar(keycode, shift).Some?
    ensures '!' <= KeycodeToChar(keycode, shift).value <= '~'
  {
  }

  /** The shifted character is the ASCII capital of the unshifted one. */
  lemma ShiftCapitalises(keycode: nat)
    requires BaseKey(keycode).Some?
    ensures KeycodeToChar(keycode, true).value == UpperChar(KeycodeToChar(keycode, false).value)
    ensures IsAsciiUpper(KeycodeToChar(keycode, true).value) <==> IsAsciiLower(KeycodeToChar(keycode, false).value)
  {
  }

  /** Enter, Tab, Space, Escape and the arrows, which end a word, give no character. */
  lemma BoundaryKeysGiveNothing(keycode: nat, shift: bool)
    requires keycode in {36, 48, 49, 53, 123, 124, 125, 126}
    ensures KeycodeToChar(keycode, shift).None?
  {
  }

  /** The keycode that types `c` without Shift: the inverse of the keycode table. */
  function KeycodeOf(c: char): Option<nat> {
    match c
    case 'a' => Some(0)  case 's' => Some(1)  case 'd' => Some(2)  case 'f' => Some(3)
    case 'h' => Some(4)  case 'g' => Some(5)  case 'z' => Some(6)  case 'x' => Some(7)
    case 'c' => Some(8)  case 'v' => Some(9)  case 'b' => Some(11)  case 'q' => Some(12)
    case 'w' => Some(13)  case 'e' => Some(14)  case 'r' => Some(15)  case 'y' => Some(16)
    case 't' => Some(17)  case '1' => Some(18)  case '2' => Some(19)  case '3' => Some(20)
    case '4' => Some(21)  case '6' => Some(22)  case '5' => Some(23)  case '=' => Some(24)
    case '9' => Some(25)  case '7' => Some(26)  case '-' => Some(27)  case '8' => Some(28)
    case '0' => Some(29)  case ']' => Some(30)  case 'o' => Some(31)  case 'u' => Some(32)
    case '[' => Some(33)  case 'i' => Some(34)  case 'p' => Some(35)  case 'l' => Some(37)
    case 'j' => Some(38)  case '\'' => Some(39)  case 'k' => Some(40)  case ';' => Some(41)  case '\\' => Some(42)
    case ',' => Some(43)  case '/' => Some(44)  case 'n' => Some(45)  case 'm' => Some(46)
    case '.' => Some(47)  case '`' => Some(50)
    case _ => None
  }

  /** Looking a character up again gives back its keycode. */
  lemma BaseKeyInverse(k: nat)
    requires BaseKey(k).Some?
    ensures KeycodeOf(BaseKey(k).value) == Some(k)
  {
    if k < 24 {
      LowKeysInverse(k);
    } else {
      HighKeysInverse(k);
    }
  }

  // The inverse checked over the two halves of the table.
  lemma LowKeysInverse(k: nat)
    requires k < 24 && BaseKey(k).Some?
    ensures KeycodeOf(BaseKey(k).value) == Some(k)
  {
  }

  lemma HighKeysInverse(k: nat)
    requires k >= 24 && BaseKey(k).Some?
    ensures KeycodeOf(BaseKey(k).value) == Some(k)
  {
  }

  /** Different keycodes give different characters. */
  lemma BaseKeyInjective(k1: nat, k2: nat)
    requires BaseKey(k1).Some? && BaseKey(k1) == BaseKey(k2)
    ensures k1 == k2
  {
    BaseKeyInverse(k1);
    BaseKeyInverse(k2);
  }

  /** Every lowercase letter has a key. */
  lemma LowercaseKey(c: char)
    requires IsAsciiLower(c)
    ensures KeycodeOf(c).Some? && BaseKey(KeycodeOf(c).value) == Some(c)
  {
    match c
    case 'a' => {} case 'b' => {} case 'c' => {} case 'd' => {} case 'e' => {} case 'f' => {} case 'g' => {} case 'h' => {} case 'i' => {}
    case 'j' => {} case 'k' => {} case 'l' => {} case 'm' => {} case 'n' => {} case 'o' => {} case 'p' => {} case 'q' => {} case 'r' => {}
    case 's' => {} case 't' => {} case 'u' => {} case 'v' => {} case 'w' => {} case 'x' => {} case 'y' => {} case 'z' => {}
    case _ => {}
  }

  /** Every ASCII letter, small or capital, is typed by some key with or without Shift. */
  lemma EveryLetterIsTyped(c: char)
    requires IsAsciiLower(c) || IsAsciiUpper(c)
    ensures KeycodeOf(LowerChar(c)).Some?
    ensures KeycodeToChar(KeycodeOf(LowerChar(c)).value, IsAsciiUpper(c)) == Some(c)
  {
    LowercaseKey(LowerChar(c));
  }

  // The source's own test cases.
  lemma KeycodeExamples()
    ensures KeycodeToChar(0, false) == Some('a') && KeycodeToChar(0, true) == Some('A')
    ensures KeycodeToChar(15, false) == Some('r') && KeycodeToChar(15, true) == Some('R')
  {
  }

  lemma BufferOverflowExample()
    ensures PushAll(3, "abcd") == "bcd"
  {
    PushAllKeepsLast(3, "abcd");
  }

  lemma BufferExample()
    ensures PushAll(5, "abc") == "abc"
  {
    PushAllKeepsLast(5, "abc");
  }
}
