/**
 * The macOS version as the platform layer reads it: a product version
 * string such as "15.2.1" split on dots, the parts that are unsigned
 * 64-bit numbers kept in order, and the first three used as major, minor
 * and patch, with 13.0.0 filling what is missing.
 */
module OsVersion {
  import opened Wrappers

  datatype MacOSVersion = MacOSVersion(major: nat, minor: nat, patch: nat)

  /** The largest value of a `u64`. */
  const U64Max: nat := 0xFFFF_FFFF_FFFF_FFFF

  predicate FitsU64(v: MacOSVersion) {
    v.major <= U64Max && v.minor <= U64Max && v.patch <= U64Max
  }

  // ---------------------------------------------------------------------
  // Splitting on '.'

  /** The pieces of `s` between dots, empty pieces included, as `str::split('.')` yields them. */
  function Split(s: string): (r: seq<string>)
    ensures |r| >= 1
    ensures forall i :: 0 <= i < |r| ==> '.' !in r[i]
  {
    if s == [] then [""]
    else if s[0] == '.' then [""] + Split(s[1..])
    else
      var rest := Split(s[1..]);
      [[s[0]] + rest[0]] + rest[1..]
  }

  /** The pieces joined back with dots between them. */
  function JoinDots(parts: seq<string>): string
    requires |parts| >= 1
  {
    if |parts| == 1 then parts[0] else parts[0] + "." + JoinDots(parts[1..])
  }

  /** Joining the pieces gives back the split string. */
  lemma {:induction false} JoinSplit(s: string)
    ensures JoinDots(Split(s)) == s
  {
    if s != [] {
      JoinSplit(s[1..]);
      if s[0] == '.' {
        JoinSplitDot(s);
      } else {
        JoinSplitOther(s);
      }
    }
  }

  /** The step of `JoinSplit` for a leading dot. */
  lemma {:induction false} JoinSplitDot(s: string)
    requires s != [] && s[0] == '.' && JoinDots(Split(s[1..])) == s[1..]
    ensures JoinDots(Split(s)) == s
  {
    assert Split(s)[1..] == Split(s[1..]);
    assert s == "." + s[1..];
  }

  /** The step of `JoinSplit` for a leading character other than a dot. */
  lemma {:induction false} JoinSplitOther(s: string)
    requires s != [] && s[0] != '.' && JoinDots(Split(s[1..])) == s[1..]
    ensures JoinDots(Split(s)) == s
  {
    var rest := Split(s[1..]);
    assert Split(s) == [[s[0]] + rest[0]] + rest[1..];
    JoinDotsGrowsHead(s[0], rest);
    assert s == [s[0]] + s[1..];
  }

  /** A character put in front of the first piece is put in front of the joined string. */
  lemma {:induction false} JoinDotsGrowsHead(c: char, parts: seq<string>)
    requires |parts| >= 1
    ensures JoinDots([[c] + parts[0]] + parts[1..]) == [c] + JoinDots(parts)
  {
    var r := [[c] + parts[0]] + parts[1..];
    if |parts| > 1 {
      assert r[1..] == parts[1..];
      var tail := JoinDots(parts[1..]);
      assert JoinDots(r) == ([c] + parts[0]) + "." + tail;
      assert ([c] + parts[0]) + "." + tail == [c] + (parts[0] + "." + tail);
    }
  }

  /** A dot-free string is one piece. */
  lemma {:induction false} SplitNoDot(a: string)
    requires '.' !in a
    ensures Split(a) == [a]
  {
    if a != [] {
      assert '.' !in a[1..] by {
        forall i | 0 <= i < |a[1..]| ensures a[1..][i] != '.' {
          assert a[1..][i] == a[i + 1];
        }
      }
      SplitNoDot(a[1..]);
      assert [a[0]] + a[1..] == a;
    }
  }

  /** A dot-free head followed by a dot is split off as the first piece. */
  lemma {:induction false} SplitAfterHead(a: string, t: string)
    requires '.' !in a
    ensures Split(a + "." + t) == [a] + Split(t)
  {
    if a == [] {
      assert a + "." + t == ['.'] + t;
      assert (['.'] + t)[1..] == t;
    } else {
      var s := a + "." + t;
      assert '.' !in a[1..] by {
        forall i | 0 <= i < |a[1..]| ensures a[1..][i] != '.' {
          assert a[1..][i] == a[i + 1];
        }
      }
      assert s[1..] == a[1..] + "." + t;
      SplitAfterHead(a[1..], t);
      assert [a[0]] + a[1..] == a;
    }
  }

  /** Splitting dot-free pieces joined with dots gives back the pieces. */
  lemma {:induction false} SplitJoin(parts: seq<string>)
    requires |parts| >= 1
    requires forall i :: 0 <= i < |parts| ==> '.' !in parts[i]
    ensures Split(JoinDots(parts)) == parts
    decreases |parts|
  {
    if |parts| == 1 {
      SplitNoDot(parts[0]);
    } else {
      SplitJoin(parts[1..]);
      SplitAfterHead(parts[0], JoinDots(parts[1..]));
      assert [parts[0]] + parts[1..] == parts;
    }
  }

  // ---------------------------------------------------------------------
  // Unsigned integers

  predicate IsDigit(c: char) {
    '0' <= c <= '9'
  }

  predicate AllDigits(s: string) {
    forall i :: 0 <= i < |s| ==> IsDigit(s[i])
  }

  /** The number a string of decimal digits denotes, most significant first. */
  function DigitsValue(s: string): nat
    requires AllDigits(s)
  {
    if s == [] then 0
    else DigitsValue(s[..|s| - 1]) * 10 + (s[|s| - 1] as int - '0' as int)
  }

  /**
   * `str::parse::<u64>`: one optional leading '+', then at least one
   * decimal digit and nothing else, the value not above `u64::MAX`.
   */
  function ParseU64(p: string): (r: Option<nat>)
    ensures r.Some? ==> r.value <= U64Max
    ensures r.Some? ==> p != [] && (p[0] == '+' || IsDigit(p[0]))
  {
    var digits := if |p| >= 2 && p[0] == '+' then p[1..] else p;
    if digits != [] && AllDigits(digits) && DigitsValue(digits) <= U64Max then Some(DigitsValue(digits))
    else None
  }

  /** `n` in decimal without leading zeros, as `{}` formats an unsigned integer. */
  function Decimal(n: nat): (r: string)
    ensures r != [] && AllDigits(r)
    ensures r[0] != '+' && '.' !in r
  {
    var d := ['0' + (n % 10) as char];
    if n < 10 then d
    else
      var r := Decimal(n / 10) + d;
      assert forall i :: 0 <= i < |r| ==> r[i] == if i < |r| - 1 then Decimal(n / 10)[i] else d[0];
      r
  }

  /** The digits of `Decimal(n)` denote `n`. */
  lemma {:induction false} DecimalValue(n: nat)
    ensures DigitsValue(Decimal(n)) == n
  {
    var s := Decimal(n);
    if n >= 10 {
      DecimalValue(n / 10);
      assert s[..|s| - 1] == Decimal(n / 10);
    }
  }

  /** Parsing what `Display` writes for one field gives the field back. */
  lemma ParseDecimal(n: nat)
    requires n <= U64Max
    ensures ParseU64(Decimal(n)) == Some(n)
  {
    DecimalValue(n);
  }

  /** One leading '+' is accepted and changes nothing; a second one is not. */
  lemma PlusSignAccepted(d: string)
    requires d != [] && d[0] != '+'
    ensures ParseU64("+" + d) == ParseU64(d)
    ensures ParseU64("++" + d).None?
  {
    assert ("+" + d)[1..] == d;
    assert ("++" + d)[1..][0] == '+';
  }

  // ---------------------------------------------------------------------
  // parse_version and Display

  /** `filter_map(parse)`: the parsable pieces' values, in order. */
  function ParsedParts(parts: seq<string>): (r: seq<nat>)
    ensures |r| <= |parts|
  {
    if parts == [] then []
    else
      match ParseU64(parts[0])
      case Some(n) => [n] + ParsedParts(parts[1..])
      case None => ParsedParts(parts[1..])
  }

  function ParseVersion(s: string): (r: MacOSVersion)
    ensures FitsU64(r)
  {
    var ns := ParsedParts(Split(s));
    ParsedPartsFit(Split(s));
    MacOSVersion(
      if |ns| >= 1 then ns[0] else 13,
      if |ns| >= 2 then ns[1] else 0,
      if |ns| >= 3 then ns[2] else 0)
  }

  /** "major.minor.patch". */
  function Display(v: MacOSVersion): string {
    Decimal(v.major) + "." + Decimal(v.minor) + "." + Decimal(v.patch)
  }

  /** Every kept value is a `u64`. */
  lemma {:induction false} ParsedPartsFit(parts: seq<string>)
    ensures forall i :: 0 <= i < |ParsedParts(parts)| ==> ParsedParts(parts)[i] <= U64Max
  {
    if parts != [] {
      ParsedPartsFit(parts[1..]);
    }
  }

  /** Keeping the parsable pieces distributes over concatenation. */
  lemma {:induction false} ParsedPartsAppend(a: seq<string>, b: seq<string>)
    ensures ParsedParts(a + b) == ParsedParts(a) + ParsedParts(b)
  {
    if a != [] {
      assert (a + b)[1..] == a[1..] + b;
      ParsedPartsAppend(a[1..], b);
    } else {
      assert a + b == b;
    }
  }

  /** An unparsable piece is dropped, so the numbers after it move one place forward. */
  lemma DropsUnparsable(a: seq<string>, p: string, b: seq<string>)
    requires ParseU64(p).None?
    ensures ParsedParts(a + [p] + b) == ParsedParts(a + b)
  {
    ParsedPartsAppend(a + [p], b);
    ParsedPartsAppend(a, [p]);
    ParsedPartsAppend(a, b);
  }

  /** The pieces of a string written by `Display` are its three fields. */
  lemma SplitDisplay(v: MacOSVersion)
    ensures Split(Display(v)) == [Decimal(v.major), Decimal(v.minor), Decimal(v.patch)]
  {
    var parts := [Decimal(v.major), Decimal(v.minor), Decimal(v.patch)];
    assert JoinDots(parts[2..]) == Decimal(v.patch);
    assert JoinDots(parts[1..]) == Decimal(v.minor) + "." + Decimal(v.patch);
    assert JoinDots(parts) == Display(v);
    SplitJoin(parts);
  }

  /** `parse_version` reads back every version `Display` writes. */
  lemma ParseDisplay(v: MacOSVersion)
    requires FitsU64(v)
    ensures ParseVersion(Display(v)) == v
  {
    SplitDisplay(v);
    ParseDecimal(v.major);
    ParseDecimal(v.minor);
    ParseDecimal(v.patch);
    var parts := [Decimal(v.major), Decimal(v.minor), Decimal(v.patch)];
    assert parts[2..][1..] == [];
    assert ParsedParts(parts[2..]) == [v.patch];
    assert parts[1..][1..] == parts[2..];
    assert ParsedParts(parts[1..]) == [v.minor, v.patch];
  }

  /** A string with no number in it gives the default 13.0.0. */
  lemma NothingParsableIsDefault(s: string)
    requires forall i :: 0 <= i < |Split(s)| ==> ParseU64(Split(s)[i]).None?
    ensures ParseVersion(s) == MacOSVersion(13, 0, 0)
  {
    NoneParsable(Split(s));
  }

  lemma {:induction false} NoneParsable(parts: seq<string>)
    requires forall i :: 0 <= i < |parts| ==> ParseU64(parts[i]).None?
    ensures ParsedParts(parts) == []
  {
    if parts != [] {
      NoneParsable(parts[1..]);
    }
  }

  // ---------------------------------------------------------------------
  // Feature gates

  /** macOS 14 (Sonoma) or later. */
  predicate IsSonomaOrLater(v: MacOSVersion) {
    v.major >= 14
  }

  /** macOS 15 (Sequoia) or later. */
  predicate IsSequoiaOrLater(v: MacOSVersion) {
    v.major >= 15
  }

  /** Sequoia is a Sonoma-or-later release; the two gates differ exactly on major 14. */
  lemma GatesNested(v: MacOSVersion)
    ensures IsSequoiaOrLater(v) ==> IsSonomaOrLater(v)
    ensures IsSonomaOrLater(v) && !IsSequoiaOrLater(v) <==> v.major == 14
  {
  }

  /** The gates read only the major version. */
  lemma GatesIgnoreMinorAndPatch(v: MacOSVersion, w: MacOSVersion)
    requires v.major == w.major
    ensures IsSonomaOrLater(v) == IsSonomaOrLater(w) && IsSequoiaOrLater(v) == IsSequoiaOrLater(w)
  {
  }

  /** The version used when nothing can be read is below both gates. */
  lemma DefaultBelowGates()
    ensures !IsSonomaOrLater(ParseVersion("")) && !IsSequoiaOrLater(ParseVersion(""))
  {
    assert ParseU64("").None?;
  }

  // The source's test cases, and a string with a piece that is not a number.

  lemma ParsesFull()
    ensures ParseVersion("15.2.1") == MacOSVersion(15, 2, 1)
  {
    ParseDisplay(MacOSVersion(15, 2, 1));
    assert Display(MacOSVersion(15, 2, 1)) == "15.2.1";
  }

  lemma ParsesTwoParts()
    ensures ParseVersion("14.0") == MacOSVersion(14, 0, 0)
  {
    assert "14.0" == "14" + "." + "0";
    SplitAfterHead("14", "0");
    SplitNoDot("0");
    ParseDecimal(14);
    assert Decimal(14) == "14";
  }

  /** "15.x.2": the `x` is dropped and the 2 becomes the minor version. */
  lemma UnparsablePieceShifts()
    ensures ParseVersion("15.x.2") == MacOSVersion(15, 2, 0)
  {
    SplitJoin(["15", "x", "2"]);
    assert JoinDots(["15", "x", "2"]) == "15.x.2";
    ParseDecimal(15);
    assert Decimal(15) == "15";
    assert ParseU64("x").None?;
    ParseDecimal(2);
    assert Decimal(2) == "2";
    DropsUnparsable(["15"], "x", ["2"]);
    assert ParsedParts(["15", "2"]) == [15, 2];
  }
}
