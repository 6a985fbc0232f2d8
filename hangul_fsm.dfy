/**
 * The Hangul composition state machine. Jamo arrive one at a time; the
 * machine holds at most one syllable under composition and appends
 * finished characters to its output.
 *
 * `Machine` is a value snapshot of the machine and the functions over it
 * (`FeedStep`, `Flushed`, ...) are the specification; the class `HangulFsm`
 * has the same fields and its methods update them in place, each proved to
 * produce exactly the snapshot the specification gives.
 */
module Fsm {
  import opened Wrappers
  import opened Unicode
  import opened JamoMapper

  datatype State = Empty | Choseong | ChoseongJungseong | ChoseongJungseongJongseong

  datatype Machine = Machine(state: State, choseong: nat, jungseong: nat, jongseong: nat, output: string)

  const Initial: Machine := Machine(Empty, 0, 0, 0, "")

  /**
   * The machine invariant: the pending indices are in range for the state,
   * the unused ones are zero, and a pending final is a real final.
   */
  predicate Inv(m: Machine) {
    match m.state
    case Empty => m.choseong == 0 && m.jungseong == 0 && m.jongseong == 0
    case Choseong => m.choseong < ChoseongCount && m.jungseong == 0 && m.jongseong == 0
    case ChoseongJungseong => m.choseong < ChoseongCount && m.jungseong < JungseongCount && m.jongseong == 0
    case ChoseongJungseongJongseong =>
      m.choseong < ChoseongCount && m.jungseong < JungseongCount && 0 < m.jongseong < JongseongCount
  }

  /** Appends a character when there is one. */
  function PushSome(out: string, c: Option<char>): (r: string)
    ensures c.Some? ==> r == out + [c.value]
    ensures c.None? ==> r == out
  {
    if c.Some? then out + [c.value] else out
  }

  /** The character the pending syllable stands for, if any. */
  function Pending(m: Machine): Option<char> {
    match m.state
    case Empty => None
    case Choseong => ChoseongToJamoChar(m.choseong)
    case ChoseongJungseong => ComposeSyllable(m.choseong, m.jungseong, 0)
    case ChoseongJungseongJongseong => ComposeSyllable(m.choseong, m.jungseong, m.jongseong)
  }

  /**
   * Emits the pending syllable (a standalone consonant glyph when only an
   * initial is pending) and resets to the empty state.
   */
  function Flushed(m: Machine): (r: Machine)
    ensures r.state == Empty && Inv(r)
    ensures r.output == PushSome(m.output, Pending(m))
  {
    Machine(Empty, 0, 0, 0, PushSome(m.output, Pending(m)))
  }

  /** The machine's response to a consonant key. */
  function ConsonantStep(m: Machine, cho: nat, jong: Option<nat>): (r: Machine)
    ensures m.output <= r.output && |r.output| <= |m.output| + 1
    ensures Inv(m) && WellFormed(Consonant(cho, jong)) ==> Inv(r)
    ensures r.state == Choseong ==> r.choseong == cho
  {
    match m.state
    case Empty => m.(choseong := cho, state := Choseong)
    case Choseong => m.(output := PushSome(m.output, ChoseongToJamoChar(m.choseong)), choseong := cho)
    case ChoseongJungseong =>
      if jong.Some? then m.(jongseong := jong.value, state := ChoseongJungseongJongseong)
      else Flushed(m).(choseong := cho, state := Choseong)
    case ChoseongJungseongJongseong =>
      if jong.Some? && CombineJongseong(m.jongseong, jong.value).Some? then
        m.(jongseong := CombineJongseong(m.jongseong, jong.value).value)
      else
        Flushed(m).(choseong := cho, state := Choseong)
  }

  /** The machine's response to a vowel key. */
  function VowelStep(m: Machine, jung: nat): (r: Machine)
    ensures m.output <= r.output && |r.output| <= |m.output| + 2
    ensures Inv(m) && WellFormed(Vowel(jung)) ==> Inv(r)
    ensures r.state == Empty || r.state == ChoseongJungseong
  {
    match m.state
    case Empty => m.(output := PushSome(m.output, JungseongToJamoChar(jung)))
    case Choseong => m.(jungseong := jung, state := ChoseongJungseong)
    case ChoseongJungseong =>
      if CombineJungseong(m.jungseong, jung).Some? then
        m.(jungseong := CombineJungseong(m.jungseong, jung).value)
      else
        var f := Flushed(m);
        f.(output := PushSome(f.output, JungseongToJamoChar(jung)), state := Empty)
    case ChoseongJungseongJongseong =>
      if SplitJongseong(m.jongseong).Some? then
        var (remaining, next) := SplitJongseong(m.jongseong).value;
        Flushed(m.(jongseong := remaining)).(choseong := next, jungseong := jung, state := ChoseongJungseong)
      else if JongseongToChoseong(m.jongseong).Some? then
        var next := JongseongToChoseong(m.jongseong).value;
        Flushed(m.(jongseong := 0)).(choseong := next, jungseong := jung, state := ChoseongJungseong)
      else
        var f := Flushed(m);
        f.(output := PushSome(f.output, JungseongToJamoChar(jung)), state := Empty)
  }

  /** The machine's response to one jamo. */
  function FeedStep(m: Machine, j: Jamo): (r: Machine)
    ensures m.output <= r.output
    ensures Inv(m) && WellFormed(j) ==> Inv(r)
  {
    match j
    case Consonant(cho, jong) => ConsonantStep(m, cho, jong)
    case Vowel(jung) => VowelStep(m, jung)
  }

  /** A character outside the layout: finish the pending syllable, then copy the character. */
  function PassthroughStep(m: Machine, c: char): (r: Machine)
    ensures r.state == Empty && Inv(r)
    ensures r.output == PushSome(m.output, Pending(m)) + [c]
  {
    var f := Flushed(m);
    f.(output := f.output + [c])
  }

  /** The final text: the output with the pending syllable emitted. */
  function Finished(m: Machine): (r: string)
    ensures r == PushSome(m.output, Pending(m))
  {
    Flushed(m).output
  }

  /** Under the invariant a pending syllable always yields exactly one character. */
  lemma {:induction false} PendingDefined(m: Machine)
    requires Inv(m)
    ensures Pending(m).Some? <==> m.state != Empty
    ensures m.state == ChoseongJungseong || m.state == ChoseongJungseongJongseong ==>
              IsHangulSyllable(Pending(m).value)
              && DecomposeSyllable(Pending(m).value) == Some((m.choseong, m.jungseong, m.jongseong))
  {
    if m.state == ChoseongJungseong || m.state == ChoseongJungseongJongseong {
      DecomposeCompose(m.choseong, m.jungseong, m.jongseong);
    }
  }

  /**
   * The fallback branch of the vowel step (a final that can neither be
   * split nor moved) is never taken from a state satisfying the invariant:
   * a vowel after a final always starts a new syllable holding that vowel.
   */
  lemma {:induction false} VowelAfterFinalStartsSyllable(m: Machine, jung: nat)
    requires Inv(m) && m.state == ChoseongJungseongJongseong && jung < JungseongCount
    ensures SplitJongseong(m.jongseong).Some? || JongseongToChoseong(m.jongseong).Some?
    ensures VowelStep(m, jung).state == ChoseongJungseong && VowelStep(m, jung).jungseong == jung
    ensures |VowelStep(m, jung).output| == |m.output| + 1
  {
    FinalsPartitioned(m.jongseong);
    if SplitJongseong(m.jongseong).Some? {
      var (remaining, _) := SplitJongseong(m.jongseong).value;
      PendingDefined(m.(jongseong := remaining));
    } else {
      PendingDefined(m.(jongseong := 0, state := ChoseongJungseong));
    }
  }

  /** The machine with `o` placed in front of its output. */
  function WithPrefix(m: Machine, o: string): Machine {
    m.(output := o + m.output)
  }

  /** Appending after a prefix is appending to what follows it. */
  lemma PushSomeAfterPrefix(o: string, s: string, c: Option<char>)
    ensures PushSome(o + s, c) == o + PushSome(s, c)
  {
    if c.Some? {
      assert o + s + [c.value] == o + (s + [c.value]);
    }
  }

  /** Flushing does not read the output. */
  lemma FlushIgnoresOutput(m: Machine, o: string)
    ensures Flushed(WithPrefix(m, o)) == WithPrefix(Flushed(m), o)
  {
    PushSomeAfterPrefix(o, m.output, Pending(m));
  }

  /** A consonant step does not read the output. */
  lemma ConsonantIgnoresOutput(m: Machine, cho: nat, jong: Option<nat>, o: string)
    ensures ConsonantStep(WithPrefix(m, o), cho, jong) == WithPrefix(ConsonantStep(m, cho, jong), o)
  {
    FlushIgnoresOutput(m, o);
    PushSomeAfterPrefix(o, m.output, ChoseongToJamoChar(m.choseong));
  }

  /** A vowel step does not read the output. */
  lemma VowelIgnoresOutput(m: Machine, jung: nat, o: string)
    ensures VowelStep(WithPrefix(m, o), jung) == WithPrefix(VowelStep(m, jung), o)
  {
    FlushIgnoresOutput(m, o);
    PushSomeAfterPrefix(o, m.output, JungseongToJamoChar(jung));
    PushSomeAfterPrefix(o, Flushed(m).output, JungseongToJamoChar(jung));
    if m.state == ChoseongJungseongJongseong {
      if SplitJongseong(m.jongseong).Some? {
        FlushIgnoresOutput(m.(jongseong := SplitJongseong(m.jongseong).value.0), o);
      } else {
        FlushIgnoresOutput(m.(jongseong := 0), o);
      }
    }
  }

  /** The steps never read the output: text emitted earlier has no influence on later steps. */
  lemma FeedIgnoresOutput(m: Machine, j: Jamo, o: string)
    ensures FeedStep(WithPrefix(m, o), j) == WithPrefix(FeedStep(m, j), o)
  {
    match j
    case Consonant(cho, jong) => ConsonantIgnoresOutput(m, cho, jong, o);
    case Vowel(jung) => VowelIgnoresOutput(m, jung, o);
  }

  /** Passing a character through does not read the output either. */
  lemma PassthroughIgnoresOutput(m: Machine, c: char, o: string)
    ensures PassthroughStep(WithPrefix(m, o), c) == WithPrefix(PassthroughStep(m, c), o)
    ensures Finished(WithPrefix(m, o)) == o + Finished(m)
  {
    if Pending(m).Some? {
      assert o + m.output + [Pending(m).value] == o + (m.output + [Pending(m).value]);
      assert o + m.output + [Pending(m).value] + [c] == o + (m.output + [Pending(m).value] + [c]);
    } else {
      assert o + m.output + [c] == o + (m.output + [c]);
    }
  }

  /** The composition machine with its fields updated in place. */
  class HangulFsm {
    var state: State
    var choseong: nat
    var jungseong: nat
    var jongseong: nat
    var output: string

    /** The current contents as a value. */
    function Snapshot(): Machine
      reads this
    {
      Machine(state, choseong, jungseong, jongseong, output)
    }

    predicate Valid()
      reads this
    {
      Inv(Snapshot())
    }

    constructor()
      ensures Snapshot() == Initial && Valid()
    {
      state := Empty;
      choseong := 0;
      jungseong := 0;
      jongseong := 0;
      output := "";
    }

    method Feed(jamo: Jamo)
      modifies this
      ensures Snapshot() == FeedStep(old(Snapshot()), jamo)
      ensures old(Valid()) && WellFormed(jamo) ==> Valid()
    {
      match jamo
      case Consonant(cho, jong) => FeedConsonant(cho, jong);
      case Vowel(jung) => FeedVowel(jung);
    }

    method FeedConsonant(cho: nat, jong: Option<nat>)
      modifies this
      ensures Snapshot() == ConsonantStep(old(Snapshot()), cho, jong)
    {
      match state
      case Empty =>
        choseong := cho;
        state := Choseong;
      case Choseong =>
        var c := ChoseongToJamoChar(choseong);
        if c.Some? {
          output := output + [c.value];
        }
        choseong := cho;
      case ChoseongJungseong =>
        if jong.Some? {
          jongseong := jong.value;
          state := ChoseongJungseongJongseong;
        } else {
          FlushCurrent();
          choseong := cho;
          state := Choseong;
        }
      case ChoseongJungseongJongseong =>
        if jong.Some? {
          var combined := CombineJongseong(jongseong, jong.value);
          if combined.Some? {
            jongseong := combined.value;
          } else {
            FlushCurrent();
            choseong := cho;
            state := Choseong;
          }
        } else {
          FlushCurrent();
          choseong := cho;
          state := Choseong;
        }
    }

    method FeedVowel(jung: nat)
      modifies this
      ensures Snapshot() == VowelStep(old(Snapshot()), jung)
    {
      match state
      case Empty =>
        var c := JungseongToJamoChar(jung);
        if c.Some? {
          output := output + [c.value];
        }
      case Choseong =>
        jungseong := jung;
        state := ChoseongJungseong;
      case ChoseongJungseong =>
        var combined := CombineJungseong(jungseong, jung);
        if combined.Some? {
          jungseong := combined.value;
        } else {
          FlushCurrent();
          var c := JungseongToJamoChar(jung);
          if c.Some? {
            output := output + [c.value];
          }
          state := Empty;
        }
      case ChoseongJungseongJongseong =>
        var split := SplitJongseong(jongseong);
        if split.Some? {
          var (remaining, next) := split.value;
          jongseong := remaining;
          FlushCurrent();
          choseong := next;
          jungseong := jung;
          state := ChoseongJungseong;
        } else {
          var next := JongseongToChoseong(jongseong);
          if next.Some? {
            jongseong := 0;
            FlushCurrent();
            choseong := next.value;
            jungseong := jung;
            state := ChoseongJungseong;
          } else {
            FlushCurrent();
            var c := JungseongToJamoChar(jung);
            if c.Some? {
              output := output + [c.value];
            }
            state := Empty;
          }
        }
    }

    method FlushCurrent()
      modifies this
      ensures Snapshot() == Flushed(old(Snapshot()))
    {
      match state {
        case Empty =>
        case Choseong =>
          var c := ChoseongToJamoChar(choseong);
          if c.Some? {
            output := output + [c.value];
          }
        case ChoseongJungseong =>
          var c := ComposeSyllable(choseong, jungseong, 0);
          if c.Some? {
            output := output + [c.value];
          }
        case ChoseongJungseongJongseong =>
          var c := ComposeSyllable(choseong, jungseong, jongseong);
          if c.Some? {
            output := output + [c.value];
          }
      }
      ResetState();
    }

    method ResetState()
      modifies this
      ensures Snapshot() == Machine(Empty, 0, 0, 0, old(output))
    {
      state := Empty;
      choseong := 0;
      jungseong := 0;
      jongseong := 0;
    }

    method FeedPassthrough(c: char)
      modifies this
      ensures Snapshot() == PassthroughStep(old(Snapshot()), c)
    {
      FlushCurrent();
      output := output + [c];
    }

    method Finish() returns (r: string)
      modifies this
      ensures r == Finished(old(Snapshot()))
    {
      FlushCurrent();
      r := output;
    }
  }
}
