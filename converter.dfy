/**
 * Whole-string conversion from keys typed on a Latin layout to Hangul:
 * every key the two-set layout knows is fed to the composition machine,
 * every other character is copied through unchanged.
 */
module Converter {
  import Text
  import opened Wrappers
  import opened Unicode
  import opened JamoMapper
  import opened Fsm

  /** The machine's response to one input character. */
  function StepChar(m: Machine, c: char): (r: Machine)
    ensures m.output <= r.output
    ensures Inv(m) ==> Inv(r)
  {
    match MapToJamo(c)
    case Some(j) => FeedStep(m, j)
    case None => PassthroughStep(m, c)
  }

  /** The machine after reading `s` from `m`. */
  function Run(m: Machine, s: string): (r: Machine)
    ensures m.output <= r.output
    ensures Inv(m) ==> Inv(r)
    decreases |s|
  {
    if s == [] then m else Run(StepChar(m, s[0]), s[1..])
  }

  /** The converted text: the input run through a fresh machine, then finished. */
  function Converted(input: string): string {
    Finished(Run(Initial, input))
  }

  /** Reading `a + b` is reading `a` and then `b`. */
  lemma {:induction false} RunAppend(m: Machine, a: string, b: string)
    ensures Run(m, a + b) == Run(Run(m, a), b)
    decreases |a|
  {
    if a == [] {
      assert a + b == b;
    } else {
      assert (a + b)[1..] == a[1..] + b;
      RunAppend(StepChar(m, a[0]), a[1..], b);
    }
  }

  /** Reading one more character is one more step. */
  lemma RunSnoc(m: Machine, s: string, c: char)
    ensures Run(m, s + [c]) == StepChar(Run(m, s), c)
  {
    RunAppend(m, s, [c]);
  }

  /** Earlier output never influences how later input is read. */
  lemma {:induction false} RunIgnoresOutput(m: Machine, s: string, o: string)
    ensures Run(WithPrefix(m, o), s) == WithPrefix(Run(m, s), o)
    decreases |s|
  {
    if s != [] {
      match MapToJamo(s[0]) {
        case Some(j) => FeedIgnoresOutput(m, j, o);
        case None => PassthroughIgnoresOutput(m, s[0], o);
      }
      RunIgnoresOutput(StepChar(m, s[0]), s[1..], o);
    }
  }

  /** Converts `input`, feeding each character to a fresh composition machine. */
  method Convert(input: string) returns (r: string)
    ensures r == Converted(input)
  {
    var fsm := new HangulFsm();
    for i := 0 to |input|
      invariant fsm.Snapshot() == Run(Initial, input[..i])
    {
      RunSnoc(Initial, input[..i], input[i]);
      Text.PrefixSnoc(input, i);
      var jamo := MapToJamo(input[i]);
      if jamo.Some? {
        fsm.Feed(jamo.value);
      } else {
        fsm.FeedPassthrough(input[i]);
      }
    }
    Text.WholePrefix(input);
    r := fsm.Finish();
  }

  /** The machine state reached from a step is always consistent, whatever the input. */
  lemma RunKeepsInvariant(s: string)
    ensures Inv(Run(Initial, s))
  {
  }

  /**
   * A character outside the layout cuts the input in two: the parts are
   * converted independently and the character stays between them.
   */
  lemma {:induction false} ConvertSplitsAtUnmapped(a: string, x: char, b: string)
    requires MapToJamo(x).None?
    ensures Converted(a + [x] + b) == Converted(a) + [x] + Converted(b)
  {
    RunAppend(Initial, a + [x], b);
    RunSnoc(Initial, a, x);
    var m := Run(Initial, a + [x]);
    assert m == WithPrefix(Initial, Converted(a) + [x]);
    RunIgnoresOutput(Initial, b, Converted(a) + [x]);
    PassthroughIgnoresOutput(Run(Initial, b), x, Converted(a) + [x]);
    assert WithPrefix(Run(Initial, b), Converted(a) + [x]).output == (Converted(a) + [x]) + Run(Initial, b).output;
  }

  /** Text with no key of the layout is left exactly as it is (digits, punctuation, unmapped letters). */
  lemma {:induction false} ConvertUnmappedIdentity(s: string)
    requires forall i :: 0 <= i < |s| ==> MapToJamo(s[i]).None?
    ensures Converted(s) == s
    decreases |s|
  {
    if s != [] {
      var p := s[..|s| - 1];
      var x := s[|s| - 1];
      assert s == p + [x] + [];
      ConvertSplitsAtUnmapped(p, x, []);
      ConvertUnmappedIdentity(p);
    }
  }

  /**
   * Reading `a + b` and finishing, when `a` is known to lead to `mid`.
   * Used to evaluate longer inputs in pieces.
   */
  lemma FinishedInPieces(m: Machine, a: string, b: string, mid: Machine)
    requires Run(m, a) == mid
    ensures Finished(Run(m, a + b)) == Finished(Run(mid, b))
  {
    RunAppend(m, a, b);
  }

  /** A run is the chain of its single steps: knowing the machine after every key gives the machine at the end. */
  lemma {:induction false} RunTrace(ms: seq<Machine>, s: string)
    requires |ms| == |s| + 1
    requires forall i :: 0 <= i < |s| ==> StepChar(ms[i], s[i]) == ms[i + 1]
    ensures Run(ms[0], s) == ms[|s|]
    decreases |s|
  {
    if s != [] {
      RunTrace(ms[1..], s[1..]);
    }
  }

  // Single keys, evaluated by the verifier directly.
  lemma ConvertsR() ensures Converted("r") == "ㄱ" {}
  lemma ConvertsK() ensures Converted("k") == "ㅏ" {}

  // Longer inputs: the machine after each key, two keys per lemma, then the run as a whole.

  // "rk": the machine after each key.
  lemma StepsOfRk1()
    ensures StepChar(Initial, 'r')
            == Machine(Choseong, 0, 0, 0, "")
    ensures StepChar(Machine(Choseong, 0, 0, 0, ""), 'k')
            == Machine(ChoseongJungseong, 0, 0, 0, "")
  {
  }

  lemma ConvertsRk()
    ensures Converted("rk") == "가"
  {
    StepsOfRk1();
    RunTrace([Initial,
              Machine(Choseong, 0, 0, 0, ""),
              Machine(ChoseongJungseong, 0, 0, 0, "")],
             "rk");
  }

  // "sk": the machine after each key.
  lemma StepsOfSk1()
    ensures StepChar(Initial, 's')
            == Machine(Choseong, 2, 0, 0, "")
    ensures StepChar(Machine(Choseong, 2, 0, 0, ""), 'k')
            == Machine(ChoseongJungseong, 2, 0, 0, "")
  {
  }

  lemma ConvertsSk()
    ensures Converted("sk") == "나"
  {
    StepsOfSk1();
    RunTrace([Initial,
              Machine(Choseong, 2, 0, 0, ""),
              Machine(ChoseongJungseong, 2, 0, 0, "")],
             "sk");
  }

  // "ek": the machine after each key.
  lemma StepsOfEk1()
    ensures StepChar(Initial, 'e')
            == Machine(Choseong, 3, 0, 0, "")
    ensures StepChar(Machine(Choseong, 3, 0, 0, ""), 'k')
            == Machine(ChoseongJungseong, 3, 0, 0, "")
  {
  }

  lemma ConvertsEk()
    ensures Converted("ek") == "다"
  {
    StepsOfEk1();
    RunTrace([Initial,
              Machine(Choseong, 3, 0, 0, ""),
              Machine(ChoseongJungseong, 3, 0, 0, "")],
             "ek");
  }

  // "rkr": the machine after each key.
  lemma StepsOfRkr1()
    ensures StepChar(Initial, 'r')
            == Machine(Choseong, 0, 0, 0, "")
    ensures StepChar(Machine(Choseong, 0, 0, 0, ""), 'k')
            == Machine(ChoseongJungseong, 0, 0, 0, "")
  {
  }

  lemma StepsOfRkr2()
    ensures StepChar(Machine(ChoseongJungseong, 0, 0, 0, ""), 'r')
            == Machine(ChoseongJungseongJongseong, 0, 0, 1, "")
  {
  }

  lemma ConvertsRkr()
    ensures Converted("rkr") == "각"
  {
    StepsOfRkr1();
    StepsOfRkr2();
    RunTrace([Initial,
              Machine(Choseong, 0, 0, 0, ""),
              Machine(ChoseongJungseong, 0, 0, 0, ""),
              Machine(ChoseongJungseongJongseong, 0, 0, 1, "")],
             "rkr");
  }

  // "rks": the machine after each key.
  lemma StepsOfRks1()
    ensures StepChar(Initial, 'r')
            == Machine(Choseong, 0, 0, 0, "")
    ensures StepChar(Machine(Choseong, 0, 0, 0, ""), 'k')
            == Machine(ChoseongJungseong, 0, 0, 0, "")
  {
  }

  lemma StepsOfRks2()
    ensures StepChar(Machine(ChoseongJungseong, 0, 0, 0, ""), 's')
            == Machine(ChoseongJungseongJongseong, 0, 0, 4, "")
  {
  }

  lemma ConvertsRks()
    ensures Converted("rks") == "간"
  {
    StepsOfRks1();
    StepsOfRks2();
    RunTrace([Initial,
              Machine(Choseong, 0, 0, 0, ""),
              Machine(ChoseongJungseong, 0, 0, 0, ""),
              Machine(ChoseongJungseongJongseong, 0, 0, 4, "")],
             "rks");
  }

  // "gks": the machine after each key.
  lemma StepsOfGks1()
    ensures StepChar(Initial, 'g')
            == Machine(Choseong, 18, 0, 0, "")
    ensures StepChar(Machine(Choseong, 18, 0, 0, ""), 'k')
            == Machine(ChoseongJungseong, 18, 0, 0, "")
  {
  }

  lemma StepsOfGks2()
    ensures StepChar(Machine(ChoseongJungseong, 18, 0, 0, ""), 's')
            == Machine(ChoseongJungseongJongseong, 18, 0, 4, "")
  {
  }

  lemma ConvertsGks()
    ensures Converted("gks") == "한"
  {
    StepsOfGks1();
    StepsOfGks2();
    RunTrace([Initial,
              Machine(Choseong, 18, 0, 0, ""),
              Machine(ChoseongJungseong, 18, 0, 0, ""),
              Machine(ChoseongJungseongJongseong, 18, 0, 4, "")],
             "gks");
  }

  // "Rk": the machine after each key.
  lemma StepsOfRRk1()
    ensures StepChar(Initial, 'R')
            == Machine(Choseong, 1, 0, 0, "")
    ensures StepChar(Machine(Choseong, 1, 0, 0, ""), 'k')
            == Machine(ChoseongJungseong, 1, 0, 0, "")
  {
  }

  lemma ConvertsRRk()
    ensures Converted("Rk") == "까"
  {
    StepsOfRRk1();
    RunTrace([Initial,
              Machine(Choseong, 1, 0, 0, ""),
              Machine(ChoseongJungseong, 1, 0, 0, "")],
             "Rk");
  }

  // "Tks": the machine after each key.
  lemma StepsOfTTks1()
    ensures StepChar(Initial, 'T')
            == Machine(Choseong, 10, 0, 0, "")
    ensures StepChar(Machine(Choseong, 10, 0, 0, ""), 'k')
            == Machine(ChoseongJungseong, 10, 0, 0, "")
  {
  }

  lemma StepsOfTTks2()
    ensures StepChar(Machine(ChoseongJungseong, 10, 0, 0, ""), 's')
            == Machine(ChoseongJungseongJongseong, 10, 0, 4, "")
  {
  }

  lemma ConvertsTTks()
    ensures Converted("Tks") == "싼"
  {
    StepsOfTTks1();
    StepsOfTTks2();
    RunTrace([Initial,
              Machine(Choseong, 10, 0, 0, ""),
              Machine(ChoseongJungseong, 10, 0, 0, ""),
              Machine(ChoseongJungseongJongseong, 10, 0, 4, "")],
             "Tks");
  }

  // "rs": the machine after each key.
  lemma StepsOfRs1()
    ensures StepChar(Initial, 'r')
            == Machine(Choseong, 0, 0, 0, "")
    ensures StepChar(Machine(Choseong, 0, 0, 0, ""), 's')
            == Machine(Choseong, 2, 0, 0, "ㄱ")
  {
  }

  lemma ConvertsRs()
    ensures Converted("rs") == "ㄱㄴ"
  {
    StepsOfRs1();
    RunTrace([Initial,
              Machine(Choseong, 0, 0, 0, ""),
              Machine(Choseong, 2, 0, 0, "ㄱ")],
             "rs");
  }

  // "kh": the machine after each key.
  lemma StepsOfKh1()
    ensures StepChar(Initial, 'k')
            == Machine(Empty, 0, 0, 0, "ㅏ")
    ensures StepChar(Machine(Empty, 0, 0, 0, "ㅏ"), 'h')
            == Machine(Empty, 0, 0, 0, "ㅏㅗ")
  {
  }

  lemma ConvertsKh()
    ensures Converted("kh") == "ㅏㅗ"
  {
    StepsOfKh1();
    RunTrace([Initial,
              Machine(Empty, 0, 0, 0, "ㅏ"),
              Machine(Empty, 0, 0, 0, "ㅏㅗ")],
             "kh");
  }

  // "rksk": the machine after each key.
  lemma StepsOfRksk1()
    ensures StepChar(Initial, 'r')
            == Machine(Choseong, 0, 0, 0, "")
    ensures StepChar(Machine(Choseong, 0, 0, 0, ""), 'k')
            == Machine(ChoseongJungseong, 0, 0, 0, "")
  {
  }

  lemma StepsOfRksk2()
    ensures StepChar(Machine(ChoseongJungseong, 0, 0, 0, ""), 's')
            == Machine(ChoseongJungseongJongseong, 0, 0, 4, "")
    ensures StepChar(Machine(ChoseongJungseongJongseong, 0, 0, 4, ""), 'k')
            == Machine(ChoseongJungseong, 2, 0, 0, "가")
  {
  }

  lemma ConvertsRksk()
    ensures Converted("rksk") == "가나"
  {
    StepsOfRksk1();
    StepsOfRksk2();
    RunTrace([Initial,
              Machine(Choseong, 0, 0, 0, ""),
              Machine(ChoseongJungseong, 0, 0, 0, ""),
              Machine(ChoseongJungseongJongseong, 0, 0, 4, ""),
              Machine(ChoseongJungseong, 2, 0, 0, "가")],
             "rksk");
  }

  // "dkswl": the machine after each key.
  lemma StepsOfDkswl1()
    ensures StepChar(Initial, 'd')
            == Machine(Choseong, 11, 0, 0, "")
    ensures StepChar(Machine(Choseong, 11, 0, 0, ""), 'k')
            == Machine(ChoseongJungseong, 11, 0, 0, "")
  {
  }

  lemma StepsOfDkswl2()
    ensures StepChar(Machine(ChoseongJungseong, 11, 0, 0, ""), 's')
            == Machine(ChoseongJungseongJongseong, 11, 0, 4, "")
    ensures StepChar(Machine(ChoseongJungseongJongseong, 11, 0, 4, ""), 'w')
            == Machine(ChoseongJungseongJongseong, 11, 0, 5, "")
  {
  }

  lemma StepsOfDkswl3()
    ensures StepChar(Machine(ChoseongJungseongJongseong, 11, 0, 5, ""), 'l')
            == Machine(ChoseongJungseong, 12, 20, 0, "안")
  {
  }

  lemma ConvertsDkswl()
    ensures Converted("dkswl") == "안지"
  {
    StepsOfDkswl1();
    StepsOfDkswl2();
    StepsOfDkswl3();
    RunTrace([Initial,
              Machine(Choseong, 11, 0, 0, ""),
              Machine(ChoseongJungseong, 11, 0, 0, ""),
              Machine(ChoseongJungseongJongseong, 11, 0, 4, ""),
              Machine(ChoseongJungseongJongseong, 11, 0, 5, ""),
              Machine(ChoseongJungseong, 12, 20, 0, "안")],
             "dkswl");
  }

  // "dhk": the machine after each key.
  lemma StepsOfDhk1()
    ensures StepChar(Initial, 'd')
            == Machine(Choseong, 11, 0, 0, "")
    ensures StepChar(Machine(Choseong, 11, 0, 0, ""), 'h')
            == Machine(ChoseongJungseong, 11, 8, 0, "")
  {
  }

  lemma StepsOfDhk2()
    ensures StepChar(Machine(ChoseongJungseong, 11, 8, 0, ""), 'k')
            == Machine(ChoseongJungseong, 11, 9, 0, "")
  {
  }

  lemma ConvertsDhk()
    ensures Converted("dhk") == "와"
  {
    StepsOfDhk1();
    StepsOfDhk2();
    RunTrace([Initial,
              Machine(Choseong, 11, 0, 0, ""),
              Machine(ChoseongJungseong, 11, 8, 0, ""),
              Machine(ChoseongJungseong, 11, 9, 0, "")],
             "dhk");
  }

  // "dnj": the machine after each key.
  lemma StepsOfDnj1()
    ensures StepChar(Initial, 'd')
            == Machine(Choseong, 11, 0, 0, "")
    ensures StepChar(Machine(Choseong, 11, 0, 0, ""), 'n')
            == Machine(ChoseongJungseong, 11, 13, 0, "")
  {
  }

  lemma StepsOfDnj2()
    ensures StepChar(Machine(ChoseongJungseong, 11, 13, 0, ""), 'j')
            == Machine(ChoseongJungseong, 11, 14, 0, "")
  {
  }

  lemma ConvertsDnj()
    ensures Converted("dnj") == "워"
  {
    StepsOfDnj1();
    StepsOfDnj2();
    RunTrace([Initial,
              Machine(Choseong, 11, 0, 0, ""),
              Machine(ChoseongJungseong, 11, 13, 0, ""),
              Machine(ChoseongJungseong, 11, 14, 0, "")],
             "dnj");
  }

  // "dml": the machine after each key.
  lemma StepsOfDml1()
    ensures StepChar(Initial, 'd')
            == Machine(Choseong, 11, 0, 0, "")
    ensures StepChar(Machine(Choseong, 11, 0, 0, ""), 'm')
            == Machine(ChoseongJungseong, 11, 18, 0, "")
  {
  }

  lemma StepsOfDml2()
    ensures StepChar(Machine(ChoseongJungseong, 11, 18, 0, ""), 'l')
            == Machine(ChoseongJungseong, 11, 19, 0, "")
  {
  }

  lemma ConvertsDml()
    ensures Converted("dml") == "의"
  {
    StepsOfDml1();
    StepsOfDml2();
    RunTrace([Initial,
              Machine(Choseong, 11, 0, 0, ""),
              Machine(ChoseongJungseong, 11, 18, 0, ""),
              Machine(ChoseongJungseong, 11, 19, 0, "")],
             "dml");
  }

  // "dkfr": the machine after each key.
  lemma StepsOfDkfr1()
    ensures StepChar(Initial, 'd')
            == Machine(Choseong, 11, 0, 0, "")
    ensures StepChar(Machine(Choseong, 11, 0, 0, ""), 'k')
            == Machine(ChoseongJungseong, 11, 0, 0, "")
  {
  }

  lemma StepsOfDkfr2()
    ensures StepChar(Machine(ChoseongJungseong, 11, 0, 0, ""), 'f')
            == Machine(ChoseongJungseongJongseong, 11, 0, 8, "")
    ensures StepChar(Machine(ChoseongJungseongJongseong, 11, 0, 8, ""), 'r')
            == Machine(ChoseongJungseongJongseong, 11, 0, 9, "")
  {
  }

  lemma ConvertsDkfr()
    ensures Converted("dkfr") == "앍"
  {
    StepsOfDkfr1();
    StepsOfDkfr2();
    RunTrace([Initial,
              Machine(Choseong, 11, 0, 0, ""),
              Machine(ChoseongJungseong, 11, 0, 0, ""),
              Machine(ChoseongJungseongJongseong, 11, 0, 8, ""),
              Machine(ChoseongJungseongJongseong, 11, 0, 9, "")],
             "dkfr");
  }

  // "dlfr": the machine after each key.
  lemma StepsOfDlfr1()
    ensures StepChar(Initial, 'd')
            == Machine(Choseong, 11, 0, 0, "")
    ensures StepChar(Machine(Choseong, 11, 0, 0, ""), 'l')
            == Machine(ChoseongJungseong, 11, 20, 0, "")
  {
  }

  lemma StepsOfDlfr2()
    ensures StepChar(Machine(ChoseongJungseong, 11, 20, 0, ""), 'f')
            == Machine(ChoseongJungseongJongseong, 11, 20, 8, "")
    ensures StepChar(Machine(ChoseongJungseongJongseong, 11, 20, 8, ""), 'r')
            == Machine(ChoseongJungseongJongseong, 11, 20, 9, "")
  {
  }

  lemma ConvertsDlfr()
    ensures Converted("dlfr") == "읽"
  {
    StepsOfDlfr1();
    StepsOfDlfr2();
    RunTrace([Initial,
              Machine(Choseong, 11, 0, 0, ""),
              Machine(ChoseongJungseong, 11, 20, 0, ""),
              Machine(ChoseongJungseongJongseong, 11, 20, 8, ""),
              Machine(ChoseongJungseongJongseong, 11, 20, 9, "")],
             "dlfr");
  }

  // "rkskek": the machine after each key.
  lemma StepsOfRkskek1()
    ensures StepChar(Initial, 'r')
            == Machine(Choseong, 0, 0, 0, "")
    ensures StepChar(Machine(Choseong, 0, 0, 0, ""), 'k')
            == Machine(ChoseongJungseong, 0, 0, 0, "")
  {
  }

  lemma StepsOfRkskek2()
    ensures StepChar(Machine(ChoseongJungseong, 0, 0, 0, ""), 's')
            == Machine(ChoseongJungseongJongseong, 0, 0, 4, "")
    ensures StepChar(Machine(ChoseongJungseongJongseong, 0, 0, 4, ""), 'k')
            == Machine(ChoseongJungseong, 2, 0, 0, "가")
  {
  }

  lemma StepsOfRkskek3()
    ensures StepChar(Machine(ChoseongJungseong, 2, 0, 0, "가"), 'e')
            == Machine(ChoseongJungseongJongseong, 2, 0, 7, "가")
    ensures StepChar(Machine(ChoseongJungseongJongseong, 2, 0, 7, "가"), 'k')
            == Machine(ChoseongJungseong, 3, 0, 0, "가나")
  {
  }

  lemma ConvertsRkskek()
    ensures Converted("rkskek") == "가나다"
  {
    StepsOfRkskek1();
    StepsOfRkskek2();
    StepsOfRkskek3();
    RunTrace([Initial,
              Machine(Choseong, 0, 0, 0, ""),
              Machine(ChoseongJungseong, 0, 0, 0, ""),
              Machine(ChoseongJungseongJongseong, 0, 0, 4, ""),
              Machine(ChoseongJungseong, 2, 0, 0, "가"),
              Machine(ChoseongJungseongJongseong, 2, 0, 7, "가"),
              Machine(ChoseongJungseong, 3, 0, 0, "가나")],
             "rkskek");
  }

  // "gksrmf": the machine after each key.
  lemma StepsOfGksrmf1()
    ensures StepChar(Initial, 'g')
            == Machine(Choseong, 18, 0, 0, "")
    ensures StepChar(Machine(Choseong, 18, 0, 0, ""), 'k')
            == Machine(ChoseongJungseong, 18, 0, 0, "")
  {
  }

  lemma StepsOfGksrmf2()
    ensures StepChar(Machine(ChoseongJungseong, 18, 0, 0, ""), 's')
            == Machine(ChoseongJungseongJongseong, 18, 0, 4, "")
    ensures StepChar(Machine(ChoseongJungseongJongseong, 18, 0, 4, ""), 'r')
            == Machine(Choseong, 0, 0, 0, "한")
  {
  }

  lemma StepsOfGksrmf3()
    ensures StepChar(Machine(Choseong, 0, 0, 0, "한"), 'm')
            == Machine(ChoseongJungseong, 0, 18, 0, "한")
    ensures StepChar(Machine(ChoseongJungseong, 0, 18, 0, "한"), 'f')
            == Machine(ChoseongJungseongJongseong, 0, 18, 8, "한")
  {
  }

  lemma ConvertsGksrmf()
    ensures Converted("gksrmf") == "한글"
  {
    StepsOfGksrmf1();
    StepsOfGksrmf2();
    StepsOfGksrmf3();
    RunTrace([Initial,
              Machine(Choseong, 18, 0, 0, ""),
              Machine(ChoseongJungseong, 18, 0, 0, ""),
              Machine(ChoseongJungseongJongseong, 18, 0, 4, ""),
              Machine(Choseong, 0, 0, 0, "한"),
              Machine(ChoseongJungseong, 0, 18, 0, "한"),
              Machine(ChoseongJungseongJongseong, 0, 18, 8, "한")],
             "gksrmf");
  }

  // "rkrkrl": the machine after each key.
  lemma StepsOfRkrkrl1()
    ensures StepChar(Initial, 'r')
            == Machine(Choseong, 0, 0, 0, "")
    ensures StepChar(Machine(Choseong, 0, 0, 0, ""), 'k')
            == Machine(ChoseongJungseong, 0, 0, 0, "")
  {
  }

  lemma StepsOfRkrkrl2()
    ensures StepChar(Machine(ChoseongJungseong, 0, 0, 0, ""), 'r')
            == Machine(ChoseongJungseongJongseong, 0, 0, 1, "")
    ensures StepChar(Machine(ChoseongJungseongJongseong, 0, 0, 1, ""), 'k')
            == Machine(ChoseongJungseong, 0, 0, 0, "가")
  {
  }

  lemma StepsOfRkrkrl3()
    ensures StepChar(Machine(ChoseongJungseong, 0, 0, 0, "가"), 'r')
            == Machine(ChoseongJungseongJongseong, 0, 0, 1, "가")
    ensures StepChar(Machine(ChoseongJungseongJongseong, 0, 0, 1, "가"), 'l')
            == Machine(ChoseongJungseong, 0, 20, 0, "가가")
  {
  }

  lemma ConvertsRkrkrl()
    ensures Converted("rkrkrl") == "가가기"
  {
    StepsOfRkrkrl1();
    StepsOfRkrkrl2();
    StepsOfRkrkrl3();
    RunTrace([Initial,
              Machine(Choseong, 0, 0, 0, ""),
              Machine(ChoseongJungseong, 0, 0, 0, ""),
              Machine(ChoseongJungseongJongseong, 0, 0, 1, ""),
              Machine(ChoseongJungseong, 0, 0, 0, "가"),
              Machine(ChoseongJungseongJongseong, 0, 0, 1, "가"),
              Machine(ChoseongJungseong, 0, 20, 0, "가가")],
             "rkrkrl");
  }

  // "123": the machine after each key.
  lemma StepsOfDigits1()
    ensures StepChar(Initial, '1')
            == Machine(Empty, 0, 0, 0, "1")
    ensures StepChar(Machine(Empty, 0, 0, 0, "1"), '2')
            == Machine(Empty, 0, 0, 0, "12")
  {
  }

  lemma StepsOfDigits2()
    ensures StepChar(Machine(Empty, 0, 0, 0, "12"), '3')
            == Machine(Empty, 0, 0, 0, "123")
  {
  }

  lemma ConvertsDigits()
    ensures Converted("123") == "123"
  {
    StepsOfDigits1();
    StepsOfDigits2();
    RunTrace([Initial,
              Machine(Empty, 0, 0, 0, "1"),
              Machine(Empty, 0, 0, 0, "12"),
              Machine(Empty, 0, 0, 0, "123")],
             "123");
  }

  // "dhksfy": the machine after each key.
  lemma StepsOfDhksfy1()
    ensures StepChar(Initial, 'd')
            == Machine(Choseong, 11, 0, 0, "")
    ensures StepChar(Machine(Choseong, 11, 0, 0, ""), 'h')
            == Machine(ChoseongJungseong, 11, 8, 0, "")
  {
  }

  lemma StepsOfDhksfy2()
    ensures StepChar(Machine(ChoseongJungseong, 11, 8, 0, ""), 'k')
            == Machine(ChoseongJungseong, 11, 9, 0, "")
    ensures StepChar(Machine(ChoseongJungseong, 11, 9, 0, ""), 's')
            == Machine(ChoseongJungseongJongseong, 11, 9, 4, "")
  {
  }

  lemma StepsOfDhksfy3()
    ensures StepChar(Machine(ChoseongJungseongJongseong, 11, 9, 4, ""), 'f')
            == Machine(Choseong, 5, 0, 0, "완")
    ensures StepChar(Machine(Choseong, 5, 0, 0, "완"), 'y')
            == Machine(ChoseongJungseong, 5, 12, 0, "완")
  {
  }

  lemma ConvertsDhksfy()
    ensures Converted("dhksfy") == "완료"
  {
    StepsOfDhksfy1();
    StepsOfDhksfy2();
    StepsOfDhksfy3();
    RunTrace([Initial,
              Machine(Choseong, 11, 0, 0, ""),
              Machine(ChoseongJungseong, 11, 8, 0, ""),
              Machine(ChoseongJungseong, 11, 9, 0, ""),
              Machine(ChoseongJungseongJongseong, 11, 9, 4, ""),
              Machine(Choseong, 5, 0, 0, "완"),
              Machine(ChoseongJungseong, 5, 12, 0, "완")],
             "dhksfy");
  }

  // "123rksk": the machine after each key.
  lemma StepsOfDigitsThenKeys1()
    ensures StepChar(Initial, '1')
            == Machine(Empty, 0, 0, 0, "1")
    ensures StepChar(Machine(Empty, 0, 0, 0, "1"), '2')
            == Machine(Empty, 0, 0, 0, "12")
  {
  }

  lemma StepsOfDigitsThenKeys2()
    ensures StepChar(Machine(Empty, 0, 0, 0, "12"), '3')
            == Machine(Empty, 0, 0, 0, "123")
    ensures StepChar(Machine(Empty, 0, 0, 0, "123"), 'r')
            == Machine(Choseong, 0, 0, 0, "123")
  {
  }

  lemma StepsOfDigitsThenKeys3()
    ensures StepChar(Machine(Choseong, 0, 0, 0, "123"), 'k')
            == Machine(ChoseongJungseong, 0, 0, 0, "123")
    ensures StepChar(Machine(ChoseongJungseong, 0, 0, 0, "123"), 's')
            == Machine(ChoseongJungseongJongseong, 0, 0, 4, "123")
  {
  }

  lemma StepsOfDigitsThenKeys4()
    ensures StepChar(Machine(ChoseongJungseongJongseong, 0, 0, 4, "123"), 'k')
            == Machine(ChoseongJungseong, 2, 0, 0, "123가")
  {
  }

  lemma ReadsDigitsThenKeys1()
    ensures Run(Initial, "123r")
            == Machine(Choseong, 0, 0, 0, "123")
  {
    StepsOfDigitsThenKeys1();
    StepsOfDigitsThenKeys2();
    RunTrace([Initial,
              Machine(Empty, 0, 0, 0, "1"),
              Machine(Empty, 0, 0, 0, "12"),
              Machine(Empty, 0, 0, 0, "123"),
              Machine(Choseong, 0, 0, 0, "123")],
             "123r");
  }

  lemma ReadsDigitsThenKeys2()
    ensures Run(Machine(Choseong, 0, 0, 0, "123"), "ksk")
            == Machine(ChoseongJungseong, 2, 0, 0, "123가")
  {
    StepsOfDigitsThenKeys3();
    StepsOfDigitsThenKeys4();
    RunTrace([Machine(Choseong, 0, 0, 0, "123"),
              Machine(ChoseongJungseong, 0, 0, 0, "123"),
              Machine(ChoseongJungseongJongseong, 0, 0, 4, "123"),
              Machine(ChoseongJungseong, 2, 0, 0, "123가")],
             "ksk");
  }

  lemma KeysOfDigitsThenKeys()
    ensures "123rksk" == "123r" + "ksk"
  {
  }

  lemma ConvertsDigitsThenKeys()
    ensures Converted("123rksk") == "123가나"
  {
    ReadsDigitsThenKeys1();
    ReadsDigitsThenKeys2();
    KeysOfDigitsThenKeys();
    RunAppend(Initial, "123r", "ksk");
  }

  // "dkssudgktpdy": the machine after each key.
  lemma StepsOfDkssudgktpdy1()
    ensures StepChar(Initial, 'd')
            == Machine(Choseong, 11, 0, 0, "")
    ensures StepChar(Machine(Choseong, 11, 0, 0, ""), 'k')
            == Machine(ChoseongJungseong, 11, 0, 0, "")
  {
  }

  lemma StepsOfDkssudgktpdy2()
    ensures StepChar(Machine(ChoseongJungseong, 11, 0, 0, ""), 's')
            == Machine(ChoseongJungseongJongseong, 11, 0, 4, "")
    ensures StepChar(Machine(ChoseongJungseongJongseong, 11, 0, 4, ""), 's')
            == Machine(Choseong, 2, 0, 0, "안")
  {
  }

  lemma StepsOfDkssudgktpdy3()
    ensures StepChar(Machine(Choseong, 2, 0, 0, "안"), 'u')
            == Machine(ChoseongJungseong, 2, 6, 0, "안")
    ensures StepChar(Machine(ChoseongJungseong, 2, 6, 0, "안"), 'd')
            == Machine(ChoseongJungseongJongseong, 2, 6, 21, "안")
  {
  }

  lemma StepsOfDkssudgktpdy4()
    ensures StepChar(Machine(ChoseongJungseongJongseong, 2, 6, 21, "안"), 'g')
            == Machine(Choseong, 18, 0, 0, "안녕")
    ensures StepChar(Machine(Choseong, 18, 0, 0, "안녕"), 'k')
            == Machine(ChoseongJungseong, 18, 0, 0, "안녕")
  {
  }

  lemma StepsOfDkssudgktpdy5()
    ensures StepChar(Machine(ChoseongJungseong, 18, 0, 0, "안녕"), 't')
            == Machine(ChoseongJungseongJongseong, 18, 0, 19, "안녕")
    ensures StepChar(Machine(ChoseongJungseongJongseong, 18, 0, 19, "안녕"), 'p')
            == Machine(ChoseongJungseong, 9, 5, 0, "안녕하")
  {
  }

  lemma StepsOfDkssudgktpdy6()
    ensures StepChar(Machine(ChoseongJungseong, 9, 5, 0, "안녕하"), 'd')
            == Machine(ChoseongJungseongJongseong, 9, 5, 21, "안녕하")
    ensures StepChar(Machine(ChoseongJungseongJongseong, 9, 5, 21, "안녕하"), 'y')
            == Machine(ChoseongJungseong, 11, 12, 0, "안녕하세")
  {
  }

  lemma ReadsDkssudgktpdy1()
    ensures Run(Initial, "dkssud")
            == Machine(ChoseongJungseongJongseong, 2, 6, 21, "안")
  {
    StepsOfDkssudgktpdy1();
    StepsOfDkssudgktpdy2();
    StepsOfDkssudgktpdy3();
    RunTrace([Initial,
              Machine(Choseong, 11, 0, 0, ""),
              Machine(ChoseongJungseong, 11, 0, 0, ""),
              Machine(ChoseongJungseongJongseong, 11, 0, 4, ""),
              Machine(Choseong, 2, 0, 0, "안"),
              Machine(ChoseongJungseong, 2, 6, 0, "안"),
              Machine(ChoseongJungseongJongseong, 2, 6, 21, "안")],
             "dkssud");
  }

  lemma ReadsDkssudgktpdy2()
    ensures Run(Machine(ChoseongJungseongJongseong, 2, 6, 21, "안"), "gktpdy")
            == Machine(ChoseongJungseong, 11, 12, 0, "안녕하세")
  {
    StepsOfDkssudgktpdy4();
    StepsOfDkssudgktpdy5();
    StepsOfDkssudgktpdy6();
    RunTrace([Machine(ChoseongJungseongJongseong, 2, 6, 21, "안"),
              Machine(Choseong, 18, 0, 0, "안녕"),
              Machine(ChoseongJungseong, 18, 0, 0, "안녕"),
              Machine(ChoseongJungseongJongseong, 18, 0, 19, "안녕"),
              Machine(ChoseongJungseong, 9, 5, 0, "안녕하"),
              Machine(ChoseongJungseongJongseong, 9, 5, 21, "안녕하"),
              Machine(ChoseongJungseong, 11, 12, 0, "안녕하세")],
             "gktpdy");
  }

  lemma KeysOfDkssudgktpdy()
    ensures "dkssudgktpdy" == "dkssud" + "gktpdy"
  {
  }

  lemma ConvertsDkssudgktpdy()
    ensures Converted("dkssudgktpdy") == "안녕하세요"
  {
    ReadsDkssudgktpdy1();
    ReadsDkssudgktpdy2();
    KeysOfDkssudgktpdy();
    RunAppend(Initial, "dkssud", "gktpdy");
  }

  // "name": the machine after each key.
  lemma StepsOfName1()
    ensures StepChar(Initial, 'n')
            == Machine(Empty, 0, 0, 0, "ㅜ")
    ensures StepChar(Machine(Empty, 0, 0, 0, "ㅜ"), 'a')
            == Machine(Choseong, 6, 0, 0, "ㅜ")
  {
  }

  lemma StepsOfName2()
    ensures StepChar(Machine(Choseong, 6, 0, 0, "ㅜ"), 'm')
            == Machine(ChoseongJungseong, 6, 18, 0, "ㅜ")
    ensures StepChar(Machine(ChoseongJungseong, 6, 18, 0, "ㅜ"), 'e')
            == Machine(ChoseongJungseongJongseong, 6, 18, 7, "ㅜ")
  {
  }

  lemma ConvertsName()
    ensures Converted("name") == "ㅜ믇"
  {
    StepsOfName1();
    StepsOfName2();
    RunTrace([Initial,
              Machine(Empty, 0, 0, 0, "ㅜ"),
              Machine(Choseong, 6, 0, 0, "ㅜ"),
              Machine(ChoseongJungseong, 6, 18, 0, "ㅜ"),
              Machine(ChoseongJungseongJongseong, 6, 18, 7, "ㅜ")],
             "name");
  }

  // "virus": the machine after each key.
  lemma StepsOfVirus1()
    ensures StepChar(Initial, 'v')
            == Machine(Choseong, 17, 0, 0, "")
    ensures StepChar(Machine(Choseong, 17, 0, 0, ""), 'i')
            == Machine(ChoseongJungseong, 17, 2, 0, "")
  {
  }

  lemma StepsOfVirus2()
    ensures StepChar(Machine(ChoseongJungseong, 17, 2, 0, ""), 'r')
            == Machine(ChoseongJungseongJongseong, 17, 2, 1, "")
    ensures StepChar(Machine(ChoseongJungseongJongseong, 17, 2, 1, ""), 'u')
            == Machine(ChoseongJungseong, 0, 6, 0, "퍄")
  {
  }

  lemma StepsOfVirus3()
    ensures StepChar(Machine(ChoseongJungseong, 0, 6, 0, "퍄"), 's')
            == Machine(ChoseongJungseongJongseong, 0, 6, 4, "퍄")
  {
  }

  lemma ConvertsVirus()
    ensures Converted("virus") == "퍄견"
  {
    StepsOfVirus1();
    StepsOfVirus2();
    StepsOfVirus3();
    RunTrace([Initial,
              Machine(Choseong, 17, 0, 0, ""),
              Machine(ChoseongJungseong, 17, 2, 0, ""),
              Machine(ChoseongJungseongJongseong, 17, 2, 1, ""),
              Machine(ChoseongJungseong, 0, 6, 0, "퍄"),
              Machine(ChoseongJungseongJongseong, 0, 6, 4, "퍄")],
             "virus");
  }

  // "daisy": the machine after each key.
  lemma StepsOfDaisy1()
    ensures StepChar(Initial, 'd')
            == Machine(Choseong, 11, 0, 0, "")
    ensures StepChar(Machine(Choseong, 11, 0, 0, ""), 'a')
            == Machine(Choseong, 6, 0, 0, "ㅇ")
  {
  }

  lemma StepsOfDaisy2()
    ensures StepChar(Machine(Choseong, 6, 0, 0, "ㅇ"), 'i')
            == Machine(ChoseongJungseong, 6, 2, 0, "ㅇ")
    ensures StepChar(Machine(ChoseongJungseong, 6, 2, 0, "ㅇ"), 's')
            == Machine(ChoseongJungseongJongseong, 6, 2, 4, "ㅇ")
  {
  }

  lemma StepsOfDaisy3()
    ensures StepChar(Machine(ChoseongJungseongJongseong, 6, 2, 4, "ㅇ"), 'y')
            == Machine(ChoseongJungseong, 2, 12, 0, "ㅇ먀")
  {
  }

  lemma ConvertsDaisy()
    ensures Converted("daisy") == "ㅇ먀뇨"
  {
    StepsOfDaisy1();
    StepsOfDaisy2();
    StepsOfDaisy3();
    RunTrace([Initial,
              Machine(Choseong, 11, 0, 0, ""),
              Machine(Choseong, 6, 0, 0, "ㅇ"),
              Machine(ChoseongJungseong, 6, 2, 0, "ㅇ"),
              Machine(ChoseongJungseongJongseong, 6, 2, 4, "ㅇ"),
              Machine(ChoseongJungseong, 2, 12, 0, "ㅇ먀")],
             "daisy");
  }

  // "hello": the machine after each key.
  lemma StepsOfHello1()
    ensures StepChar(Initial, 'h')
            == Machine(Empty, 0, 0, 0, "ㅗ")
    ensures StepChar(Machine(Empty, 0, 0, 0, "ㅗ"), 'e')
            == Machine(Choseong, 3, 0, 0, "ㅗ")
  {
  }

  lemma StepsOfHello2()
    ensures StepChar(Machine(Choseong, 3, 0, 0, "ㅗ"), 'l')
            == Machine(ChoseongJungseong, 3, 20, 0, "ㅗ")
    ensures StepChar(Machine(ChoseongJungseong, 3, 20, 0, "ㅗ"), 'l')
            == Machine(Empty, 0, 0, 0, "ㅗ디ㅣ")
  {
  }

  lemma StepsOfHello3()
    ensures StepChar(Machine(Empty, 0, 0, 0, "ㅗ디ㅣ"), 'o')
            == Machine(Empty, 0, 0, 0, "ㅗ디ㅣㅐ")
  {
  }

  lemma ConvertsHello()
    ensures Converted("hello") == "ㅗ디ㅣㅐ"
  {
    StepsOfHello1();
    StepsOfHello2();
    StepsOfHello3();
    RunTrace([Initial,
              Machine(Empty, 0, 0, 0, "ㅗ"),
              Machine(Choseong, 3, 0, 0, "ㅗ"),
              Machine(ChoseongJungseong, 3, 20, 0, "ㅗ"),
              Machine(Empty, 0, 0, 0, "ㅗ디ㅣ"),
              Machine(Empty, 0, 0, 0, "ㅗ디ㅣㅐ")],
             "hello");
  }

  // "wifi": the machine after each key.
  lemma StepsOfWifi1()
    ensures StepChar(Initial, 'w')
            == Machine(Choseong, 12, 0, 0, "")
    ensures StepChar(Machine(Choseong, 12, 0, 0, ""), 'i')
            == Machine(ChoseongJungseong, 12, 2, 0, "")
  {
  }

  lemma StepsOfWifi2()
    ensures StepChar(Machine(ChoseongJungseong, 12, 2, 0, ""), 'f')
            == Machine(ChoseongJungseongJongseong, 12, 2, 8, "")
    ensures StepChar(Machine(ChoseongJungseongJongseong, 12, 2, 8, ""), 'i')
            == Machine(ChoseongJungseong, 5, 2, 0, "쟈")
  {
  }

  lemma ConvertsWifi()
    ensures Converted("wifi") == "쟈랴"
  {
    StepsOfWifi1();
    StepsOfWifi2();
    RunTrace([Initial,
              Machine(Choseong, 12, 0, 0, ""),
              Machine(ChoseongJungseong, 12, 2, 0, ""),
              Machine(ChoseongJungseongJongseong, 12, 2, 8, ""),
              Machine(ChoseongJungseong, 5, 2, 0, "쟈")],
             "wifi");
  }


  lemma ConvertsRkBangSk() ensures Converted("rk!sk") == "가!나" {
    ConvertsRk();
    ConvertsSk();
    ConvertSplitsAtUnmapped("rk", '!', "sk");
    assert "rk!sk" == "rk" + ['!'] + "sk";
  }

  lemma ConvertsRkSpaceSk() ensures Converted("rk sk") == "가 나" {
    ConvertsRk();
    ConvertsSk();
    ConvertSplitsAtUnmapped("rk", ' ', "sk");
    assert "rk sk" == "rk" + [' '] + "sk";
  }

  lemma ConvertsUnmappedLetter()
    ensures Converted("X") == "X"
  {
    ConvertUnmappedIdentity("X");
  }

  lemma ConvertsRkXSk() ensures Converted("rkXsk") == "가X나" {
    ConvertsRk();
    ConvertsSk();
    ConvertSplitsAtUnmapped("rk", 'X', "sk");
    assert "rkXsk" == "rk" + ['X'] + "sk";
  }

  lemma ConvertEmpty()
    ensures Converted("") == ""
  {
  }
}
