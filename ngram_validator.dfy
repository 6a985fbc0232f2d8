/**
 * The n-gram validator: decides whether Latin input typed with the Korean
 * layout in mind should become Hangul. The input is converted; an
 * unchanged conversion, a conversion with standalone jamo or with an
 * unnatural syllable structure is refused; when a model is loaded its
 * score must also reach the configured threshold.
 */
module NgramValidator {
  import opened Wrappers
  import opened NgramConfig
  import opened NgramModel
  import Converter
  import Validator
  import SyllableValidator
  import Keymap
  import Fsm

  datatype KoreanValidator = KoreanValidator(model: Option<NgramModel>, config: NgramConfig)

  /** Everything `analyze` reports about one input. */
  datatype ValidationResult = ValidationResult(
    original: string,
    converted: string,
    hasIncompleteJamo: bool,
    hasUnnaturalSyllables: bool,
    ngramScore: Option<LogScore>,
    shouldConvert: bool)

  /** A validator without a model and with the default settings. */
  function New(): (r: KoreanValidator)
    ensures r.model.None? && r.config == Default()
  {
    KoreanValidator(None, Default())
  }

  function WithModel(model: NgramModel, config: NgramConfig): (r: KoreanValidator)
    ensures r.model == Some(model) && r.config == config
  {
    KoreanValidator(Some(model), config)
  }

  function WithConfig(config: NgramConfig): (r: KoreanValidator)
    ensures r.model.None? && r.config == config
  {
    KoreanValidator(None, config)
  }

  /** Scoring is only asked of a loaded model under settings with a positive smoothing denominator. */
  predicate Scorable(v: KoreanValidator) {
    v.model.Some? ==> Smoothing(v.config)
  }

  /** The model's score of `text`, or nothing without a model. */
  function Score(v: KoreanValidator, text: string, ln: real -> real): (r: Option<LogScore>)
    requires Scorable(v)
    ensures r.None? <==> v.model.None?
    ensures r.Some? ==> r.value == TextScore(v.model.value, text, v.config, ln)
  {
    match v.model
    case None => None
    case Some(m) => Some(TextScore(m, text, v.config, ln))
  }

  function Threshold(v: KoreanValidator): real {
    v.config.threshold
  }

  predicate HasModel(v: KoreanValidator) {
    v.model.Some?
  }

  /** The pipeline: refuse empty input, an unchanged conversion, standalone jamo, an unnatural structure, then a low score. */
  predicate ShouldConvertToKorean(v: KoreanValidator, input: string, ln: real -> real)
    requires Scorable(v)
  {
    if input == [] then false
    else
      var converted := Converter.Converted(input);
      if converted == input then false
      else if Validator.ContainsJamo(converted) then false
      else if !SyllableValidator.NaturalStructure(converted) then false
      else if v.model.Some? then AtLeast(TextScore(v.model.value, converted, v.config, ln), v.config.threshold)
      else true
  }

  /** Converts once and reports every stage, with the verdict as one conjunction. */
  function Analyze(v: KoreanValidator, input: string, ln: real -> real): (r: ValidationResult)
    requires Scorable(v)
    ensures r.original == input && r.converted == Converter.Converted(input)
    ensures r.hasIncompleteJamo <==> Validator.ContainsJamo(r.converted)
    ensures r.hasUnnaturalSyllables <==> !SyllableValidator.NaturalStructure(r.converted)
    ensures r.ngramScore.None? <==> !HasModel(v)
    ensures r.ngramScore == Score(v, r.converted, ln)
    ensures r.shouldConvert == ShouldConvertToKorean(v, input, ln)
  {
    var converted := Converter.Converted(input);
    var hasJamo := Validator.ContainsJamo(converted);
    var syllableValid := SyllableValidator.NaturalStructure(converted);
    var score := Score(v, converted, ln);
    var shouldConvert := !hasJamo && converted != input && syllableValid
                         && (score.None? || AtLeast(score.value, v.config.threshold));
    ValidationResult(input, converted, hasJamo, !syllableValid, score, shouldConvert)
  }

  /** Acceptance is the conjunction of the stages, in the order the pipeline checks them. */
  lemma ShouldConvertIff(v: KoreanValidator, input: string, ln: real -> real)
    requires Scorable(v)
    ensures ShouldConvertToKorean(v, input, ln)
            <==> input != []
                 && Converter.Converted(input) != input
                 && !Validator.ContainsJamo(Converter.Converted(input))
                 && SyllableValidator.NaturalStructure(Converter.Converted(input))
                 && (HasModel(v) ==> AtLeast(TextScore(v.model.value, Converter.Converted(input), v.config, ln), Threshold(v)))
  {
  }

  /** A model only adds a gate: what a validator with a model accepts, the same settings without one accept too. */
  lemma ModelOnlyNarrows(m: NgramModel, cfg: NgramConfig, input: string, ln: real -> real)
    requires Smoothing(cfg)
    requires ShouldConvertToKorean(WithModel(m, cfg), input, ln)
    ensures ShouldConvertToKorean(WithConfig(cfg), input, ln)
  {
  }

  /** Without a model the threshold plays no part. */
  lemma NoModelIgnoresThreshold(cfg: NgramConfig, t: real, input: string, ln: real -> real)
    ensures ShouldConvertToKorean(WithConfig(cfg), input, ln) == ShouldConvertToKorean(WithConfig(WithThreshold(cfg, t)), input, ln)
  {
  }

  /** Lowering the threshold never turns an accepted input into a refused one. */
  lemma LowerThresholdAcceptsMore(m: NgramModel, cfg: NgramConfig, t: real, input: string, ln: real -> real)
    requires Smoothing(cfg) && t <= cfg.threshold
    requires ShouldConvertToKorean(WithModel(m, cfg), input, ln)
    ensures ShouldConvertToKorean(WithModel(m, WithThreshold(cfg, t)), input, ln)
  {
    ScoreUsesOnlySmoothing(m, Converter.Converted(input), cfg, WithThreshold(cfg, t), ln);
  }

  /** A single syllable under a model that saw nothing scores minus infinity, so it is always refused. */
  lemma UnseenSingleSyllableRefused(m: NgramModel, cfg: NgramConfig, input: string, ln: real -> real)
    requires Smoothing(cfg) && m.totalUnigrams == 0 && |Converter.Converted(input)| == 1
    ensures !ShouldConvertToKorean(WithModel(m, cfg), input, ln)
  {
  }

  /** Digits are not on the Korean layout, so they convert to themselves and are refused. */
  lemma DigitsRefused(ln: real -> real)
    ensures !ShouldConvertToKorean(New(), "12345", ln)
  {
    Converter.ConvertUnmappedIdentity("12345");
  }

  lemma AnnyeongIsNatural()
    ensures SyllableValidator.NaturalStructure("안녕")
  {
    assert "안녕"[..1] == "안";
  }

  /** "dkssud" is 안녕, which every stage accepts when there is no model. */
  lemma AnnyeongAccepted(ln: real -> real)
    ensures ShouldConvertToKorean(New(), "dkssud", ln)
  {
    Keymap.KeysRoundTripExample();
    AnnyeongIsNatural();
    Validator.JamoExamples();
  }

  /** "name" is ㅜ믇, whose standalone ㅜ refuses it. */
  lemma NameRefused(ln: real -> real)
    ensures !ShouldConvertToKorean(New(), "name", ln)
    ensures Analyze(New(), "name", ln).hasIncompleteJamo
  {
    Converter.ConvertsName();
    Validator.JamoExamples();
  }

  lemma PyaGyeonIsUnnatural()
    ensures !SyllableValidator.NaturalStructure("퍄견")
  {
    assert "퍄견"[..1] == "퍄";
  }

  /** "virus" is 퍄견, one rare syllable of two, which the structure check refuses. */
  lemma VirusRefused(ln: real -> real)
    ensures !ShouldConvertToKorean(New(), "virus", ln)
    ensures Analyze(New(), "virus", ln).hasUnnaturalSyllables
  {
    Converter.ConvertsVirus();
    PyaGyeonIsUnnatural();
  }

  /** "daisy" is ㅇ먀뇨, refused for its standalone ㅇ before its structure is looked at. */
  lemma DaisyRefused(ln: real -> real)
    ensures !ShouldConvertToKorean(New(), "daisy", ln)
  {
    Converter.ConvertsDaisy();
    assert Validator.InJamoBlock("ㅇ먀뇨"[0]);
  }

  lemma HelloRefused(ln: real -> real)
    ensures !ShouldConvertToKorean(New(), "hello", ln)
  {
    Converter.ConvertsHello();
    assert Validator.InJamoBlock("ㅗ디ㅣㅐ"[0]);
  }
}
