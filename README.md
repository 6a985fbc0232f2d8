# Koing core in Dafny

Koing is a macOS input helper. It watches the keys typed while the English
layout is active, and when a word turns out to be Korean typed on the wrong
layout it replaces the word with its Hangul form. This project models the
core of that pipeline and proves properties of the model:

- Hangul composition: the Unicode syllable arithmetic (`Unicode`), the
  two-set (Dubeolsik) key layout (`JamoMapper`), the composition state
  machine (`Fsm`, with the class `Fsm.HangulFsm` over the machine's own
  fields) and whole-string conversion (`Converter`);
- the reverse mapping from Hangul back to the keys that type it (`Keymap`),
  with the round trip `Converted(EngOf(s)) == s` for every string of
  syllables and for every string with no layout key in it;
- detection of Korean typed on the English layout: the bigram tables and key
  classes (`Patterns`), the scoring detector (`AutoDetect`, with the class
  `AutoDetect.AutoDetector`) and the rule-based validator (`Validator`);
- the n-gram path: the configuration (`NgramConfig`), the model read from
  JSON and its scores (`NgramModel`), the syllable-structure filter
  (`SyllableValidator`) and the combined validator (`NgramValidator`);
- the n-gram trainer's counting and the JSON it writes (`Trainer`);
- from the platform layer, the key buffer and the keycode table of the event
  tap (`EventTap`, with the class `EventTap.KeyBuffer`) and the macOS
  version parsing (`OsVersion`).

Each loop of the source over its input text is a `method` proved against a
function that specifies it, and the pure callers of those loops use the
function. The loops of `has_english_pattern` over its fixed suffix and
prefix lists are the predicates `AutoDetect.HasEnglishSuffix` and
`AutoDetect.HasEnglishPrefix`. Floating
point values are `real`; the natural logarithm is a parameter (`ln`) of the
scoring functions, so the proofs hold for any such function. Strings are
`seq<char>`; where the source measures a `&str` in bytes, the model uses its
UTF-8 length (`Text.Utf8Len`).

## Model

| member | source | states |
|---|---|---|
| Unicode.OffsetBound | src/core/unicode.rs:17-25 | every in-range index triple gives an offset inside the 11172-syllable block |
| Unicode.ComposeSyllable | src/core/unicode.rs:17-25 | a syllable exists exactly when all three indices are in range, and it lies in the syllable block |
| Unicode.DecomposeSyllable | src/core/unicode.rs:29-39 | indices exist exactly for precomposed syllables and are always in range |
| Unicode.DecomposeCompose | src/core/unicode.rs:17-39 | decomposing a composed syllable gives back its three indices |
| Unicode.ComposeDecompose | src/core/unicode.rs:17-39 | composing the indices of any syllable gives back the syllable |
| Unicode.CombineJungseong | src/core/unicode.rs:43-62 | only compound vowels are produced |
| Unicode.CombineJungseongInjective | src/core/unicode.rs:43-62 | two different vowel pairs never combine into the same compound vowel |
| Unicode.CombineJongseong | src/core/unicode.rs:66-85 | only compound finals are produced, and only from a simple first final |
| Unicode.SplitJongseong | src/core/unicode.rs:90-107 | exactly the compound finals split, into a final in range and an initial in range |
| Unicode.JongseongToChoseong | src/core/unicode.rs:111-132 | exactly the simple, non-empty finals move to an initial, and the initial is in range |
| Unicode.SplitInvertsCombine | src/core/unicode.rs:66-132 | splitting a combined final gives back the first final and the initial of the second |
| Unicode.CombineCoversSplit | src/core/unicode.rs:66-132 | every compound final is the combination of the parts it splits into |
| Unicode.FinalsPartitioned | src/core/unicode.rs:90-132 | every real final is handled by exactly one of split and move-to-initial |
| Unicode.ChoseongToJamoChar | src/core/unicode.rs:135-164 | a glyph exists exactly for the 19 initials, inside U+3131..U+314E |
| Unicode.ChoseongJamoInjective | src/core/unicode.rs:135-164 | different initials have different glyphs |
| Unicode.JungseongToJamoChar | src/core/unicode.rs:167-197 | a glyph exists exactly for the 21 vowels, at U+314F plus the index |
| Unicode.JamoGlyphsAreCompat | src/core/unicode.rs:135-197 | every lone-jamo glyph is a compatibility jamo |
| JamoMapper.Jamo.ChoseongIndex | src/core/jamo_mapper.rs:17-22 | an initial index exists exactly for consonants and is the consonant's own |
| JamoMapper.Jamo.JungseongIndex | src/core/jamo_mapper.rs:25-30 | a vowel index exists exactly for vowels and is the vowel's own |
| JamoMapper.Jamo.JongseongIndex | src/core/jamo_mapper.rs:33-38 | a final index exists exactly for consonants that can be finals |
| JamoMapper.Jamo.IsConsonant | src/core/jamo_mapper.rs:41-43 | a jamo is a consonant exactly when it has an initial index |
| JamoMapper.Jamo.IsVowel | src/core/jamo_mapper.rs:46-48 | a jamo is a vowel exactly when it has a vowel index |
| JamoMapper.MapToJamo | src/core/jamo_mapper.rs:53-164 | every mapped key gives a well-formed jamo (indices in range, a final only where one exists) |
| JamoMapper.ConsonantChars | src/core/jamo_mapper.rs:167-169 | the consonant keys are exactly the 19 listed characters |
| JamoMapper.VowelChars | src/core/jamo_mapper.rs:172-174 | the vowel keys are exactly the 14 listed characters |
| JamoMapper.KeyClassesDisjoint | src/core/jamo_mapper.rs:167-174 | no key is both a consonant and a vowel; the mapped keys are exactly the union |
| JamoMapper.NoCompoundVowelKey | src/core/jamo_mapper.rs:53-164 | no single key types a compound vowel |
| JamoMapper.FinalMovesBackToSameInitial | src/core/jamo_mapper.rs:53-164 | a key's final is simple and moves back to the key's own initial |
| JamoMapper.MapToJamoInjective | src/core/jamo_mapper.rs:53-164 | two different keys never map to the same jamo |
| Fsm.PushSome | src/core/hangul_fsm.rs:178-190 | pushing an optional character appends it when present and leaves the output otherwise |
| Fsm.Flushed | src/core/hangul_fsm.rs:174-202 | flushing empties the state, keeps the invariant and appends the pending character |
| Fsm.ConsonantStep | src/core/hangul_fsm.rs:63-111 | output only grows, by at most one character; the invariant is kept; a new initial holds the consonant |
| Fsm.VowelStep | src/core/hangul_fsm.rs:114-171 | output only grows, by at most two characters; the invariant is kept; the state is empty or initial-plus-vowel |
| Fsm.FeedStep | src/core/hangul_fsm.rs:48-60 | output only grows and a well-formed jamo keeps the invariant |
| Fsm.PassthroughStep | src/core/hangul_fsm.rs:205-208 | the pending character, then the passed character, are appended and the state is empty |
| Fsm.Finished | src/core/hangul_fsm.rs:211-214 | the result is the output followed by the pending character, if any |
| Fsm.PendingDefined | src/core/hangul_fsm.rs:174-194 | under the invariant a character is pending exactly when the state is not empty, and a pending syllable decomposes to the machine's indices |
| Fsm.VowelAfterFinalStartsSyllable | src/core/hangul_fsm.rs:142-169 | a vowel after a final always splits or moves the final, starts a new initial-plus-vowel and emits exactly one character (the fallback branch is unreachable) |
| Fsm.PushSomeAfterPrefix | src/core/hangul_fsm.rs:178-190 | pushing does not depend on the output already written |
| Fsm.FlushIgnoresOutput | src/core/hangul_fsm.rs:174-194 | flushing does not depend on the output already written |
| Fsm.ConsonantIgnoresOutput | src/core/hangul_fsm.rs:63-111 | a consonant step does not depend on the output already written |
| Fsm.VowelIgnoresOutput | src/core/hangul_fsm.rs:114-171 | a vowel step does not depend on the output already written |
| Fsm.FeedIgnoresOutput | src/core/hangul_fsm.rs:48-60 | a feed step does not depend on the output already written |
| Fsm.PassthroughIgnoresOutput | src/core/hangul_fsm.rs:205-214 | passthrough and finishing do not depend on the output already written |
| Fsm.HangulFsm.constructor | src/core/hangul_fsm.rs:37-45 | a new machine is empty, with no output |
| Fsm.HangulFsm.Feed | src/core/hangul_fsm.rs:48-60 | the new fields are the feed step of the old ones, and a well-formed jamo keeps the invariant |
| Fsm.HangulFsm.FeedConsonant | src/core/hangul_fsm.rs:63-111 | the new fields are the consonant step of the old ones |
| Fsm.HangulFsm.FeedVowel | src/core/hangul_fsm.rs:114-171 | the new fields are the vowel step of the old ones |
| Fsm.HangulFsm.FlushCurrent | src/core/hangul_fsm.rs:174-194 | the new fields are the flush of the old ones |
| Fsm.HangulFsm.ResetState | src/core/hangul_fsm.rs:197-202 | state and indices are reset, the output is unchanged |
| Fsm.HangulFsm.FeedPassthrough | src/core/hangul_fsm.rs:205-208 | the new fields are the passthrough step of the old ones |
| Fsm.HangulFsm.Finish | src/core/hangul_fsm.rs:211-214 | returns the finished text of the old fields |
| Converter.StepChar | src/core/converter.rs:11-17 | one character only extends the output and keeps the invariant |
| Converter.Run | src/core/converter.rs:11-17 | reading a string only extends the output and keeps the invariant |
| Converter.RunAppend | src/core/converter.rs:11-17 | reading `a + b` is reading `a`, then `b` |
| Converter.RunSnoc | src/core/converter.rs:11-17 | reading one more character is one more step |
| Converter.RunIgnoresOutput | src/core/converter.rs:11-17 | earlier output never changes how later input is read |
| Converter.Convert | src/core/converter.rs:8-20 | the loop over a fresh machine returns the converted text |
| Converter.RunKeepsInvariant | src/core/converter.rs:8-20 | every input leaves the machine consistent |
| Converter.ConvertSplitsAtUnmapped | src/core/converter.rs:8-20 | a character outside the layout cuts the input: both sides convert independently and the character stays between them |
| Converter.ConvertUnmappedIdentity | src/core/converter.rs:8-20 | text with no layout key is returned unchanged |
| Converter.FinishedInPieces | src/core/converter.rs:8-20 | a long input can be evaluated from an intermediate machine |
| Converter.RunTrace | src/core/converter.rs:11-17 | a chain of single steps is the run over the whole string |
| Converter.ConvertsRk | src/core/hangul_fsm.rs:241-245 | "rk" converts to 가 |
| Converter.ConvertsSk | src/core/hangul_fsm.rs:241-245 | "sk" converts to 나 |
| Converter.ConvertsEk | src/core/hangul_fsm.rs:241-245 | "ek" converts to 다 |
| Converter.ConvertsRkr | src/core/hangul_fsm.rs:248-252 | "rkr" converts to 각 |
| Converter.ConvertsRks | src/core/hangul_fsm.rs:248-252 | "rks" converts to 간 |
| Converter.ConvertsGks | src/core/hangul_fsm.rs:248-252 | "gks" converts to 한 |
| Converter.ConvertsRksk | src/core/hangul_fsm.rs:255-258 | "rksk" converts to 가나: the final moves to the next syllable |
| Converter.ConvertsDkswl | src/core/converter.rs:33-36 | "dkswl" converts to 안지 |
| Converter.ConvertsDhk | src/core/hangul_fsm.rs:261-265 | "dhk" converts to 와 |
| Converter.ConvertsDnj | src/core/hangul_fsm.rs:261-265 | "dnj" converts to 워 |
| Converter.ConvertsDml | src/core/hangul_fsm.rs:261-265 | "dml" converts to 의 |
| Converter.ConvertsDkfr | src/core/hangul_fsm.rs:268-272 | "dkfr" converts to 앍 |
| Converter.ConvertsDlfr | src/core/converter.rs:44-46 | "dlfr" converts to 읽 |
| Converter.ConvertsRRk | src/core/converter.rs:49-52 | "Rk" converts to 까 |
| Converter.ConvertsTTks | src/core/converter.rs:49-52 | "Tks" converts to 싼 |
| Converter.ConvertsR | src/core/hangul_fsm.rs:288-291 | a lone consonant key gives its jamo |
| Converter.ConvertsRs | src/core/hangul_fsm.rs:288-291 | two consonant keys give two jamo |
| Converter.ConvertsK | src/core/hangul_fsm.rs:294-297 | a lone vowel key gives its jamo |
| Converter.ConvertsKh | src/core/hangul_fsm.rs:294-297 | two vowels that do not combine give two jamo |
| Converter.ConvertsRkskek | src/core/converter.rs:27-30 | "rkskek" converts to 가나다 |
| Converter.ConvertsDkssudgktpdy | src/core/converter.rs:27-30 | "dkssudgktpdy" converts to 안녕하세요 |
| Converter.ConvertsGksrmf | src/core/converter.rs:33-36 | "gksrmf" converts to 한글 |
| Converter.ConvertsDhksfy | src/core/converter.rs:39-41 | "dhksfy" converts to 완료 |
| Converter.ConvertsRkrkrl | src/core/converter.rs:73-76 | "rkrkrl" converts to 가가기 |
| Converter.ConvertsDigits | src/core/hangul_fsm.rs:281-285 | digits pass through |
| Converter.ConvertsDigitsThenKeys | src/core/converter.rs:55-58 | "123rksk" converts to 123가나 |
| Converter.ConvertsRkBangSk | src/core/converter.rs:55-58 | "rk!sk" converts to 가!나 |
| Converter.ConvertsRkSpaceSk | src/core/hangul_fsm.rs:281-285 | "rk sk" converts to 가 나 |
| Converter.ConvertsUnmappedLetter | src/core/converter.rs:61-65 | an unmapped capital passes through |
| Converter.ConvertsRkXSk | src/core/converter.rs:61-65 | "rkXsk" converts to 가X나 |
| Converter.ConvertEmpty | src/core/converter.rs:67-70 | the empty string converts to itself |
| Converter.ConvertsName | src/ngram/validator.rs:195 | "name" converts to ㅜ믇 |
| Converter.ConvertsHello | src/ngram/validator.rs:196 | "hello" converts to ㅗ디ㅣㅐ |
| Converter.ConvertsVirus | src/ngram/validator.rs:317-318 | "virus" converts to 퍄견 |
| Converter.ConvertsDaisy | src/ngram/validator.rs:314-315 | "daisy" converts to ㅇ먀뇨 |
| Converter.ConvertsWifi | src/ngram/syllable_validator.rs:203 | "wifi" converts to 쟈랴 |
| Converter.Converted | src/core/converter.rs:8-20 | the text the machine emits over the keys, flushed at the end; `ConvertSplitsAtUnmapped`, `ConvertUnmappedIdentity` and the example lemmas characterise it |
| Keymap.ChoseongToEng | src/ngram/keymap.rs:39-64 | a key exists exactly for the 19 initials |
| Keymap.ChoseongKeyTypesInitial | src/ngram/keymap.rs:39-64 | the key of an initial types that same initial |
| Keymap.JungseongToEng | src/ngram/keymap.rs:67-122 | compound vowels take two keys, other vowels one, out-of-range indices none |
| Keymap.JungseongKeysTypeVowel | src/ngram/keymap.rs:67-122 | the keys of a vowel type that vowel: one key for a simple vowel, two keys that combine into it for a compound vowel |
| Keymap.SimpleVowelKeys | src/ngram/keymap.rs:67-122 | the same, for the first nine vowels |
| Keymap.LaterVowelKeys | src/ngram/keymap.rs:67-122 | the same, for the remaining twelve vowels |
| Keymap.JongseongToEng | src/ngram/keymap.rs:125-204 | compound finals take two keys, other finals one, no final and out-of-range indices none |
| Keymap.JongseongKeysTypeFinal | src/ngram/keymap.rs:125-204 | the keys of a final type that final: one key for a simple final, two keys that combine into it for a compound final |
| Keymap.SyllableKeys | src/ngram/keymap.rs:19-31 | a non-syllable is kept as it is; a syllable takes two to five keys |
| Keymap.SyllableKeysParts | src/ngram/keymap.rs:19-31 | a syllable's keys are its initial key, its first vowel key, then the rest of its vowel and its final |
| Keymap.EngOf | src/ngram/keymap.rs:16-36 | the keys are never shorter than the text |
| Keymap.EngOfAppend | src/ngram/keymap.rs:16-36 | the keys of `a + b` are the keys of `a` followed by the keys of `b` |
| Keymap.EngOfPrefixSnoc | src/ngram/keymap.rs:18-33 | one more character appends its own keys |
| Keymap.EngOfSnoc | src/ngram/keymap.rs:18-33 | one more character appends its own keys |
| Keymap.KoreanToEng | src/ngram/keymap.rs:16-36 | the loop returns the keys of the whole input |
| Keymap.RunOne | src/core/converter.rs:11-17 | reading one key is one step |
| Keymap.RunTwo | src/core/converter.rs:11-17 | reading two keys is two steps |
| Keymap.RunKeys | src/core/converter.rs:11-17 | reading up to two keys, step by step |
| Keymap.FinishHolding | src/core/hangul_fsm.rs:211-214 | finishing a machine that holds a syllable appends that syllable |
| Keymap.InitialThenVowel | src/ngram/keymap.rs:19-26 | the initial key and the first vowel key, after any held syllable, flush it and hold initial-plus-vowel |
| Keymap.RestOfSyllable | src/ngram/keymap.rs:24-28 | the rest of the vowel and the final complete exactly the syllable |
| Keymap.FirstVowelKey | src/ngram/keymap.rs:67-122 | the first key of a vowel types a simple vowel with the same first key |
| Keymap.ReadSyllable | src/ngram/keymap.rs:19-28 | the keys of a syllable, after any held syllable, leave the machine holding exactly that syllable |
| Keymap.ReadNextSyllable | src/ngram/keymap.rs:16-36 | one more syllable's keys hold the new syllable and emit the previous one |
| Keymap.ReadFirstSyllable | src/ngram/keymap.rs:16-36 | the first syllable's keys hold that syllable |
| Keymap.ReadSyllables | src/ngram/keymap.rs:16-36 | the keys of a syllable string hold its last syllable with all earlier ones emitted |
| Keymap.SyllablesRoundTrip | src/ngram/keymap.rs:268-277 | converting the keys of any string of syllables gives the string back |
| Keymap.TextRoundTrip | src/ngram/keymap.rs:268-277 | converting the keys of any string without layout keys gives the string back |
| Keymap.EngOfGa | src/ngram/keymap.rs:211-216 | 가 is typed "rk" |
| Keymap.EngOfNa | src/ngram/keymap.rs:211-216 | 나 is typed "sk" |
| Keymap.EngOfDa | src/ngram/keymap.rs:211-216 | 다 is typed "ek" |
| Keymap.EngOfRa | src/ngram/keymap.rs:211-216 | 라 is typed "fk" |
| Keymap.EngOfGak | src/ngram/keymap.rs:219-223 | 각 is typed "rkr" |
| Keymap.EngOfHan | src/ngram/keymap.rs:219-223 | 한 is typed "gks" |
| Keymap.EngOfGeul | src/ngram/keymap.rs:219-223 | 글 is typed "rmf" |
| Keymap.EngOfAn | src/ngram/keymap.rs:226-230 | 안 is typed "dks" |
| Keymap.EngOfNyeong | src/ngram/keymap.rs:226-230 | 녕 is typed "sud" |
| Keymap.EngOfAnnyeong | src/ngram/keymap.rs:226-230 | 안녕 is typed "dkssud" |
| Keymap.EngOfHangeul | src/ngram/keymap.rs:226-230 | 한글 is typed "gksrmf" |
| Keymap.EngOfGanada | src/ngram/keymap.rs:226-230 | 가나다 is typed "rkskek" |
| Keymap.EngOfWan | src/ngram/keymap.rs:233-238 | 완 is typed "dhks" |
| Keymap.EngOfWen | src/ngram/keymap.rs:233-238 | 웬 is typed "dnps" |
| Keymap.EngOfUi | src/ngram/keymap.rs:233-238 | 의 is typed "dml" |
| Keymap.EngOfWon | src/ngram/keymap.rs:233-238 | 원 is typed "dnjs" |
| Keymap.EngOfIlk | src/ngram/keymap.rs:241-245 | 읽 is typed "dlfr" |
| Keymap.EngOfEops | src/ngram/keymap.rs:241-245 | 없 is typed "djqt" |
| Keymap.EngOfSalm | src/ngram/keymap.rs:241-245 | 삶 is typed "tkfa" |
| Keymap.EngOfKka | src/ngram/keymap.rs:248-252 | 까 is typed "Rk" |
| Keymap.EngOfSsa | src/ngram/keymap.rs:248-252 | 싸 is typed "Tk" |
| Keymap.EngOfPpa | src/ngram/keymap.rs:248-252 | 빠 is typed "Qk" |
| Keymap.EngOfMixedText | src/ngram/keymap.rs:255-258 | "가1나" is typed "rk1sk" |
| Keymap.EngOfWithPunctuation | src/ngram/keymap.rs:255-258 | "안녕!" is typed "dkssud!" |
| Keymap.EngOfNonHangul | src/ngram/keymap.rs:261-265 | text without syllables is kept, the empty string included |
| Keymap.KeysRoundTripExample | src/ngram/keymap.rs:268-277 | "dkssud" converts to 안녕 and 안녕 is typed "dkssud" |
| Patterns.ConsonantKeyChars | src/detection/patterns.rs:108-123 | the consonant key list holds exactly the 19 listed characters |
| Patterns.VowelKeyChars | src/detection/patterns.rs:126-141 | the vowel key list holds exactly the 14 listed characters |
| Patterns.ConsonantKeysMatchLayout | src/detection/patterns.rs:108-146 | a key is in the consonant list exactly when the layout maps it to a consonant |
| Patterns.VowelKeysMatchLayout | src/detection/patterns.rs:126-151 | a key is in the vowel list exactly when the layout maps it to a vowel |
| Patterns.KeyListSizes | src/detection/patterns.rs:108-141 | 19 consonant keys and 14 vowel keys, and no key is in both lists |
| Patterns.RowShape | src/detection/patterns.rs:10-55 | entry `j` of row `i` of the Hangul bigram table is consonant `j` followed by vowel `i` |
| Patterns.HangulBigramShape | src/detection/patterns.rs:10-55 | a string is a Hangul bigram exactly when it is one of the 14 consonant keys followed by one of the 10 vowel keys |
| Patterns.InBigramConsonants | src/detection/patterns.rs:10-55 | the table's consonants are the 14 lower-case consonant keys |
| Patterns.InBigramVowels | src/detection/patterns.rs:10-55 | the table's vowels are the 10 listed vowel keys |
| Patterns.HangulBigramChars | src/detection/patterns.rs:10-55 | a two-character string is a Hangul bigram exactly when its characters are in the two listed sets |
| Patterns.ConsonantVowelRun | src/core/converter.rs:8-20 | a consonant key then a vowel key hold initial-plus-vowel with the keys' indices |
| Patterns.HangulBigramTypesSyllable | src/detection/patterns.rs:10-55 | every Hangul bigram is a consonant key then a vowel key, and converts to one precomposed syllable |
| Patterns.SharedBigrams | src/detection/patterns.rs:10-71 | exactly eight bigrams are in both tables: th an en ti al ri ch si |
| Patterns.HangulBigramExamples | src/detection/patterns.rs:157-164 | "rk", "gk" and "th" are Hangul bigrams |
| Patterns.EnglishBigramExamples | src/detection/patterns.rs:166-171 | "th" and "er" are English bigrams, "rk" is not |
| Patterns.IsConsonantKey | src/detection/patterns.rs:144-146 | membership in the consonant key list; `ConsonantKeyChars` lists it and `ConsonantKeysMatchLayout` ties it to the keyboard layout |
| Patterns.IsVowelKey | src/detection/patterns.rs:149-151 | membership in the vowel key list; `VowelKeyChars` lists it and `VowelKeysMatchLayout` ties it to the keyboard layout |
| Patterns.IsEnglishBigram | src/detection/patterns.rs:58-71 | membership in the fifty English bigrams; `EnglishBigramPair` decides it letter by letter and `SharedBigrams` names the eight that are also Hangul bigrams |
| Patterns.EnglishBigramPair | src/detection/patterns.rs:58-71 | a string is an English bigram exactly when it is two letters the per-letter grouping lists |
| AutoDetect.KeyLikeChars | src/detection/auto_detect.rs:186-191 | a character counts as a consonant (a vowel), itself or upper-cased, exactly when it is one of the listed keys |
| AutoDetect.ConsonantNotVowel | src/detection/auto_detect.rs:186-191 | no character counts as both a consonant and a vowel |
| AutoDetect.ConsonantCount | src/detection/auto_detect.rs:182-192 | the consonants are at most all the characters |
| AutoDetect.VowelCount | src/detection/auto_detect.rs:182-192 | consonants and vowels together are at most all the characters |
| AutoDetect.BigramTally | src/detection/auto_detect.rs:216-240 | fewer than two characters give no bigram; otherwise the three tallies add up to at most the number of windows |
| AutoDetect.BigramTallyByKeys | src/detection/auto_detect.rs:216-240 | looking each pair up in the two bigram tables and classifying it by its two keys give the same tally |
| AutoDetect.LastKeyKind | src/detection/auto_detect.rs:272-289 | a last key kind exists only for a non-empty text |
| AutoDetect.Alternations | src/detection/auto_detect.rs:271-290 | there are at most as many alternations as neighbouring pairs |
| AutoDetect.AlternationShare | src/detection/auto_detect.rs:292-298 | the alternation score lies in [0, 30] |
| AutoDetect.AlternationStep | src/detection/auto_detect.rs:274-290 | one more character adds one alternation exactly when it alternates with the last key kind, and updates that kind |
| AutoDetect.AlternationScore | src/detection/auto_detect.rs:266-299 | the alternation score lies in [0, 30] |
| AutoDetect.TrailingVowels | src/detection/auto_detect.rs:305-317 | the current vowel run is at most the whole text |
| AutoDetect.MaxVowelRun | src/detection/auto_detect.rs:305-317 | the longest vowel run is at least the current one and at most the whole text |
| AutoDetect.RunEndsWithin | src/detection/auto_detect.rs:305-317 | a run of vowels ending at `j` is at most the current run at `j` |
| AutoDetect.MaxVowelRunBoundsRuns | src/detection/auto_detect.rs:305-317 | every run of vowels anywhere is at most the longest run |
| AutoDetect.TrailingRunIsVowels | src/detection/auto_detect.rs:305-317 | the characters of the current run are all vowels |
| AutoDetect.MaxVowelRunAttained | src/detection/auto_detect.rs:305-317 | the longest run is the length of a run that occurs in the text |
| AutoDetect.RawBigramScoreInRange | src/detection/auto_detect.rs:242-261 | the bigram score lies in [0, 40] even before clamping |
| AutoDetect.ShareAtMostOne | src/detection/auto_detect.rs:246-249 | a count over a larger total is a ratio in [0, 1] |
| AutoDetect.ScoreParts | src/detection/auto_detect.rs:194-211 | the consonant-vowel score is one of 0, 10, 20, 30 |
| AutoDetect.ConfidenceBounds | src/detection/auto_detect.rs:155-178 | the confidence lies in [0, 100], and is 0 for the empty buffer |
| AutoDetect.AutoDetector.constructor | src/detection/auto_detect.rs:43-48 | a new detector has the given configuration and word list and is enabled |
| AutoDetect.AutoDetector.WithDefaults | src/detection/auto_detect.rs:23-31 | a default detector has the default configuration and is enabled |
| AutoDetect.AutoDetector.SetEnabled | src/detection/auto_detect.rs:56-58 | the enabled flag is set and nothing else changes |
| AutoDetect.AutoDetector.ShouldConvert | src/detection/auto_detect.rs:66-96 | true exactly when the buffer passes every gate at the normal threshold |
| AutoDetect.AutoDetector.ShouldConvertRealtime | src/detection/auto_detect.rs:116-147 | true exactly when the buffer passes every gate at the realtime threshold |
| AutoDetect.AutoDetector.Decide | src/detection/auto_detect.rs:66-96 | the gates in the source's order: enabled, length in bytes, listed word, pattern below 90, threshold raised by 10 for four bytes or less |
| AutoDetect.AutoDetector.IsValidConversion | src/detection/auto_detect.rs:100-112 | valid exactly when the result is non-empty and under half of it is lone jamo |
| AutoDetect.AutoDetector.GetConfidence | src/detection/auto_detect.rs:155-178 | returns the confidence of the buffer |
| AutoDetect.AutoDetector.CalculateCvRatioScore | src/detection/auto_detect.rs:182-212 | the counting loop returns the consonant-vowel score |
| AutoDetect.AutoDetector.CalculateBigramScore | src/detection/auto_detect.rs:216-262 | the window loop returns the bigram score |
| AutoDetect.AutoDetector.CalculateAlternationScore | src/detection/auto_detect.rs:266-299 | the alternation loop returns the alternation score |
| AutoDetect.AutoDetector.CountAlternations | src/detection/auto_detect.rs:271-290 | the loop counts exactly the keys that switch between consonant and vowel, measured against the last consonant or vowel key |
| AutoDetect.AutoDetector.CalculateConsecutiveVowelPenalty | src/detection/auto_detect.rs:304-326 | the run loop returns the penalty of the longest vowel run |
| AutoDetect.DisabledRejects | src/detection/auto_detect.rs:66-69 | a disabled detector converts nothing |
| AutoDetect.AcceptedGates | src/detection/auto_detect.rs:66-96 | an accepted buffer is long enough, not a listed word, clears 90 when it looks English, and clears the (raised) threshold |
| AutoDetect.RealtimeImpliesNormal | src/detection/auto_detect.rs:116-147 | with a realtime threshold at least the normal one, a realtime conversion is also a normal one |
| AutoDetect.ThresholdOutOfReach | src/detection/auto_detect.rs:139-146 | a threshold above 100, or above 90 for a buffer of four bytes or less, is never reached |
| AutoDetect.ShiftedKeyLooksLikeCamelCase | src/detection/auto_detect.rs:347-354 | a shifted key (R E Q T W O P) after a lower-case first key makes the buffer look English |
| AutoDetect.AbbreviationExample | src/detection/auto_detect.rs:518-524 | "PDF" looks English |
| AutoDetect.CamelCaseExample | src/detection/auto_detect.rs:527-532 | "onClick" looks English |
| AutoDetect.SuffixExample | src/detection/auto_detect.rs:535-541 | "function" looks English |
| AutoDetect.PrefixExample | src/detection/auto_detect.rs:544-550 | "unable" looks English |
| AutoDetect.HasEnglishPattern | src/detection/auto_detect.rs:340-377 | an abbreviation, camelCase, or a lowercase form with a listed suffix or prefix; the example lemmas show each kind and `KoreanWordsHaveNoEnglishPattern` shows the Korean words have none |
| AutoDetect.Confidence | src/detection/auto_detect.rs:155-178 | the three scores minus the penalty, floored at zero, zero for the empty buffer; `ConfidenceBounds` keeps it within 0 to 100 and the word lemmas give 82, 92 and 30 |
| AutoDetect.Accepts | src/detection/auto_detect.rs:66-147 | the gates of `should_convert` and `should_convert_realtime` against a threshold; `AcceptedGates`, `RealtimeImpliesNormal` and `DisabledRejects` state their consequences |
| AutoDetectExamples.ConfidenceRks | src/detection/auto_detect.rs:561-575 | "rks" scores 30 + 30 + 30 with no penalty: confidence 90 |
| AutoDetectExamples.ConfidenceYou | src/detection/auto_detect.rs:561-575 | "you" scores 0 + 10 + 0 with a 10 point penalty: confidence 0 |
| AutoDetectExamples.YouBelowRks | src/detection/auto_detect.rs:561-575 | three vowel keys in a row put "you" below "rks" |
| AutoDetectExamples.ShortBuffersRejected | src/detection/auto_detect.rs:383-387 | one or two keys, and the empty buffer, never convert under the default configuration |
| AutoDetectExamples.DkssudProfile | src/detection/auto_detect.rs:182-328 | the keys of 안녕 hold four consonants and two vowels, switch four times and never repeat a vowel key |
| AutoDetectExamples.GksrmfProfile | src/detection/auto_detect.rs:182-328 | the keys of 한글 hold four consonants and two vowels, switch four times and never repeat a vowel key |
| AutoDetectExamples.RkskekProfile | src/detection/auto_detect.rs:182-328 | the keys of 가나다 hold three consonants and three vowels and switch at every key |
| AutoDetectExamples.HelloProfile | src/detection/auto_detect.rs:182-328 | the keys of hello hold one consonant and four vowels, switch twice and end in three vowel keys |
| AutoDetectExamples.DkssudKeyTally | src/detection/auto_detect.rs:216-240 | two of the five pairs of 안녕's keys are Hangul bigrams and none is English |
| AutoDetectExamples.GksrmfKeyTally | src/detection/auto_detect.rs:216-240 | two of the five pairs of 한글's keys are Hangul bigrams and none is English |
| AutoDetectExamples.RkskekKeyTally | src/detection/auto_detect.rs:216-240 | three of the five pairs of 가나다's keys are Hangul bigrams and none is English |
| AutoDetectExamples.HelloKeyTally | src/detection/auto_detect.rs:216-240 | of the four pairs of hello, two are English only and one is a Hangul bigram |
| AutoDetectExamples.DkssudConfidence | src/detection/auto_detect.rs:155-178 | 안녕 typed on the English layout scores 82 |
| AutoDetectExamples.GksrmfConfidence | src/detection/auto_detect.rs:155-178 | 한글 typed on the English layout scores 82 |
| AutoDetectExamples.RkskekConfidence | src/detection/auto_detect.rs:155-178 | 가나다 typed on the English layout scores 92 |
| AutoDetectExamples.HelloConfidence | src/detection/auto_detect.rs:155-178 | hello scores 30 |
| AutoDetectExamples.KoreanWordsHaveNoEnglishPattern | src/detection/auto_detect.rs:553-557 | none of the three Korean words is an abbreviation, camelCase, or carries a listed suffix or prefix |
| AutoDetectExamples.KoreanWordsConvert | src/detection/auto_detect.rs:390-397 | an enabled default detector converts each of the three Korean words at both the word-end and the realtime threshold, unless the word is in its English word list |
| AutoDetectExamples.HelloNeverConverts | src/detection/auto_detect.rs:400-405 | hello is below both default thresholds, so it never converts, whatever the word list |
| AutoDetectExamples.DkssudAboveHello | src/detection/auto_detect.rs:416-428 | 안녕's keys score higher than hello |
| AutoDetectExamples.SourceKoreanWordsConvert | src/detection/auto_detect.rs:390-397 | "dkssud", "gksrmf" and "rkskek" convert at both thresholds, unless in the word list, and have no English pattern |
| AutoDetectExamples.SourceDkssudAboveHello | src/detection/auto_detect.rs:416-428 | get_confidence("dkssud") exceeds get_confidence("hello") |
| AutoDetectExamples.SourceHelloNeverConverts | src/detection/auto_detect.rs:456-460 | "hello" is refused by both decisions |
| Validator.IsCompleteHangul | src/detection/validator.rs:52-55 | a character is complete Hangul exactly when it is a precomposed syllable |
| Validator.HasIncompleteJamo | src/detection/validator.rs:9-18 | the loop finds a jamo exactly when the text contains a character in U+3131..U+318E |
| Validator.JamoCount | src/detection/validator.rs:23-36 | the jamo are at most all the characters |
| Validator.HangulCount | src/detection/validator.rs:23-36 | the Hangul characters include every jamo and are at most all the characters |
| Validator.JamoRatio | src/detection/validator.rs:22-43 | the ratio lies in [0, 1] |
| Validator.IncompleteJamoRatio | src/detection/validator.rs:22-43 | the counting loop returns the jamo ratio |
| Validator.HasExcessiveJamo | src/detection/validator.rs:47-49 | true exactly when the jamo ratio is at least one half |
| Validator.IsValidHangulResult | src/detection/validator.rs:61-83 | true exactly when the result is non-empty, has no jamo and holds only syllables and printable ASCII |
| Validator.HasAnyHangul | src/detection/validator.rs:86-88 | true exactly when some character is complete Hangul |
| Validator.AllowedIsPrintableAscii | src/detection/validator.rs:75 | alphanumeric, punctuation or space is exactly printable ASCII |
| Validator.JamoCheckImplied | src/detection/validator.rs:61-83 | the separate jamo check is implied by the character check: valid exactly when non-empty and every character is a syllable or allowed |
| Validator.JamoCountPositiveIffJamo | src/detection/validator.rs:9-36 | the jamo count is positive exactly when the text contains a jamo |
| Validator.RatioPositiveIffJamo | src/detection/validator.rs:9-43 | the ratio is positive exactly when the text contains a jamo |
| Validator.ExcessiveIffHalf | src/detection/validator.rs:22-49 | the ratio reaches one half exactly when twice the jamo count reaches the Hangul count |
| Validator.HalfOfCount | src/detection/validator.rs:47-49 | the half threshold stated on whole numbers |
| Validator.RatioOfCounts | src/detection/validator.rs:38-42 | a count over a positive total is non-negative, positive exactly for a positive count, and at most 1 when the count is at most the total |
| Validator.AllJamoIsExcessive | src/detection/validator.rs:22-43 | a text made only of jamo has ratio 1 |
| Validator.LoneConsonantIsFlagged | src/detection/validator.rs:61-70 | a lone consonant key converts to a jamo, which the validator rejects |
| Validator.JamoExamples | src/detection/validator.rs:95-112 | jamo are found in "ㅜ믇" and "안녕ㅎ" and not in "안녕" or "" |
| Validator.RatioAllJamo | src/detection/validator.rs:156-158 | "ㄱㅏㄴㅏ" has ratio 1 |
| Validator.RatioHalf | src/detection/validator.rs:160-161 | "ㅜ믇" has ratio one half |
| Validator.RatioNoJamo | src/detection/validator.rs:167-171 | "안녕" and "hello" have ratio 0 |
| Validator.ValidExamples | src/detection/validator.rs:127-141 | "안녕하세요!" and "한글 테스트" are valid; "ㄱㅏ" and "" are not |
| Validator.AnyHangulExamples | src/detection/validator.rs:144-153 | "hello 안녕" has Hangul; "ㄱㅏ" and "123" do not |
| SyllableValidator.SyllableCount | src/ngram/syllable_validator.rs:94-96 | the syllables are at most all the characters |
| SyllableValidator.RareCount | src/ngram/syllable_validator.rs:95-98 | the rare syllables are at most all the syllables |
| SyllableValidator.TransitionCount | src/ngram/syllable_validator.rs:107-113 | the rare transitions are fewer than the characters, or none |
| SyllableValidator.CheckSyllableStructure | src/ngram/syllable_validator.rs:87-136 | the single scan, with its early return at the second rare syllable in a row, answers exactly whether the structure is natural |
| SyllableValidator.CountsStep | src/ngram/syllable_validator.rs:94-119 | one more character updates the three counts as the loop body does |
| SyllableValidator.SyllableStep | src/ngram/syllable_validator.rs:95-113 | rareness of a character and of a step, in terms of the decomposed indices |
| SyllableValidator.AdjacentRareExtends | src/ngram/syllable_validator.rs:99-102 | two rare syllables in a row anywhere make the text unnatural |
| SyllableValidator.NoAdjacentRareExtends | src/ngram/syllable_validator.rs:97-105 | a prefix without a rare pair grows by one character without one unless its last two characters are rare |
| SyllableValidator.RareRatioIffHalf | src/ngram/syllable_validator.rs:121-123 | the ratio test is the same as twice the rare count reaching the syllable count |
| SyllableValidator.RareOnsetVowels | src/ngram/syllable_validator.rs:14-42 | only the vowels ㅑ ㅒ ㅖ ㅙ ㅛ ㅞ ㅠ ㅢ make an onset rare |
| SyllableValidator.SilentInitialNeverRare | src/ngram/syllable_validator.rs:14-42 | no syllable with the silent initial ㅇ is rare |
| SyllableValidator.RareTransitionShape | src/ngram/syllable_validator.rs:51-81 | only the listed finals start a rare transition, and never the empty final |
| SyllableValidator.NoSyllablesIsNatural | src/ngram/syllable_validator.rs:87-136 | a text without syllables is always natural |
| SyllableValidator.OnsetExamples | src/ngram/syllable_validator.rs:172-199 | the onset rules on the source's listed pairs |
| SyllableValidator.TransitionExamples | src/ngram/syllable_validator.rs:208-221 | the transition rules on the source's listed pairs |
| SyllableValidator.RarePairRejected | src/ngram/syllable_validator.rs:202-205 | "쟈랴" is unnatural |
| SyllableValidator.HalfRareRejected | src/ngram/syllable_validator.rs:151-157 | "먀뇨" is unnatural (one rare in two) |
| SyllableValidator.OneRareInThreeAccepted | src/ngram/syllable_validator.rs:166-169 | "먀나다" is natural (one rare in three) |
| SyllableValidator.CommonWordAccepted | src/ngram/syllable_validator.rs:224-231 | "한글" is natural |
| SyllableValidator.WifiBlocked | src/ngram/syllable_validator.rs:202-205 | "wifi" converts to 쟈랴, which is unnatural |
| SyllableValidator.IsRareOnset | src/ngram/syllable_validator.rs:14-41 | the onset and vowel combinations the source calls rare; `RareOnsetVowels`, `SilentInitialNeverRare` and `OnsetExamples` characterise it |
| SyllableValidator.IsRareTransition | src/ngram/syllable_validator.rs:51-81 | the final-to-initial consonant transitions the source calls rare; `RareTransitionShape` and `TransitionExamples` characterise it |
| NgramConfig.Default | src/ngram/config.rs:25-34 | the defaults: smoothing 0.001, 11172 syllables, threshold -10, no model path |
| NgramConfig.New | src/ngram/config.rs:37-40 | `new` gives the default settings |
| NgramConfig.WithModelPath | src/ngram/config.rs:43-46 | sets the model path and keeps every other field |
| NgramConfig.WithThreshold | src/ngram/config.rs:49-52 | sets the threshold and keeps every other field |
| NgramConfig.WithSmoothing | src/ngram/config.rs:55-58 | sets the smoothing constant and keeps every other field |
| NgramConfig.DefaultVocabularyIsSyllableCount | src/ngram/config.rs:12-14 | the default vocabulary is 19 × 21 × 28 |
| NgramConfig.LastBuilderWins | src/ngram/config.rs:43-58 | setting a field twice keeps the second value |
| NgramConfig.BuildersCommute | src/ngram/config.rs:43-58 | the three setters commute |
| NgramConfig.BuildersIdempotent | src/ngram/config.rs:43-58 | setting a field to its own value changes nothing |
| NgramConfig.BuilderChainExample | src/ngram/config.rs:74-83 | the source's builder chain from `new()` gives path, threshold -8 and smoothing 0.01 |
| NgramModel.AsU64 | src/ngram/model.rs:99-101 | a value reads as a count exactly when it is an integer in [0, 2^64) |
| NgramModel.Find | src/ngram/model.rs:87-89 | a found member has the requested name |
| NgramModel.Names | src/ngram/model.rs:87-89 | the names of an object's members, in order |
| NgramModel.FindNone | src/ngram/model.rs:87-90 | the lookup fails exactly when no member has the name |
| NgramModel.FindIsFirst | src/ngram/model.rs:87-90 | the lookup returns the value of the first member with the name |
| NgramModel.ObjectField | src/ngram/model.rs:87-90 | a field is returned exactly when the value is an object whose member of that name is an object |
| NgramModel.Bars | src/ngram/model.rs:116 | the count of bars is zero exactly when the key has no bar |
| NgramModel.SplitBarParts | src/ngram/model.rs:116-122 | a key splits exactly when it has one bar, into the text before and after it |
| NgramModel.SplitBarOfJoined | src/ngram/model.rs:116-122 | joining two bar-free parts with a bar and splitting gives the parts back |
| NgramModel.UnigramKey | src/ngram/model.rs:96-98 | a unigram name is read exactly when it is non-empty, as its first character; otherwise the empty-key error |
| NgramModel.BigramKey | src/ngram/model.rs:116-129 | a bigram name is read exactly when it has one bar with non-empty sides, as the two first characters |
| NgramModel.ReadMember | src/ngram/model.rs:95-103 | a member is read exactly when its key reads and its value is a count; the key's error comes first |
| NgramModel.FromJsonValue | src/ngram/model.rs:85-143 | the two loops return exactly what the table reading specifies |
| NgramModel.ReadUnigrams | src/ngram/model.rs:92-104 | the unigram loop returns the table reading of the members, stopping at the first bad member |
| NgramModel.ReadBigrams | src/ngram/model.rs:112-136 | the bigram loop returns the table reading of the members, stopping at the first bad member |
| NgramModel.ReadBigramFails | src/ngram/model.rs:114-133 | a bad bigram member ends the reading with its own error |
| NgramModel.ReadBigramAdds | src/ngram/model.rs:114-135 | a good bigram member is inserted into the table |
| NgramModel.ReadTableStopsAtError | src/ngram/model.rs:95-135 | once a prefix fails, the whole reading fails with the same error |
| NgramModel.ReadTableLast | src/ngram/model.rs:95-135 | reading succeeds exactly when the prefix succeeds and the last member is good |
| NgramModel.ReadTableSucceedsIff | src/ngram/model.rs:95-135 | reading succeeds exactly when no member is bad |
| NgramModel.ReadTableReportsFirstError | src/ngram/model.rs:95-135 | a failed reading reports the error of the first bad member |
| NgramModel.CountSumSnoc | src/ngram/model.rs:103 | the sum of counts grows by the last member's count |
| NgramModel.ReadTableTotal | src/ngram/model.rs:93-103 | the unigram total is the sum of every member's count, duplicates included |
| NgramModel.ReadTableKeys | src/ngram/model.rs:95-135 | a key is in the table exactly when some member reads to it |
| NgramModel.ReadTableLastWins | src/ngram/model.rs:102-135 | for a repeated key, the table keeps the count of its last member |
| NgramModel.MissingUnigramsReported | src/ngram/model.rs:87-90 | without a unigram object the reading fails with the missing-unigrams error |
| NgramModel.MissingBigramsReported | src/ngram/model.rs:107-110 | with good unigrams and no bigram object the reading fails with the missing-bigrams error |
| NgramModel.FromJsonSucceedsIff | src/ngram/model.rs:85-143 | the reading succeeds exactly for well-formed JSON, with the unigram total as the sum of counts |
| NgramModel.UnigramCount | src/ngram/model.rs:155-157 | the stored count of a listed character, 0 for any other |
| NgramModel.BigramCount | src/ngram/model.rs:160-162 | the stored count of a listed pair, 0 for any other |
| NgramModel.Empty | src/ngram/model.rs:146-152 | the empty model has no counts and a zero total |
| NgramModel.EmptyHasNoCounts | src/ngram/model.rs:146-162 | an empty model reports 0 for every character and pair |
| NgramModel.EmptyTablesReadToEmpty | src/ngram/model.rs:85-152 | empty unigram and bigram objects read to the empty model |
| NgramModel.WindowProb | src/ngram/model.rs:195-206 | with positive smoothing every window has a positive probability |
| NgramModel.UnigramLogProb | src/ngram/model.rs:219-232 | minus infinity exactly when the model has no unigrams |
| NgramModel.UnigramProb | src/ngram/model.rs:227-230 | with positive smoothing and a positive total the probability is positive |
| NgramModel.ScoreWithConfig | src/ngram/model.rs:181-216 | the window loop returns the text's score |
| NgramModel.Score | src/ngram/model.rs:176-178 | the score under the default configuration |
| NgramModel.PairProbUsesOnlySmoothing | src/ngram/model.rs:203-206 | a window's probability depends on the configuration only through smoothing and vocabulary |
| NgramModel.UnigramUsesOnlySmoothing | src/ngram/model.rs:227-231 | the same for a single character |
| NgramModel.ScoreUsesOnlySmoothing | src/ngram/model.rs:181-216 | the same for the whole score: the threshold and the model path never change it |
| NgramModel.ScoreNegInfinityIff | src/ngram/model.rs:184-216 | the score is minus infinity exactly for the empty text, or one character with no unigrams |
| NgramModel.LogProbSumBetween | src/ngram/model.rs:192-209 | the sum of window log probabilities lies between the bounds of its terms |
| NgramModel.MeanBetween | src/ngram/model.rs:211-215 | a mean lies between the bounds of its terms |
| NgramModel.ScoreBetweenPairs | src/ngram/model.rs:181-216 | the score of two or more characters is finite and lies between the least and greatest window log probability |
| NgramModel.EmptyModelPairProb | src/ngram/model.rs:195-206 | in an empty model every window has probability 1/V |
| NgramModel.EmptyModelScore | src/ngram/model.rs:292-299 | an empty model scores every text of two or more characters ln(1/V) |
| NgramModel.InvalidBigramKeyRejected | src/ngram/model.rs:315-323 | a bigram key without a bar is a format error |
| NgramModel.NonObjectUnigramsRejected | src/ngram/model.rs:308-313 | a unigram field that is not an object is a format error |
| NgramModel.BigramKeyOfPair | src/ngram/model.rs:258 | "안|녕" reads as the pair (안, 녕) |
| NgramModel.SampleUnigramsRead | src/ngram/model.rs:254-273 | two unigram members read to their table and total 180 |
| NgramModel.SampleBigramsRead | src/ngram/model.rs:254-273 | one bigram member reads to its table |
| NgramModel.SampleModelReads | src/ngram/model.rs:254-273 | a reduced copy of the source's sample JSON reads to the expected model |
| NgramModel.SampleModelLookups | src/ngram/model.rs:262-273 | counts of listed characters and pairs are returned, unlisted ones are 0 |
| NgramModel.FromJson | src/ngram/model.rs:85-143 | reads both tables or reports the first bad field; `FromJsonSucceedsIff`, the missing-table lemmas and `ModelJsonReadsBack` characterise it |
| NgramModel.TextScore | src/ngram/model.rs:181-216 | minus infinity for empty text, the unigram log probability of one syllable, else the mean pair log probability; `ScoreNegInfinityIff`, `ScoreBetweenPairs` and `ScoreUsesOnlySmoothing` characterise it |
| NgramValidator.New | src/ngram/validator.rs:34-39 | a new validator has no model and the default configuration |
| NgramValidator.WithModel | src/ngram/validator.rs:42-47 | the validator holds the given model and configuration |
| NgramValidator.WithConfig | src/ngram/validator.rs:50-55 | the validator holds the configuration and no model |
| NgramValidator.Score | src/ngram/validator.rs:122-126 | no score exactly when there is no model; otherwise the model's score under the validator's configuration |
| NgramValidator.Analyze | src/ngram/validator.rs:85-151 | the result holds the input, its conversion, whether that has jamo, whether it is unnatural, the score of the conversion exactly when there is a model, and the same verdict as the direct check, the empty input included |
| NgramValidator.ShouldConvertIff | src/ngram/validator.rs:85-117 | converts exactly when the input is non-empty, changes under conversion, has no jamo, is natural, and reaches the threshold when there is a model |
| NgramValidator.ModelOnlyNarrows | src/ngram/validator.rs:109-116 | adding a model never makes a rejected input accepted |
| NgramValidator.NoModelIgnoresThreshold | src/ngram/validator.rs:109-116 | without a model the threshold has no effect |
| NgramValidator.LowerThresholdAcceptsMore | src/ngram/validator.rs:334-353 | lowering the threshold keeps every accepted input accepted |
| NgramValidator.UnseenSingleSyllableRefused | src/ngram/validator.rs:109-113 | with a model without unigrams a one-character conversion scores minus infinity and is refused |
| NgramValidator.DigitsRefused | src/ngram/validator.rs:202-203 | "12345" is not converted: it does not change under conversion |
| NgramValidator.AnnyeongIsNatural | src/ngram/syllable_validator.rs:143-148 | 안녕 is natural |
| NgramValidator.AnnyeongAccepted | src/ngram/validator.rs:189-190 | without a model "dkssud" is converted |
| NgramValidator.NameRefused | src/ngram/validator.rs:194-195 | "name" is refused because its conversion has a jamo |
| NgramValidator.PyaGyeonIsUnnatural | src/ngram/syllable_validator.rs:160-163 | "퍄견" is unnatural |
| NgramValidator.VirusRefused | src/ngram/validator.rs:310-332 | "virus" is refused because its conversion is unnatural |
| NgramValidator.DaisyRefused | src/ngram/validator.rs:310-315 | "daisy" is refused |
| NgramValidator.HelloRefused | src/ngram/validator.rs:196 | "hello" is refused |
| NgramValidator.ShouldConvertToKorean | src/ngram/validator.rs:85-117 | refuses the empty input, an unchanged conversion, a conversion with standalone jamo or an unnatural structure, then a score below the threshold when there is a model; `ShouldConvertIff` states the conjunction and the refusal lemmas below check it on the source's examples |
| Trainer.SameSyllableRange | tools/ngram-trainer/train.py:22-31 | a one-character string is a syllable exactly when its code point lies in U+AC00..U+D7A3, the same range the keyboard side uses |
| Trainer.ExtractHangul | tools/ngram-trainer/train.py:34-36 | the result is no longer than the text and holds only syllables |
| Trainer.ExtractAppend | tools/ngram-trainer/train.py:34-36 | extraction distributes over concatenation |
| Trainer.ExtractCounts | tools/ngram-trainer/train.py:34-36 | every syllable keeps its number of occurrences, every other character disappears |
| Trainer.ExtractIdempotent | tools/ngram-trainer/train.py:34-36 | extracting twice is extracting once |
| Trainer.Add | tools/ngram-trainer/train.py:59 | adding a key to a counter puts it among the keys, with one more than before |
| Trainer.CountsAreOccurrences | tools/ngram-trainer/train.py:53 | a key is counted exactly when it occurs, and its count is its number of occurrences |
| Trainer.CountsTotal | tools/ngram-trainer/train.py:53 | the counts of a sequence add up to its length |
| Trainer.Pairs | tools/ngram-trainer/train.py:57-59 | one pair per adjacent position, made of the characters at i and i + 1 |
| Trainer.Filtered | tools/ngram-trainer/train.py:62-64 | a key survives exactly when the minimum is at most 1 or its count reaches the minimum, with its count unchanged |
| Trainer.FilterIdempotent | tools/ngram-trainer/train.py:62-64 | filtering twice is filtering once |
| Trainer.FilterMonotone | tools/ngram-trainer/train.py:62-64 | a higher minimum keeps fewer keys |
| Trainer.CountNgrams | tools/ngram-trainer/train.py:39-66 | the unigram counter is the filtered count of the extracted syllables and the bigram counter the filtered count of their adjacent pairs |
| Trainer.CountsOfText | tools/ngram-trainer/train.py:50-59 | the unfiltered unigram counts add up to the number of syllables and the bigram counts to one less |
| Trainer.UnigramCountIsOccurrences | tools/ngram-trainer/train.py:50-53 | a syllable occurring in the text is counted as often as it occurs |
| Trainer.PairsSpanGaps | tools/ngram-trainer/train.py:50-59 | two syllables separated only by non-syllables form a bigram |
| Trainer.BigramKeyText | tools/ngram-trainer/train.py:175 | a bigram key is three characters with the separator in the middle |
| Trainer.BigramKeyRoundTrip | tools/ngram-trainer/train.py:175 | the loader's key parser reads a written bigram key back as the same pair when neither character is the separator |
| Trainer.SyllablePairKeysRoundTrip | tools/ngram-trainer/train.py:175 | every pair of syllables reads back |
| Trainer.UnigramKeyRoundTrip | tools/ngram-trainer/train.py:174 | a written unigram key reads back as the same character |
| Trainer.TableMembers | tools/ngram-trainer/train.py:174-175 | one object member per enumerated key |
| Trainer.ModelJson | tools/ngram-trainer/train.py:166-176 | the model file is an object with metadata, unigrams and bigrams; the metadata omits `min_freq` and `source` |
| Trainer.ReadWrittenCounter | tools/ngram-trainer/train.py:174-175 | the loader reads a written counter back as the same map, with the sum of its counts as total |
| Trainer.ModelJsonReadsBack | tools/ngram-trainer/train.py:166-176 | the loader reads the written model back as a model holding exactly the written counters and their unigram total |
| Trainer.TrainedModelReadsBack | tools/ngram-trainer/train.py:134-176 | a model trained from any text reads back as its counters, and without filtering the unigram total is the number of syllables |
| Trainer.TrainerExample | tools/ngram-trainer/train.py:34-59 | "안녕 hi 하세요!" yields 안녕하세요 with 녕하 among its pairs |
| Trainer.IsHangulSyllable | tools/ngram-trainer/train.py:22-31 | one character in the precomposed syllable block; `SameSyllableRange` ties it to the converter's range |
| EventTap.Pushed | src/platform/event_tap.rs:26-32 | the buffer grows by one character or keeps its length, and ends with the new key |
| EventTap.PushedKeepsOrder | src/platform/event_tap.rs:26-32 | before the new key the buffer holds the old one, less its oldest character exactly when its byte length had reached the capacity |
| EventTap.Last | src/platform/event_tap.rs:27-31 | the last n characters, or all of them when there are fewer |
| EventTap.PushedKeepsLast | src/platform/event_tap.rs:26-32 | one ASCII key after a buffer holding the last keys of a text gives the last keys of the longer text |
| EventTap.PushAllKeepsLast | src/platform/event_tap.rs:26-32 | typing an ASCII text key by key from empty leaves its last max_size characters |
| EventTap.KeyBuffer.constructor | src/platform/event_tap.rs:19-24 | a new buffer is empty with the given capacity, and valid when that capacity is positive |
| EventTap.KeyBuffer.Push | src/platform/event_tap.rs:26-32 | the new content is the old content after one key, the oldest dropped first when full; an ASCII key keeps a valid buffer valid; a zero capacity with an empty buffer, which would panic, is excluded |
| EventTap.KeyBuffer.Clear | src/platform/event_tap.rs:34-36 | the buffer is empty |
| EventTap.KeyBuffer.Len | src/platform/event_tap.rs:42-44 | for ASCII content the byte length is the number of characters |
| EventTap.KeyBuffer.IsEmpty | src/platform/event_tap.rs:46-48 | empty exactly when the length is zero |
| EventTap.PushKeepsValid | src/platform/event_tap.rs:19-32 | an ASCII key keeps an ASCII buffer within its capacity |
| EventTap.KeycodeToChar | src/platform/event_tap.rs:52-111 | a character exactly for the listed keycodes |
| EventTap.KeysArePrintableAscii | src/platform/event_tap.rs:55-110 | every character produced is printable ASCII |
| EventTap.ShiftCapitalises | src/platform/event_tap.rs:106-110 | with Shift the character is the ASCII uppercase of the unshifted one, and is a capital exactly when that one is a small letter |
| EventTap.BoundaryKeysGiveNothing | src/platform/event_tap.rs:55-103 | Enter, Tab, Space, Escape and the arrow keys give no character |
| EventTap.BaseKeyInverse | src/platform/event_tap.rs:55-104 | looking the produced character up again gives back its keycode |
| EventTap.BaseKeyInjective | src/platform/event_tap.rs:55-104 | no two keycodes produce the same character |
| EventTap.LowercaseKey | src/platform/event_tap.rs:55-104 | every small letter has a keycode that produces it |
| EventTap.EveryLetterIsTyped | src/platform/event_tap.rs:55-110 | every Latin letter, small or capital, is typed by some keycode with Shift set exactly for capitals |
| EventTap.KeycodeExamples | src/platform/event_tap.rs:327-332 | keycode 0 gives a and A, keycode 15 gives r and R |
| EventTap.BufferOverflowExample | src/platform/event_tap.rs:316-324 | capacity 3 after "abcd" holds "bcd" |
| EventTap.BufferExample | src/platform/event_tap.rs:304-310 | capacity 5 after "abc" holds "abc" |
| EventTap.BaseKey | src/platform/event_tap.rs:55-104 | the unshifted character of each listed keycode; `BaseKeyInverse` and `BaseKeyInjective` show no two keycodes share a character |
| OsVersion.Split | src/platform/os_version.rs:62 | at least one piece, none holding a dot |
| OsVersion.JoinSplit | src/platform/os_version.rs:62 | joining the pieces with dots gives the string back |
| OsVersion.SplitJoin | src/platform/os_version.rs:62 | splitting dot-free pieces joined with dots gives the pieces back |
| OsVersion.ParseU64 | src/platform/os_version.rs:63 | a parsed piece fits in 64 bits and starts with a digit or a plus sign |
| OsVersion.Decimal | src/platform/os_version.rs:90 | the decimal rendering is non-empty digits |
| OsVersion.DecimalValue | src/platform/os_version.rs:90 | the rendered digits denote the number |
| OsVersion.ParseDecimal | src/platform/os_version.rs:63-90 | a rendered number that fits in 64 bits parses back |
| OsVersion.PlusSignAccepted | src/platform/os_version.rs:63 | one leading plus sign is accepted, two are not |
| OsVersion.ParsedParts | src/platform/os_version.rs:61-64 | no more numbers than pieces |
| OsVersion.ParsedPartsFit | src/platform/os_version.rs:61-64 | every kept number fits in 64 bits |
| OsVersion.ParsedPartsAppend | src/platform/os_version.rs:61-64 | parsing distributes over concatenation of pieces |
| OsVersion.DropsUnparsable | src/platform/os_version.rs:63 | an unparsable piece is dropped and the later numbers move up |
| OsVersion.ParseVersion | src/platform/os_version.rs:60-71 | every field of the result fits in 64 bits |
| OsVersion.SplitDisplay | src/platform/os_version.rs:88-92 | the rendering splits into the three decimal fields |
| OsVersion.ParseDisplay | src/platform/os_version.rs:60-92 | parsing the rendering of a version gives the version back |
| OsVersion.NothingParsableIsDefault | src/platform/os_version.rs:66-70 | a string with no parsable piece gives 13.0.0 |
| OsVersion.NoneParsable | src/platform/os_version.rs:61-64 | no parsable piece leaves no number |
| OsVersion.GatesNested | src/platform/os_version.rs:78-86 | Sequoia or later implies Sonoma or later, and only major 14 is Sonoma but not Sequoia |
| OsVersion.GatesIgnoreMinorAndPatch | src/platform/os_version.rs:78-86 | the gates depend on the major version alone |
| OsVersion.DefaultBelowGates | src/platform/os_version.rs:66-86 | the default version passes neither gate |
| OsVersion.ParsesFull | src/platform/os_version.rs:98-104 | "15.2.1" parses to 15.2.1 |
| OsVersion.ParsesTwoParts | src/platform/os_version.rs:106-112 | "14.0" parses to 14.0.0 |
| OsVersion.UnparsablePieceShifts | src/platform/os_version.rs:61-70 | "15.x.2" parses to 15.2.0 |
| OsVersion.IsSonomaOrLater | src/platform/os_version.rs:78-81 | a major version of 14 or more; `GatesNested` and `GatesIgnoreMinorAndPatch` relate it to the Sequoia gate |
| OsVersion.IsSequoiaOrLater | src/platform/os_version.rs:83-86 | a major version of 15 or more, which implies the Sonoma gate (`GatesNested`) |
| Text.UpperChar | src/detection/auto_detect.rs:187 | a small ASCII letter becomes its capital, anything else is unchanged |
| Text.LowerChar | src/detection/auto_detect.rs:76 | a capital ASCII letter becomes its small letter, anything else is unchanged |
| Text.Lower | src/detection/auto_detect.rs:76 | same length, each character lowered |
| Text.Utf8Width | src/detection/auto_detect.rs:71 | one to four bytes, one exactly for ASCII |
| Text.Utf8Len | src/detection/auto_detect.rs:71 | the byte length lies between the character count and four times it |
| Text.AsciiUtf8Len | src/detection/auto_detect.rs:71 | an ASCII string has as many bytes as characters |
| Text.LowerKeepsUtf8Len | src/detection/auto_detect.rs:76 | lowering keeps the byte length |

## Left out

- `handle_event`, `start_event_tap`, `EventTapState` and `HotkeyConfig` in src/platform/event_tap.rs: an operating-system event callback, a run loop and state shared through `Mutex` and `AtomicBool`; only the buffer and the keycode table are modelled.
- src/main.rs, the ui modules and the platform modules for text replacement, cursor position, input source and permissions: threads, windows and system calls.
- `NgramModel::load` and `KoreanValidator::load`: file reading. `from_json` is modelled from an already parsed JSON value; the text-to-JSON parser belongs to a library.
- A JSON object is a sequence of members in the order the parser iterates them, and that order decides which bad key a failed read reports. A parsed object has distinct names; the model also admits repeated names, where a lookup by name takes the first member, a table read keeps the last value of a key and the total counts every member, so only on distinct names does it match the source.
- Floating point: `f32` and `f64` values are `real`, without rounding, NaN or infinities other than the explicit minus infinity of a score; the natural logarithm is a parameter `ln`.
- NgramModel.WindowProb: requires a positive smoothing constant and vocabulary size; with others the source divides by zero or takes the logarithm of a non-positive number.
- NgramModel.UnigramLogProb: requires a positive smoothing constant and vocabulary size, for the same reason; an empty model still gives minus infinity as in the source.
- NgramModel.UnigramProb: requires a positive smoothing constant and vocabulary size and a model that saw some text; the source only computes it after returning minus infinity for an empty model.
- NgramModel.LogProbSum: requires a positive smoothing constant and vocabulary size, for the same reason.
- NgramModel.PairLogProb: requires a positive smoothing constant and vocabulary size, for the same reason.
- NgramModel.TextScore: requires a positive smoothing constant and vocabulary size, for the same reason.
- NgramModel.ScoreWithConfig: requires a positive smoothing constant and vocabulary size, for the same reason.
- NgramValidator.Score: requires a positive smoothing constant and vocabulary size when a model is present, for the same reason.
- NgramValidator.Analyze: requires a positive smoothing constant and vocabulary size when a model is present, for the same reason.
- NgramValidator.ShouldConvertIff: requires a positive smoothing constant and vocabulary size when a model is present, for the same reason.
- NgramValidator.ShouldConvertToKorean: requires a positive smoothing constant and vocabulary size when a model is present, for the same reason.
- NgramModel.FromJson: the unigram total is an unbounded sum; the source's `u64` addition could overflow only past 2^64 counts.
- `COMMON_KOREAN_PATTERNS` in src/detection/patterns.rs is never read by the detector, so it is not modelled.
- `COMMON_ENGLISH_WORDS` is a parameter of the detector (a set of words) rather than the source's literal list.
- AutoDetect.AutoDetector.IsEnabled and AutoDetect.AutoDetector.DebounceMs: plain getters, modelled without a contract of their own.
- NgramModel.UnigramCountTotal and NgramModel.BigramCountTotal: the number of distinct keys, modelled without a contract of their own.
- EventTap.KeyBuffer.Get: returns the buffer, without a contract of its own.
- EventTap.Pushed: a capacity of zero on an empty buffer is excluded, because the source then removes from an empty string and panics.
- EventTap.PushAll: requires a positive capacity, as every buffer the source creates has (100 in the event tap, 5 and 3 in its tests), for the same reason.
- EventTap.KeyBuffer.Push: a capacity of zero on an empty buffer is excluded, because the source then removes from an empty string and panics.
- EventTap.KeyBuffer.Len: the byte length equals the character count only for ASCII content, which is all the keycode table produces.
- Keymap: the helpers that append to a `&mut String` are functions returning the appended text.
- `to_lowercase` is ASCII lowercasing (`Text.Lower`): the buffers it is applied to hold keys from the US-layout keycode table.
- In tools/ngram-trainer/train.py: `generate_sample_model`, the file reading of `train_from_corpus`, `save_model`, `main` and printing. `most_common` ordering is any enumeration of the keys (`Trainer.Enumerates`), so the proofs hold whatever order Python chooses.
- Trainer.ModelJson: writes only the `corpus_size`, `unique_unigrams` and `unique_bigrams` metadata fields; the `min_freq` and `source` fields are not written, because the loader never reads the metadata.
- `NgramModel.SampleJson` is a small model file in the shape of the source's test data, not the shipped `ngram_model.json`.
- `detect_version` and the `OnceLock` cache in src/platform/os_version.rs: a foreign `sysctlbyname` call and global caching. The version is passed in, so the Sonoma and Sequoia gates are predicates on a version.
