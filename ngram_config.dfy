/**
 * Settings of the n-gram scorer: the add-k smoothing constant, the
 * vocabulary size (the 11172 precomposed syllables), the acceptance
 * threshold on the average log probability, and the model file path.
 */
module NgramConfig {
  datatype NgramConfig = NgramConfig(smoothingK: real, vocabSize: nat, threshold: real, modelPath: string)

  /** The default settings. */
  function Default(): (r: NgramConfig)
    ensures r.smoothingK == 0.001 && r.vocabSize == 11172 && r.threshold == -10.0 && r.modelPath == ""
  {
    NgramConfig(0.001, 11172, -10.0, "")
  }

  /** `new` gives the default settings. */
  function New(): (r: NgramConfig)
    ensures r == Default()
  {
    Default()
  }

  /** A copy with another model path and every other setting kept. */
  function WithModelPath(c: NgramConfig, path: string): (r: NgramConfig)
    ensures r.modelPath == path
    ensures r.smoothingK == c.smoothingK && r.vocabSize == c.vocabSize && r.threshold == c.threshold
  {
    c.(modelPath := path)
  }

  /** A copy with another threshold and every other setting kept. */
  function WithThreshold(c: NgramConfig, threshold: real): (r: NgramConfig)
    ensures r.threshold == threshold
    ensures r.smoothingK == c.smoothingK && r.vocabSize == c.vocabSize && r.modelPath == c.modelPath
  {
    c.(threshold := threshold)
  }

  /** A copy with another smoothing constant and every other setting kept. */
  function WithSmoothing(c: NgramConfig, k: real): (r: NgramConfig)
    ensures r.smoothingK == k
    ensures r.vocabSize == c.vocabSize && r.threshold == c.threshold && r.modelPath == c.modelPath
  {
    c.(smoothingK := k)
  }

  /** The vocabulary size is the number of precomposed syllables, 19 * 21 * 28. */
  lemma DefaultVocabularyIsSyllableCount()
    ensures Default().vocabSize == 19 * 21 * 28
  {
  }

  /** Setting a field twice keeps only the last value. */
  lemma LastBuilderWins(c: NgramConfig, p: string, q: string, t: real, u: real, k: real, l: real)
    ensures WithModelPath(WithModelPath(c, p), q) == WithModelPath(c, q)
    ensures WithThreshold(WithThreshold(c, t), u) == WithThreshold(c, u)
    ensures WithSmoothing(WithSmoothing(c, k), l) == WithSmoothing(c, l)
  {
  }

  /** Builders of different fields can be chained in any order. */
  lemma BuildersCommute(c: NgramConfig, p: string, t: real, k: real)
    ensures WithThreshold(WithModelPath(c, p), t) == WithModelPath(WithThreshold(c, t), p)
    ensures WithSmoothing(WithModelPath(c, p), k) == WithModelPath(WithSmoothing(c, k), p)
    ensures WithSmoothing(WithThreshold(c, t), k) == WithThreshold(WithSmoothing(c, k), t)
  {
  }

  /** Setting a field to the value it already holds changes nothing. */
  lemma BuildersIdempotent(c: NgramConfig)
    ensures WithModelPath(c, c.modelPath) == c
    ensures WithThreshold(c, c.threshold) == c
    ensures WithSmoothing(c, c.smoothingK) == c
  {
  }

  /** The chained builder of the source's test: every setting but the vocabulary replaced. */
  lemma BuilderChainExample()
    ensures WithSmoothing(WithThreshold(WithModelPath(New(), "data/ngram_model.json"), -8.0), 0.01)
            == NgramConfig(0.01, 11172, -8.0, "data/ngram_model.json")
  {
  }
}
