/**
 * The corpus counter of the n-gram trainer: keep the precomposed Hangul
 * syllables of a text, count each syllable and each pair of neighbouring
 * syllables, drop the rare ones, and write the tables in the JSON layout
 * the scorer reads back.
 */
module Trainer {
  import Text
  import opened Wrappers
  import Unicode
  import NgramModel

  const HangulStart: int := 0xAC00
  const HangulEnd: int := 0xD7A3

  /** A string of exactly one character, a precomposed syllable. */
  predicate IsHangulSyllable(s: string) {
    |s| == 1 && HangulStart <= s[0] as int <= HangulEnd
  }

  /** The trainer's range is the decoder's syllable block, and longer or empty strings are never syllables. */
  lemma SameSyllableRange(s: string)
    ensures IsHangulSyllable(s) <==> |s| == 1 && Unicode.IsHangulSyllable(s[0])
  {
  }

  // ---------------------------------------------------------------------
  // extract_hangul

  /** The syllables of `text`, in order. */
  function ExtractHangul(text: string): (r: string)
    ensures |r| <= |text|
    ensures forall i :: 0 <= i < |r| ==> IsHangulSyllable([r[i]])
  {
    if text == [] then []
    else
      var rest := ExtractHangul(text[1..]);
      if IsHangulSyllable([text[0]]) then
        var r := [text[0]] + rest;
        assert forall i :: 1 <= i < |r| ==> r[i] == rest[i - 1];
        r
      else rest
  }

  /** Extraction of a concatenation is the concatenation of the extractions: the order is kept. */
  lemma {:induction false} ExtractAppend(a: string, b: string)
    ensures ExtractHangul(a + b) == ExtractHangul(a) + ExtractHangul(b)
  {
    if a == [] {
      assert a + b == b;
    } else {
      assert (a + b)[1..] == a[1..] + b;
      ExtractAppend(a[1..], b);
    }
  }

  /** Every syllable is kept as often as it occurs, and nothing else is. */
  lemma {:induction false} ExtractCounts(text: string, c: char)
    ensures multiset(ExtractHangul(text))[c] == if IsHangulSyllable([c]) then multiset(text)[c] else 0
  {
    if text != [] {
      ExtractCounts(text[1..], c);
      assert text == [text[0]] + text[1..];
    }
  }

  /** Extracting twice keeps what the first pass kept. */
  lemma {:induction false} ExtractIdempotent(text: string)
    ensures ExtractHangul(ExtractHangul(text)) == ExtractHangul(text)
  {
    if text != [] {
      ExtractIdempotent(text[1..]);
      var rest := ExtractHangul(text[1..]);
      if IsHangulSyllable([text[0]]) {
        assert ([text[0]] + rest)[1..] == rest;
      }
    }
  }

  // ---------------------------------------------------------------------
  // Counters

  /** One more occurrence of `k`. */
  function Add<K>(m: map<K, nat>, k: K): (r: map<K, nat>)
    ensures r.Keys == m.Keys + {k}
  {
    m[k := (if k in m then m[k] else 0) + 1]
  }

  /** A `Counter` fed `xs` one element at a time. */
  function Counts<K>(xs: seq<K>): map<K, nat>
  {
    if xs == [] then map[] else Add(Counts(xs[..|xs| - 1]), xs[|xs| - 1])
  }

  /** Counting one more element of `xs` is one more `Add`. */
  lemma CountsSnoc<K>(xs: seq<K>, i: nat)
    requires i < |xs|
    ensures Counts(xs[..i + 1]) == Add(Counts(xs[..i]), xs[i])
  {
    assert xs[..i + 1][..i] == xs[..i];
  }

  /** Each key is an element of `xs` and counts its occurrences. */
  lemma {:induction false} CountsAreOccurrences<K>(xs: seq<K>, k: K)
    ensures k in Counts(xs) <==> k in multiset(xs)
    ensures k in Counts(xs) ==> Counts(xs)[k] == multiset(xs)[k]
  {
    if xs != [] {
      var p := xs[..|xs| - 1];
      CountsAreOccurrences(p, k);
      assert xs == p + [xs[|xs| - 1]];
    }
  }

  /** The sum of a counter's values. */
  ghost function Sum<K>(m: map<K, nat>): nat
    decreases |m|
  {
    if |m| == 0 then 0
    else
      var k :| k in m;
      m[k] + Sum(m - {k})
  }

  /** The key the sum takes first. */
  lemma SumPick<K>(m: map<K, nat>) returns (j: K)
    requires |m| > 0
    ensures j in m && Sum(m) == m[j] + Sum(m - {j})
  {
    j :| j in m && Sum(m) == m[j] + Sum(m - {j});
  }

  /** The sum does not depend on which key is taken first. */
  lemma {:induction false} SumRemove<K>(m: map<K, nat>, k: K)
    requires k in m
    ensures Sum(m) == m[k] + Sum(m - {k})
    decreases |m|
  {
    var j := SumPick(m);
    if j != k {
      var mj := m - {j};
      var mk := m - {k};
      assert k in mj && mj[k] == m[k];
      assert j in mk && mk[j] == m[j];
      SumRemove(mj, k);
      SumRemove(mk, j);
      RemoveCommutes(m, j, k);
    }
  }

  /** Removing two keys in either order leaves the same counter. */
  lemma RemoveCommutes<K>(m: map<K, nat>, j: K, k: K)
    ensures (m - {j}) - {k} == (m - {k}) - {j}
  {
  }

  /** One more occurrence adds one to the sum. */
  lemma SumAdd<K>(m: map<K, nat>, k: K)
    ensures Sum(Add(m, k)) == Sum(m) + 1
  {
    var r := Add(m, k);
    SumRemove(r, k);
    if k in m {
      SumRemove(m, k);
      assert r - {k} == m - {k};
    } else {
      assert r - {k} == m;
    }
  }

  /** A counter of `xs` holds `|xs|` occurrences in all. */
  lemma {:induction false} CountsTotal<K>(xs: seq<K>)
    ensures Sum(Counts(xs)) == |xs|
  {
    if xs != [] {
      CountsTotal(xs[..|xs| - 1]);
      SumAdd(Counts(xs[..|xs| - 1]), xs[|xs| - 1]);
    }
  }

  /** The neighbouring pairs `s[i:i+2]`. */
  function Pairs(s: string): (r: seq<(char, char)>)
    ensures |r| == if |s| == 0 then 0 else |s| - 1
    ensures forall i :: 0 <= i < |r| ==> r[i] == (s[i], s[i + 1])
  {
    if |s| <= 1 then [] else seq(|s| - 1, i requires 0 <= i < |s| - 1 => (s[i], s[i + 1]))
  }

  /** The entries kept by the `min_freq` filter; below 2 it keeps everything. */
  function Filtered<K(!new)>(m: map<K, nat>, minFreq: int): (r: map<K, nat>)
    ensures forall k :: k in r <==> k in m && (minFreq <= 1 || m[k] >= minFreq)
    ensures forall k :: k in r ==> r[k] == m[k]
  {
    if minFreq > 1 then map k | k in m && m[k] >= minFreq :: m[k] else m
  }

  /** Filtering twice with the same bound is filtering once. */
  lemma FilterIdempotent<K(!new)>(m: map<K, nat>, minFreq: int)
    ensures Filtered(Filtered(m, minFreq), minFreq) == Filtered(m, minFreq)
  {
  }

  /** A higher bound keeps a subset of what a lower one keeps. */
  lemma FilterMonotone<K(!new)>(m: map<K, nat>, lo: int, hi: int)
    requires lo <= hi
    ensures Filtered(m, hi).Keys <= Filtered(m, lo).Keys
  {
  }

  // ---------------------------------------------------------------------
  // count_ngrams

  /** The unigram and bigram counters of `text`, before and after the filter. */
  method CountNgrams(text: string, minFreq: int) returns (unigrams: map<char, nat>, bigrams: map<(char, char), nat>)
    ensures unigrams == Filtered(Counts(ExtractHangul(text)), minFreq)
    ensures bigrams == Filtered(Counts(Pairs(ExtractHangul(text))), minFreq)
  {
    var hangul := ExtractHangul(text);
    unigrams := map[];
    var i := 0;
    while i < |hangul|
      invariant 0 <= i <= |hangul|
      invariant unigrams == Counts(hangul[..i])
    {
      CountsSnoc(hangul, i);
      unigrams := Add(unigrams, hangul[i]);
      i := i + 1;
    }
    Text.WholePrefix(hangul);
    ghost var pairs := Pairs(hangul);
    bigrams := map[];
    i := 0;
    while i < |hangul| - 1
      invariant 0 <= i <= |pairs|
      invariant bigrams == Counts(pairs[..i])
    {
      CountsSnoc(pairs, i);
      bigrams := Add(bigrams, (hangul[i], hangul[i + 1]));
      i := i + 1;
    }
    Text.WholePrefix(pairs);
    if minFreq > 1 {
      unigrams := map k | k in unigrams && unigrams[k] >= minFreq :: unigrams[k];
      bigrams := map k | k in bigrams && bigrams[k] >= minFreq :: bigrams[k];
    }
  }

  /**
   * Before the filter every syllable counts its occurrences, every pair of
   * neighbouring syllables too, and the totals are the number of syllables
   * and of pairs.
   */
  lemma CountsOfText(text: string)
    ensures var h := ExtractHangul(text);
            Sum(Counts(h)) == |h|
            && Sum(Counts(Pairs(h))) == (if |h| == 0 then 0 else |h| - 1)
  {
    CountsTotal(ExtractHangul(text));
    CountsTotal(Pairs(ExtractHangul(text)));
  }

  /** A syllable's unigram count is the number of times it occurs in the whole text. */
  lemma UnigramCountIsOccurrences(text: string, c: char)
    requires IsHangulSyllable([c]) && c in multiset(text)
    ensures c in Counts(ExtractHangul(text))
    ensures Counts(ExtractHangul(text))[c] == multiset(text)[c]
  {
    ExtractCounts(text, c);
    CountsAreOccurrences(ExtractHangul(text), c);
  }

  /**
   * Pairs are taken after the other characters are removed, so the last
   * syllable before a gap and the first after it count as neighbours.
   */
  lemma PairsSpanGaps(a: string, gap: string, b: string)
    requires ExtractHangul(a) != [] && ExtractHangul(gap) == [] && ExtractHangul(b) != []
    ensures var h := ExtractHangul(a + gap + b);
            var x := ExtractHangul(a);
            (x[|x| - 1], ExtractHangul(b)[0]) in Counts(Pairs(h))
  {
    var x := ExtractHangul(a);
    var y := ExtractHangul(b);
    ExtractAroundGap(a, gap, b);
    var h := x + y;
    assert Pairs(h)[|x| - 1] == (x[|x| - 1], y[0]);
    CountsAreOccurrences(Pairs(h), (x[|x| - 1], y[0]));
  }

  /** A text without syllables disappears from the extraction. */
  lemma ExtractAroundGap(a: string, gap: string, b: string)
    requires ExtractHangul(gap) == []
    ensures ExtractHangul(a + gap + b) == ExtractHangul(a) + ExtractHangul(b)
  {
    ExtractAppend(a + gap, b);
    ExtractAppend(a, gap);
    assert ExtractHangul(a) + [] == ExtractHangul(a);
  }

  // ---------------------------------------------------------------------
  // The JSON written for the scorer

  /** A bigram key as the trainer writes it: `f"{a}|{b}"`. */
  function BigramKeyText(p: (char, char)): (r: string)
    ensures |r| == 3 && r[1] == '|'
  {
    [p.0] + "|" + [p.1]
  }

  /** The scorer's reader turns the written key back into the pair, for every pair without a bar in it. */
  lemma BigramKeyRoundTrip(p: (char, char))
    requires p.0 != '|' && p.1 != '|'
    ensures NgramModel.BigramKey(BigramKeyText(p)) == Success(p)
  {
    NgramModel.SplitBarOfJoined([p.0], [p.1]);
  }

  /** Pairs of syllables never contain the bar, so every bigram the trainer writes is read back. */
  lemma SyllablePairKeysRoundTrip(p: (char, char))
    requires IsHangulSyllable([p.0]) && IsHangulSyllable([p.1])
    ensures NgramModel.BigramKey(BigramKeyText(p)) == Success(p)
  {
    BigramKeyRoundTrip(p);
  }

  /** A unigram key is the one-character string; the reader takes its character. */
  lemma UnigramKeyRoundTrip(c: char)
    ensures NgramModel.UnigramKey([c]) == Success(c)
  {
  }

  /** `order` lists every key of `m` exactly once, as iterating a dictionary does. */
  ghost predicate Enumerates<K>(order: seq<K>, m: map<K, nat>) {
    (forall i :: 0 <= i < |order| ==> order[i] in m)
    && (forall k :: k in m ==> k in order)
    && (forall i, j :: 0 <= i < j < |order| ==> order[i] != order[j])
  }

  /** A counter written as JSON object members, in the order given, each key through `keyText`. */
  function TableMembers<K>(m: map<K, nat>, order: seq<K>, keyText: K -> string): (r: seq<(string, NgramModel.Json)>)
    requires forall i :: 0 <= i < |order| ==> order[i] in m
    ensures |r| == |order|
  {
    if order == [] then []
    else
      var k := order[|order| - 1];
      TableMembers(m, order[..|order| - 1], keyText) + [(keyText(k), NgramModel.JInt(m[k]))]
  }

  function UnigramKeyText(c: char): string {
    [c]
  }

  /**
   * The model file: a metadata object, then the unigram table keyed by the
   * syllable and the bigram table keyed by `a|b`, each in the order given.
   */
  function ModelJson(unigrams: map<char, nat>, bigrams: map<(char, char), nat>, uorder: seq<char>, border: seq<(char, char)>): (r: NgramModel.Json)
    requires forall i :: 0 <= i < |uorder| ==> uorder[i] in unigrams
    requires forall i :: 0 <= i < |border| ==> border[i] in bigrams
    ensures r.JObject? && |r.members| == 3
  {
    var us := TableMembers(unigrams, uorder, UnigramKeyText);
    NgramModel.JObject([
      ("metadata", NgramModel.JObject([
        ("corpus_size", NgramModel.JInt(NgramModel.CountSum(us))),
        ("unique_unigrams", NgramModel.JInt(|unigrams|)),
        ("unique_bigrams", NgramModel.JInt(|bigrams|))])),
      ("unigrams", NgramModel.JObject(us)),
      ("bigrams", NgramModel.JObject(TableMembers(bigrams, border, BigramKeyText)))])
  }

  /** The part of `m` whose keys are in `s`. */
  function Restrict<K(!new)>(m: map<K, nat>, s: set<K>): (r: map<K, nat>)
    ensures forall k :: k in r <==> k in m && k in s
    ensures forall k :: k in r ==> r[k] == m[k]
  {
    map k | k in m && k in s :: m[k]
  }

  /** The keys `order` lists. */
  function Elements<K>(order: seq<K>): set<K> {
    set i | 0 <= i < |order| :: order[i]
  }

  /** Adding a key to the restriction adds that key with its count. */
  lemma RestrictAdd<K(!new)>(m: map<K, nat>, s: set<K>, k: K)
    requires k in m
    ensures Restrict(m, s + {k}) == Restrict(m, s)[k := m[k]]
  {
  }

  /** Adding a key outside `s` to the restriction adds its count to the sum. */
  lemma RestrictAddSum<K(!new)>(m: map<K, nat>, s: set<K>, k: K)
    requires k in m && k !in s
    ensures Sum(Restrict(m, s + {k})) == Sum(Restrict(m, s)) + m[k]
  {
    var after := Restrict(m, s + {k});
    RestrictAdd(m, s, k);
    SumRemove(after, k);
    assert after - {k} == Restrict(m, s);
  }

  /** The last key of a list without repeats is new, and the listed keys grow by it. */
  lemma ElementsSnoc<K>(order: seq<K>)
    requires order != []
    requires forall i, j :: 0 <= i < j < |order| ==> order[i] != order[j]
    ensures order[|order| - 1] !in Elements(order[..|order| - 1])
    ensures Elements(order) == Elements(order[..|order| - 1]) + {order[|order| - 1]}
  {
    var n := |order| - 1;
    var p := order[..n];
    forall x | x in Elements(order) ensures x in Elements(p) + {order[n]} {
      var i :| 0 <= i < |order| && order[i] == x;
      if i < n {
        assert p[i] == x;
      }
    }
    forall x | x in Elements(p) ensures x in Elements(order) && x != order[n] {
      var i :| 0 <= i < |p| && p[i] == x;
      assert order[i] == x;
    }
  }

  /** The restriction to a list of distinct keys grows by the last key and its count. */
  lemma RestrictSnoc<K(!new)>(m: map<K, nat>, order: seq<K>)
    requires order != [] && order[|order| - 1] in m
    requires forall i, j :: 0 <= i < j < |order| ==> order[i] != order[j]
    ensures var p := order[..|order| - 1];
            var k := order[|order| - 1];
            Restrict(m, Elements(order)) == Restrict(m, Elements(p))[k := m[k]]
            && Sum(Restrict(m, Elements(order))) == Sum(Restrict(m, Elements(p))) + m[k]
  {
    ElementsSnoc(order);
    RestrictAdd(m, Elements(order[..|order| - 1]), order[|order| - 1]);
    RestrictAddSum(m, Elements(order[..|order| - 1]), order[|order| - 1]);
  }

  /** One more member with a readable key and a `u64` count extends the table read so far. */
  lemma ReadTableStep<K>(prefix: seq<(string, NgramModel.Json)>, name: string, key: string -> Result<K, NgramModel.FormatError>, table: map<K, nat>, total: nat, k: K, v: nat)
    requires NgramModel.ReadTable(prefix, key) == Success((table, total))
    requires key(name) == Success(k) && v < NgramModel.U64Limit
    ensures NgramModel.ReadTable(prefix + [(name, NgramModel.JInt(v))], key) == Success((table[k := v], total + v))
  {
    var members := prefix + [(name, NgramModel.JInt(v))];
    assert members[..|members| - 1] == prefix;
    assert NgramModel.ReadMember(name, NgramModel.JInt(v), key) == Success((k, v));
  }

  /** The counts written for `order`, added up. */
  function WrittenTotal<K>(m: map<K, nat>, order: seq<K>): nat
    requires forall i :: 0 <= i < |order| ==> order[i] in m
  {
    if order == [] then 0 else WrittenTotal(m, order[..|order| - 1]) + m[order[|order| - 1]]
  }

  /** Over distinct keys the written total is the sum of the counter restricted to them. */
  lemma {:induction false} WrittenTotalIsSum<K(!new)>(m: map<K, nat>, order: seq<K>)
    requires forall i :: 0 <= i < |order| ==> order[i] in m
    requires forall i, j :: 0 <= i < j < |order| ==> order[i] != order[j]
    ensures WrittenTotal(m, order) == Sum(Restrict(m, Elements(order)))
  {
    if order == [] {
      assert Restrict(m, Elements(order)) == map[];
    } else {
      var p := order[..|order| - 1];
      assert forall i :: 0 <= i < |p| ==> p[i] == order[i];
      WrittenTotalIsSum(m, p);
      RestrictSnoc(m, order);
    }
  }

  /** One more distinct key written extends what is read back by that key and its count. */
  lemma ReadWrittenSnoc<K(!new)>(m: map<K, nat>, order: seq<K>, keyText: K -> string, key: string -> Result<K, NgramModel.FormatError>)
    requires order != []
    requires forall i :: 0 <= i < |order| ==> order[i] in m
    requires forall i, j :: 0 <= i < j < |order| ==> order[i] != order[j]
    requires key(keyText(order[|order| - 1])) == Success(order[|order| - 1]) && m[order[|order| - 1]] < NgramModel.U64Limit
    requires var p := order[..|order| - 1];
             NgramModel.ReadTable(TableMembers(m, p, keyText), key) == Success((Restrict(m, Elements(p)), WrittenTotal(m, p)))
    ensures NgramModel.ReadTable(TableMembers(m, order, keyText), key)
            == Success((Restrict(m, Elements(order)), WrittenTotal(m, order)))
  {
    var n := |order| - 1;
    var p := order[..n];
    var k := order[n];
    ElementsSnoc(order);
    RestrictAdd(m, Elements(p), k);
    ReadTableStep(TableMembers(m, p, keyText), keyText(k), key, Restrict(m, Elements(p)), WrittenTotal(m, p), k, m[k]);
  }

  /** Reading back distinct keys written from `m` gives `m` on those keys, and their total. */
  lemma {:induction false} ReadWrittenTable<K(!new)>(m: map<K, nat>, order: seq<K>, keyText: K -> string, key: string -> Result<K, NgramModel.FormatError>)
    requires forall i :: 0 <= i < |order| ==> order[i] in m
    requires forall i, j :: 0 <= i < j < |order| ==> order[i] != order[j]
    requires forall k :: k in m ==> key(keyText(k)) == Success(k) && m[k] < NgramModel.U64Limit
    ensures NgramModel.ReadTable(TableMembers(m, order, keyText), key)
            == Success((Restrict(m, Elements(order)), WrittenTotal(m, order)))
  {
    if order == [] {
      assert Restrict(m, Elements(order)) == map[];
    } else {
      var p := order[..|order| - 1];
      assert forall i :: 0 <= i < |p| ==> p[i] == order[i];
      ReadWrittenTable(m, p, keyText, key);
      ReadWrittenSnoc(m, order, keyText, key);
    }
  }

  /** Reading back a whole counter written with an enumeration of its keys gives the counter and its sum. */
  lemma ReadWrittenCounter<K(!new)>(m: map<K, nat>, order: seq<K>, keyText: K -> string, key: string -> Result<K, NgramModel.FormatError>)
    requires Enumerates(order, m)
    requires forall k :: k in m ==> key(keyText(k)) == Success(k) && m[k] < NgramModel.U64Limit
    ensures NgramModel.ReadTable(TableMembers(m, order, keyText), key) == Success((m, Sum(m)))
  {
    ReadWrittenTable(m, order, keyText, key);
    WrittenTotalIsSum(m, order);
    assert Restrict(m, Elements(order)) == m by {
      forall k | k in m ensures k in Elements(order) {
        var i :| 0 <= i < |order| && order[i] == k;
      }
    }
  }

  /** The scorer finds the two tables under their names. */
  lemma ModelJsonFields(unigrams: map<char, nat>, bigrams: map<(char, char), nat>, uorder: seq<char>, border: seq<(char, char)>)
    requires forall i :: 0 <= i < |uorder| ==> uorder[i] in unigrams
    requires forall i :: 0 <= i < |border| ==> border[i] in bigrams
    ensures NgramModel.ObjectField(ModelJson(unigrams, bigrams, uorder, border), "unigrams") == Some(TableMembers(unigrams, uorder, UnigramKeyText))
    ensures NgramModel.ObjectField(ModelJson(unigrams, bigrams, uorder, border), "bigrams") == Some(TableMembers(bigrams, border, BigramKeyText))
  {
    var members := ModelJson(unigrams, bigrams, uorder, border).members;
    assert "metadata"[0] != "unigrams"[0] && "metadata"[0] != "bigrams"[0] && "unigrams"[0] != "bigrams"[0];
    assert NgramModel.Find(members, "unigrams") == NgramModel.Find(members[1..], "unigrams") == Some(members[1].1);
    var last := members[1..][1..];
    assert last == [members[2]];
    assert NgramModel.Find(members, "bigrams") == NgramModel.Find(members[1..], "bigrams") == NgramModel.Find(last, "bigrams");
    assert NgramModel.Find(last, "bigrams") == Some(members[2].1);
  }

  /**
   * The scorer reads the trainer's file back into exactly the counters
   * written, with the unigram total as its corpus size, whenever the counts
   * fit a `u64` and no bigram holds a bar.
   */
  lemma ModelJsonReadsBack(unigrams: map<char, nat>, bigrams: map<(char, char), nat>, uorder: seq<char>, border: seq<(char, char)>)
    requires Enumerates(uorder, unigrams) && Enumerates(border, bigrams)
    requires forall c :: c in unigrams ==> unigrams[c] < NgramModel.U64Limit
    requires forall p :: p in bigrams ==> bigrams[p] < NgramModel.U64Limit && p.0 != '|' && p.1 != '|'
    ensures NgramModel.FromJson(ModelJson(unigrams, bigrams, uorder, border))
            == Success(NgramModel.NgramModel(unigrams, bigrams, Sum(unigrams)))
  {
    ModelJsonFields(unigrams, bigrams, uorder, border);
    forall c | c in unigrams ensures NgramModel.UnigramKey(UnigramKeyText(c)) == Success(c) {
      UnigramKeyRoundTrip(c);
    }
    forall p | p in bigrams ensures NgramModel.BigramKey(BigramKeyText(p)) == Success(p) {
      BigramKeyRoundTrip(p);
    }
    ReadWrittenCounter(unigrams, uorder, UnigramKeyText, NgramModel.UnigramKey);
    ReadWrittenCounter(bigrams, border, BigramKeyText, NgramModel.BigramKey);
  }

  /** No count exceeds the length of what was counted. */
  lemma {:induction false} CountsBounded<K>(xs: seq<K>, k: K)
    requires k in Counts(xs)
    ensures Counts(xs)[k] <= |xs|
  {
    if xs != [] {
      var p := xs[..|xs| - 1];
      if k in Counts(p) {
        CountsBounded(p, k);
      }
    }
  }

  /**
   * Training on a text of fewer than 2^64 characters and writing the model
   * gives a file the scorer reads back into the trained counters; without
   * the filter its corpus size is the number of syllables.
   */
  lemma TrainedModelReadsBack(text: string, minFreq: int, uorder: seq<char>, border: seq<(char, char)>)
    requires |text| < NgramModel.U64Limit
    requires Enumerates(uorder, Filtered(Counts(ExtractHangul(text)), minFreq))
    requires Enumerates(border, Filtered(Counts(Pairs(ExtractHangul(text))), minFreq))
    ensures var h := ExtractHangul(text);
            var unigrams := Filtered(Counts(h), minFreq);
            var bigrams := Filtered(Counts(Pairs(h)), minFreq);
            NgramModel.FromJson(ModelJson(unigrams, bigrams, uorder, border)) == Success(NgramModel.NgramModel(unigrams, bigrams, Sum(unigrams)))
            && (minFreq <= 1 ==> Sum(unigrams) == |h|)
  {
    var h := ExtractHangul(text);
    var unigrams := Filtered(Counts(h), minFreq);
    var bigrams := Filtered(Counts(Pairs(h)), minFreq);
    forall c | c in unigrams ensures unigrams[c] < NgramModel.U64Limit {
      CountsBounded(h, c);
    }
    forall p | p in bigrams ensures bigrams[p] < NgramModel.U64Limit && p.0 != '|' && p.1 != '|' {
      CountsBounded(Pairs(h), p);
      CountsAreOccurrences(Pairs(h), p);
      var i :| 0 <= i < |Pairs(h)| && Pairs(h)[i] == p;
      assert IsHangulSyllable([h[i]]) && IsHangulSyllable([h[i + 1]]);
    }
    ModelJsonReadsBack(unigrams, bigrams, uorder, border);
    CountsTotal(h);
  }

  lemma TrainerExample()
    ensures ExtractHangul("안녕 hi 하세요!") == "안녕하세요"
    ensures Pairs("안녕하세요")[1] == ('녕', '하')
  {
  }
}
