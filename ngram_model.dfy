/**
 * The n-gram model: syllable unigram and bigram frequency tables read from
 * a JSON value, lookups that default to zero, and the average add-k
 * smoothed bigram log probability of a text.
 *
 * The JSON value is abstract (the parser that produced it is not part of
 * this model); an object is the sequence of its members in iteration
 * order. The natural logarithm is a parameter `ln` of the scoring
 * functions, so only the arithmetic around it is modelled.
 */
module NgramModel {
  import Text
  import opened Wrappers
  import opened NgramConfig

  datatype Json =
    | JNull
    | JBool(b: bool)
    | JInt(n: int)          // a number written without fraction or exponent
    | JFloat(x: real)       // any other number
    | JString(s: string)
    | JArray(items: seq<Json>)
    | JObject(members: seq<(string, Json)>)

  /** Why a JSON value is not a model. */
  datatype FormatError =
    | MissingUnigrams
    | EmptyUnigramKey(key: string)
    | InvalidCount(key: string)
    | MissingBigrams
    | BadBigramFormat(key: string)
    | EmptyBigramFirst(key: string)
    | EmptyBigramSecond(key: string)

  datatype NgramModel = NgramModel(unigrams: map<char, nat>, bigrams: map<(char, char), nat>, totalUnigrams: nat)

  const U64Limit: nat := 0x1_0000_0000_0000_0000

  /** The value as an unsigned 64-bit integer, if it is one. */
  function AsU64(v: Json): (r: Option<nat>)
    ensures r.Some? <==> v.JInt? && 0 <= v.n < U64Limit
    ensures r.Some? ==> r.value == v.n
  {
    if v.JInt? && 0 <= v.n < U64Limit then Some(v.n) else None
  }

  /** The value of the first member named `name`. */
  function Find(members: seq<(string, Json)>, name: string): (r: Option<Json>)
    ensures r.Some? ==> name in Names(members)
  {
    if members == [] then None
    else if members[0].0 == name then Some(members[0].1)
    else Find(members[1..], name)
  }

  /** The member names, in order. */
  function Names(members: seq<(string, Json)>): (r: seq<string>)
    ensures |r| == |members|
    ensures forall i :: 0 <= i < |members| ==> r[i] == members[i].0
  {
    seq(|members|, i requires 0 <= i < |members| => members[i].0)
  }

  /** `Find` gives nothing exactly when no member has the name. */
  lemma {:induction false} FindNone(members: seq<(string, Json)>, name: string)
    ensures Find(members, name).None? <==> name !in Names(members)
  {
    if members != [] && members[0].0 != name {
      FindNone(members[1..], name);
      assert Names(members) == [members[0].0] + Names(members[1..]);
    } else if members != [] {
      assert Names(members)[0] == name;
    }
  }

  /** `Find` gives the value of the first member with the name. */
  lemma {:induction false} FindIsFirst(members: seq<(string, Json)>, name: string)
    requires Find(members, name).Some?
    ensures exists i :: 0 <= i < |members| && members[i] == (name, Find(members, name).value)
                        && name !in Names(members[..i])
  {
    if members[0].0 == name {
      assert Names(members[..0]) == [];
    } else {
      var tail := members[1..];
      FindIsFirst(tail, name);
      var v := Find(tail, name).value;
      var i :| 0 <= i < |tail| && tail[i] == (name, v) && name !in Names(tail[..i]);
      FirstAfterHead(members, i, name);
    }
  }

  lemma FirstAfterHead(members: seq<(string, Json)>, i: nat, name: string)
    requires 0 <= i < |members| - 1 && members[0].0 != name && name !in Names(members[1..][..i])
    ensures name !in Names(members[..i + 1])
  {
    assert members[..i + 1] == [members[0]] + members[1..][..i];
    assert Names(members[..i + 1]) == [members[0].0] + Names(members[1..][..i]);
  }

  /** The members of field `name` of `v`, when `v` is an object and that field is an object too. */
  function ObjectField(v: Json, name: string): (r: Option<seq<(string, Json)>>)
    ensures r.Some? <==> v.JObject? && Find(v.members, name).Some? && Find(v.members, name).value.JObject?
  {
    if v.JObject? then
      match Find(v.members, name)
      case Some(JObject(members)) => Some(members)
      case _ => None
    else None
  }

  /** Number of '|' characters in `s`. */
  function Bars(s: string): (r: nat)
    ensures r == 0 <==> '|' !in s
  {
    if s == [] then 0 else (if s[0] == '|' then 1 else 0) + Bars(s[1..])
  }

  /**
   * The two parts of `key` around its '|', when splitting on '|' gives
   * exactly two parts, that is when there is exactly one '|'.
   */
  function SplitBar(key: string): Option<(string, string)> {
    if key == [] then None
    else if key[0] == '|' then
      if '|' in key[1..] then None else Some(([], key[1..]))
    else
      match SplitBar(key[1..])
      case None => None
      case Some((a, b)) => Some(([key[0]] + a, b))
  }

  /** Splitting succeeds exactly on one '|', and the parts joined around it give the key back. */
  lemma {:induction false} SplitBarParts(key: string)
    ensures SplitBar(key).Some? <==> Bars(key) == 1
    ensures SplitBar(key).Some? ==>
              var (a, b) := SplitBar(key).value;
              key == a + "|" + b && '|' !in a && '|' !in b
    decreases |key|
  {
    if key != [] && key[0] != '|' {
      SplitBarParts(key[1..]);
      if SplitBar(key[1..]).Some? {
        var (a, b) := SplitBar(key[1..]).value;
        assert key == [key[0]] + key[1..];
        assert [key[0]] + (a + "|" + b) == ([key[0]] + a) + "|" + b;
      }
    } else if key != [] {
      assert key == "|" + key[1..];
      assert Bars(key[1..]) == 0 <==> '|' !in key[1..];
    }
  }

  /** A bigram key written as `a|b` splits back into `a` and `b`. */
  lemma {:induction false} SplitBarOfJoined(a: string, b: string)
    requires '|' !in a && '|' !in b
    ensures SplitBar(a + "|" + b) == Some((a, b))
    decreases |a|
  {
    var key := a + "|" + b;
    if a == [] {
      assert key[1..] == b;
    } else {
      assert key[0] == a[0] && key[1..] == a[1..] + "|" + b;
      SplitBarOfJoined(a[1..], b);
      assert [a[0]] + a[1..] == a;
    }
  }

  /** The table key of a unigram member: the first character of its name. */
  function UnigramKey(name: string): (r: Result<char, FormatError>)
    ensures r.Success? <==> name != []
    ensures r.Success? ==> r.value == name[0]
    ensures r.Failure? ==> r.error == EmptyUnigramKey(name)
  {
    if name == [] then Failure(EmptyUnigramKey(name)) else Success(name[0])
  }

  /** The table key of a bigram member `a|b`: the first characters of `a` and of `b`. */
  function BigramKey(name: string): (r: Result<(char, char), FormatError>)
    ensures r.Success? <==> SplitBar(name).Some? && SplitBar(name).value.0 != [] && SplitBar(name).value.1 != []
    ensures r.Success? ==> r.value == (SplitBar(name).value.0[0], SplitBar(name).value.1[0])
  {
    match SplitBar(name)
    case None => Failure(BadBigramFormat(name))
    case Some((a, b)) =>
      if a == [] then Failure(EmptyBigramFirst(name))
      else if b == [] then Failure(EmptyBigramSecond(name))
      else Success((a[0], b[0]))
  }

  /**
   * One member read into a table: the key from the name (error if the name
   * is bad), then the count (error if it is not a u64).
   */
  function ReadMember<K>(name: string, value: Json, key: string -> Result<K, FormatError>): (r: Result<(K, nat), FormatError>)
    ensures r.Success? <==> key(name).Success? && AsU64(value).Some?
    ensures r.Success? ==> r.value == (key(name).value, AsU64(value).value)
    ensures key(name).Failure? ==> r == Failure(key(name).error)
    ensures key(name).Success? && AsU64(value).None? ==> r == Failure(InvalidCount(name))
  {
    match key(name)
    case Failure(e) => Failure(e)
    case Success(k) =>
      match AsU64(value)
      case None => Failure(InvalidCount(name))
      case Some(n) => Success((k, n))
  }

  /**
   * The members read in order into a table, with the running sum of the
   * counts; the first bad member stops the reading with its error.
   */
  function ReadTable<K>(members: seq<(string, Json)>, key: string -> Result<K, FormatError>): Result<(map<K, nat>, nat), FormatError>
    decreases |members|
  {
    if members == [] then Success((map[], 0))
    else
      match ReadTable(members[..|members| - 1], key)
      case Failure(e) => Failure(e)
      case Success((table, total)) =>
        var last := members[|members| - 1];
        match ReadMember(last.0, last.1, key)
        case Failure(e) => Failure(e)
        case Success((k, n)) => Success((table[k := n], total + n))
  }

  /** Member `i` cannot be read. */
  predicate BadAt<K>(members: seq<(string, Json)>, key: string -> Result<K, FormatError>, i: int)
    requires 0 <= i < |members|
  {
    ReadMember(members[i].0, members[i].1, key).Failure?
  }

  /** The model the value describes, or the first format error met. */
  function FromJson(v: Json): Result<NgramModel, FormatError> {
    match ObjectField(v, "unigrams")
    case None => Failure(MissingUnigrams)
    case Some(us) =>
      match ReadTable(us, UnigramKey)
      case Failure(e) => Failure(e)
      case Success((unigrams, total)) =>
        match ObjectField(v, "bigrams")
        case None => Failure(MissingBigrams)
        case Some(bs) =>
          match ReadTable(bs, BigramKey)
          case Failure(e) => Failure(e)
          case Success((bigrams, _)) => Success(NgramModel(unigrams, bigrams, total))
  }

  /** Reads the unigram members, then the bigram members; each loop returns at the first bad member. */
  method FromJsonValue(v: Json) returns (r: Result<NgramModel, FormatError>)
    ensures r == FromJson(v)
  {
    var us := ObjectField(v, "unigrams");
    if us.None? {
      return Failure(MissingUnigrams);
    }
    var unigramTable := ReadUnigrams(us.value);
    if unigramTable.Failure? {
      return Failure(unigramTable.error);
    }
    var bs := ObjectField(v, "bigrams");
    if bs.None? {
      return Failure(MissingBigrams);
    }
    var bigramTable := ReadBigrams(bs.value);
    if bigramTable.Failure? {
      return Failure(bigramTable.error);
    }
    var (unigrams, total) := unigramTable.value;
    return Success(NgramModel(unigrams, bigramTable.value, total));
  }

  /** The unigram loop: each name's first character gets the member's count, and the counts are summed. */
  method ReadUnigrams(members: seq<(string, Json)>) returns (r: Result<(map<char, nat>, nat), FormatError>)
    ensures r == ReadTable(members, UnigramKey)
  {
    var unigrams: map<char, nat> := map[];
    var total := 0;
    for i := 0 to |members|
      invariant ReadTable(members[..i], UnigramKey) == Success((unigrams, total))
    {
      Text.PrefixSnoc(members, i);
      var (name, value) := members[i];
      if name == [] {
        ReadTableStopsAtError(members, UnigramKey, i + 1);
        return Failure(EmptyUnigramKey(name));
      }
      var count := AsU64(value);
      if count.None? {
        ReadTableStopsAtError(members, UnigramKey, i + 1);
        return Failure(InvalidCount(name));
      }
      unigrams := unigrams[name[0] := count.value];
      total := total + count.value;
    }
    Text.WholePrefix(members);
    return Success((unigrams, total));
  }

  /** A table reading without its running sum. */
  function TableOnly<K>(read: Result<(map<K, nat>, nat), FormatError>): Result<map<K, nat>, FormatError> {
    match read
    case Success((table, _)) => Success(table)
    case Failure(e) => Failure(e)
  }

  /** The bigram loop: each name `a|b` gives the pair of first characters of `a` and `b`. */
  method ReadBigrams(members: seq<(string, Json)>) returns (r: Result<map<(char, char), nat>, FormatError>)
    ensures r == TableOnly(ReadTable(members, BigramKey))
  {
    var bigrams: map<(char, char), nat> := map[];
    ghost var total := 0;
    for i := 0 to |members|
      invariant ReadTable(members[..i], BigramKey) == Success((bigrams, total))
    {
      ReadBigramFails(members, i);
      var (name, value) := members[i];
      var parts := SplitBar(name);
      if parts.None? {
        return Failure(BadBigramFormat(name));
      }
      var (first, second) := parts.value;
      if first == [] {
        return Failure(EmptyBigramFirst(name));
      }
      if second == [] {
        return Failure(EmptyBigramSecond(name));
      }
      var count := AsU64(value);
      if count.None? {
        return Failure(InvalidCount(name));
      }
      ReadBigramAdds(members, i);
      bigrams := bigrams[(first[0], second[0]) := count.value];
      total := total + count.value;
    }
    Text.WholePrefix(members);
    return Success(bigrams);
  }

  /** A bigram member that cannot be read ends the reading with its error. */
  lemma ReadBigramFails(members: seq<(string, Json)>, i: nat)
    requires i < |members| && ReadTable(members[..i], BigramKey).Success?
    ensures BigramKey(members[i].0).Failure? ==>
              TableOnly(ReadTable(members, BigramKey)) == Failure(BigramKey(members[i].0).error)
    ensures BigramKey(members[i].0).Success? && AsU64(members[i].1).None? ==>
              TableOnly(ReadTable(members, BigramKey)) == Failure(InvalidCount(members[i].0))
  {
    if BigramKey(members[i].0).Failure? || AsU64(members[i].1).None? {
      Text.PrefixSnoc(members, i);
      ReadTableStopsAtError(members, BigramKey, i + 1);
    }
  }

  /** A bigram member that can be read sets its pair's count and adds to the sum. */
  lemma ReadBigramAdds(members: seq<(string, Json)>, i: nat)
    requires i < |members| && ReadTable(members[..i], BigramKey).Success?
    requires BigramKey(members[i].0).Success? && AsU64(members[i].1).Some?
    ensures var read := ReadTable(members[..i], BigramKey).value;
            ReadTable(members[..i + 1], BigramKey)
            == Success((read.0[BigramKey(members[i].0).value := members[i].1.n], read.1 + members[i].1.n))
  {
    Text.PrefixSnoc(members, i);
  }

  /** Once a prefix fails, reading the whole sequence fails with the same error. */
  lemma {:induction false} ReadTableStopsAtError<K>(members: seq<(string, Json)>, key: string -> Result<K, FormatError>, i: nat)
    requires i <= |members| && ReadTable(members[..i], key).Failure?
    ensures ReadTable(members, key) == ReadTable(members[..i], key)
    decreases |members|
  {
    if i < |members| {
      var p := members[..|members| - 1];
      assert p[..i] == members[..i];
      ReadTableStopsAtError(p, key, i);
    } else {
      assert members[..i] == members;
    }
  }

  /** One more member: the reading of the longer sequence in terms of the shorter one. */
  lemma ReadTableLast<K>(members: seq<(string, Json)>, key: string -> Result<K, FormatError>)
    requires members != []
    ensures ReadTable(members, key).Success?
            <==> ReadTable(members[..|members| - 1], key).Success? && !BadAt(members, key, |members| - 1)
    ensures ReadTable(members[..|members| - 1], key).Failure?
            ==> ReadTable(members, key) == ReadTable(members[..|members| - 1], key)
    ensures ReadTable(members[..|members| - 1], key).Success? && BadAt(members, key, |members| - 1)
            ==> ReadTable(members, key).error == ReadMember(members[|members| - 1].0, members[|members| - 1].1, key).error
    ensures ReadTable(members, key).Success?
            ==> ReadTable(members, key).value
                == (ReadTable(members[..|members| - 1], key).value.0[key(members[|members| - 1].0).value := MemberCount(members[|members| - 1])],
                    ReadTable(members[..|members| - 1], key).value.1 + MemberCount(members[|members| - 1]))
  {
  }

  /** Reading succeeds exactly when every member can be read. */
  lemma {:induction false} ReadTableSucceedsIff<K>(members: seq<(string, Json)>, key: string -> Result<K, FormatError>)
    ensures ReadTable(members, key).Success? <==> forall i :: 0 <= i < |members| ==> !BadAt(members, key, i)
    decreases |members|
  {
    if members != [] {
      var p := members[..|members| - 1];
      ReadTableSucceedsIff(p, key);
      ReadTableLast(members, key);
      forall i | 0 <= i < |p|
        ensures BadAt(p, key, i) == BadAt(members, key, i)
      {
        assert p[i] == members[i];
      }
    }
  }

  /** A failed reading reports the error of the first bad member. */
  lemma {:induction false} ReadTableReportsFirstError<K>(members: seq<(string, Json)>, key: string -> Result<K, FormatError>)
    requires ReadTable(members, key).Failure?
    ensures exists i :: 0 <= i < |members| && BadAt(members, key, i)
              && (forall j :: 0 <= j < i ==> !BadAt(members, key, j))
              && ReadTable(members, key).error == ReadMember(members[i].0, members[i].1, key).error
    decreases |members|
  {
    var p := members[..|members| - 1];
    var n := |members| - 1;
    ReadTableLast(members, key);
    forall j | 0 <= j < |p|
      ensures BadAt(p, key, j) == BadAt(members, key, j)
      ensures ReadMember(p[j].0, p[j].1, key) == ReadMember(members[j].0, members[j].1, key)
    {
      assert p[j] == members[j];
    }
    if ReadTable(p, key).Failure? {
      ReadTableReportsFirstError(p, key);
      var i :| 0 <= i < |p| && BadAt(p, key, i)
                && (forall j :: 0 <= j < i ==> !BadAt(p, key, j))
                && ReadTable(p, key).error == ReadMember(p[i].0, p[i].1, key).error;
      assert BadAt(members, key, i);
    } else {
      ReadTableSucceedsIff(p, key);
      assert BadAt(members, key, n);
    }
  }

  /** The count a member holds, 0 if it is not a u64. */
  function MemberCount(m: (string, Json)): nat {
    if AsU64(m.1).Some? then AsU64(m.1).value else 0
  }

  /** The sum of the counts of the members, added from the front. */
  function CountSum(members: seq<(string, Json)>): nat {
    if members == [] then 0 else MemberCount(members[0]) + CountSum(members[1..])
  }

  lemma {:induction false} CountSumSnoc(members: seq<(string, Json)>)
    requires members != []
    ensures CountSum(members) == CountSum(members[..|members| - 1]) + MemberCount(members[|members| - 1])
    decreases |members|
  {
    if |members| > 1 {
      var t := members[1..];
      assert t[..|t| - 1] == members[..|members| - 1][1..];
      CountSumSnoc(t);
    }
  }

  /** The running sum of a successful reading is the sum of every count read. */
  lemma {:induction false} ReadTableTotal<K>(members: seq<(string, Json)>, key: string -> Result<K, FormatError>)
    requires ReadTable(members, key).Success?
    ensures ReadTable(members, key).value.1 == CountSum(members)
    decreases |members|
  {
    if members != [] {
      ReadTableTotal(members[..|members| - 1], key);
      CountSumSnoc(members);
    }
  }

  /** The key member `i` gives. */
  ghost predicate KeyAt<K>(members: seq<(string, Json)>, key: string -> Result<K, FormatError>, i: int, k: K)
    requires 0 <= i < |members|
  {
    key(members[i].0) == Success(k)
  }

  /** The table of a successful reading holds exactly the keys of the members. */
  lemma {:induction false} ReadTableKeys<K>(members: seq<(string, Json)>, key: string -> Result<K, FormatError>, k: K)
    requires ReadTable(members, key).Success?
    ensures k in ReadTable(members, key).value.0 <==> exists i :: 0 <= i < |members| && KeyAt(members, key, i, k)
    decreases |members|
  {
    if members != [] {
      var p := members[..|members| - 1];
      ReadTableLast(members, key);
      ReadTableKeys(p, key, k);
      var n := |members| - 1;
      assert !BadAt(members, key, n);
      assert KeyAt(members, key, n, k) <==> key(members[n].0).value == k;
      forall i | 0 <= i < |p|
        ensures KeyAt(p, key, i, k) == KeyAt(members, key, i, k)
      {
        assert p[i] == members[i];
      }
      if k in ReadTable(p, key).value.0 {
        var i :| 0 <= i < |p| && KeyAt(p, key, i, k);
        assert KeyAt(members, key, i, k);
      }
    }
  }

  /** A key's count is the count of the last member with that key. */
  lemma {:induction false} ReadTableLastWins<K>(members: seq<(string, Json)>, key: string -> Result<K, FormatError>, i: nat, k: K)
    requires ReadTable(members, key).Success?
    requires i < |members| && KeyAt(members, key, i, k)
    requires forall j :: i < j < |members| ==> !KeyAt(members, key, j, k)
    ensures k in ReadTable(members, key).value.0
    ensures ReadTable(members, key).value.0[k] == MemberCount(members[i])
    decreases |members|
  {
    ReadTableSucceedsIff(members, key);
    assert !BadAt(members, key, i);
    var p := members[..|members| - 1];
    ReadTableLast(members, key);
    if i < |p| {
      forall j | 0 <= j < |p|
        ensures KeyAt(p, key, j, k) == KeyAt(members, key, j, k)
      {
        assert p[j] == members[j];
      }
      ReadTableLastWins(p, key, i, k);
      assert !KeyAt(members, key, |members| - 1, k);
    }
  }

  /** A missing or non-object "unigrams" field is reported first. */
  lemma MissingUnigramsReported(v: Json)
    requires ObjectField(v, "unigrams").None?
    ensures FromJson(v) == Failure(MissingUnigrams)
  {
  }

  /** A missing or non-object "bigrams" field is reported once the unigrams are read. */
  lemma MissingBigramsReported(v: Json)
    requires ObjectField(v, "unigrams").Some? && ReadTable(ObjectField(v, "unigrams").value, UnigramKey).Success?
    requires ObjectField(v, "bigrams").None?
    ensures FromJson(v) == Failure(MissingBigrams)
  {
  }

  /** A well-formed model value: both tables present and every member readable. */
  predicate WellFormedJson(v: Json) {
    ObjectField(v, "unigrams").Some? && ObjectField(v, "bigrams").Some?
    && (forall i :: 0 <= i < |ObjectField(v, "unigrams").value| ==> !BadAt(ObjectField(v, "unigrams").value, UnigramKey, i))
    && (forall i :: 0 <= i < |ObjectField(v, "bigrams").value| ==> !BadAt(ObjectField(v, "bigrams").value, BigramKey, i))
  }

  /**
   * A value is a model exactly when it is well formed, and then the total
   * is the sum of the unigram counts.
   */
  lemma FromJsonSucceedsIff(v: Json)
    ensures FromJson(v).Success? <==> WellFormedJson(v)
    ensures FromJson(v).Success? ==> FromJson(v).value.totalUnigrams == CountSum(ObjectField(v, "unigrams").value)
  {
    if ObjectField(v, "unigrams").Some? {
      var us := ObjectField(v, "unigrams").value;
      ReadTableSucceedsIff(us, UnigramKey);
      if ReadTable(us, UnigramKey).Success? {
        ReadTableTotal(us, UnigramKey);
      }
      if ObjectField(v, "bigrams").Some? {
        ReadTableSucceedsIff(ObjectField(v, "bigrams").value, BigramKey);
      }
    }
  }

  /** Frequency of a syllable; 0 when it is not in the table. */
  function UnigramCount(m: NgramModel, c: char): (r: nat)
    ensures c !in m.unigrams ==> r == 0
    ensures c in m.unigrams ==> r == m.unigrams[c]
  {
    if c in m.unigrams then m.unigrams[c] else 0
  }

  /** Frequency of a pair of syllables; 0 when it is not in the table. */
  function BigramCount(m: NgramModel, first: char, second: char): (r: nat)
    ensures (first, second) !in m.bigrams ==> r == 0
    ensures (first, second) in m.bigrams ==> r == m.bigrams[(first, second)]
  {
    if (first, second) in m.bigrams then m.bigrams[(first, second)] else 0
  }

  /** The model with no data. */
  function Empty(): (r: NgramModel)
    ensures r.totalUnigrams == 0 && IsEmpty(r)
  {
    NgramModel(map[], map[], 0)
  }

  predicate IsEmpty(m: NgramModel) {
    |m.unigrams| == 0 && |m.bigrams| == 0
  }

  /** Number of distinct syllables and of distinct pairs in the tables. */
  function UnigramCountTotal(m: NgramModel): nat {
    |m.unigrams|
  }

  function BigramCountTotal(m: NgramModel): nat {
    |m.bigrams|
  }

  /** An empty model is exactly one whose tables have no keys, so every lookup is 0. */
  lemma EmptyHasNoCounts(m: NgramModel, c: char, d: char)
    requires IsEmpty(m)
    ensures UnigramCount(m, c) == 0 && BigramCount(m, c, d) == 0
  {
    assert c !in m.unigrams.Keys;
    assert (c, d) !in m.bigrams.Keys;
  }

  /** Two empty tables read to the empty model. */
  lemma EmptyTablesReadToEmpty()
    ensures FromJson(JObject([("unigrams", JObject([])), ("bigrams", JObject([]))])) == Success(Empty())
  {
  }

  /** A score: minus infinity, or a finite average log probability. */
  datatype LogScore = NegInfinity | Finite(value: real)

  /** The comparison `score >= threshold` on scores; minus infinity is below every threshold. */
  predicate AtLeast(s: LogScore, threshold: real) {
    s.Finite? && s.value >= threshold
  }

  /** Settings under which every smoothed probability has a positive denominator. */
  predicate Smoothing(cfg: NgramConfig) {
    cfg.smoothingK > 0.0 && cfg.vocabSize > 0
  }

  /** Add-k smoothed probability of `second` after `first`. */
  function WindowProb(m: NgramModel, first: char, second: char, cfg: NgramConfig): (r: real)
    requires Smoothing(cfg)
    ensures r > 0.0
  {
    var k := cfg.smoothingK;
    var denominator := UnigramCount(m, first) as real + k * cfg.vocabSize as real;
    assert denominator > 0.0;
    (BigramCount(m, first, second) as real + k) / denominator
  }

  /** Sum of the log probabilities of the adjacent pairs of `chars`. */
  function LogProbSum(m: NgramModel, chars: string, cfg: NgramConfig, ln: real -> real): real
    requires Smoothing(cfg)
  {
    if |chars| < 2 then 0.0
    else LogProbSum(m, chars[..|chars| - 1], cfg, ln) + ln(WindowProb(m, chars[|chars| - 2], chars[|chars| - 1], cfg))
  }

  /** Add-k smoothed log probability of one syllable; minus infinity when the model saw nothing. */
  function UnigramLogProb(m: NgramModel, c: char, cfg: NgramConfig, ln: real -> real): (r: LogScore)
    requires Smoothing(cfg)
    ensures r.NegInfinity? <==> m.totalUnigrams == 0
  {
    if m.totalUnigrams == 0 then NegInfinity else Finite(ln(UnigramProb(m, c, cfg)))
  }

  /** Add-k smoothed probability of one syllable, for a model that saw some text. */
  function UnigramProb(m: NgramModel, c: char, cfg: NgramConfig): (r: real)
    requires Smoothing(cfg) && m.totalUnigrams > 0
    ensures r > 0.0
  {
    var k := cfg.smoothingK;
    (UnigramCount(m, c) as real + k) / (m.totalUnigrams as real + k * cfg.vocabSize as real)
  }

  /**
   * The score of a text: minus infinity when it is empty, the unigram log
   * probability of a single syllable, otherwise the mean over its adjacent
   * pairs.
   */
  function TextScore(m: NgramModel, text: string, cfg: NgramConfig, ln: real -> real): LogScore
    requires Smoothing(cfg)
  {
    if |text| == 0 then NegInfinity
    else if |text| == 1 then UnigramLogProb(m, text[0], cfg, ln)
    else Finite(LogProbSum(m, text, cfg, ln) / (|text| - 1) as real)
  }

  /** Walks the adjacent pairs, summing and counting their log probabilities, then averages. */
  method ScoreWithConfig(m: NgramModel, text: string, cfg: NgramConfig, ln: real -> real) returns (r: LogScore)
    requires Smoothing(cfg)
    ensures r == TextScore(m, text, cfg, ln)
  {
    if |text| < 2 {
      if |text| == 0 {
        return NegInfinity;
      }
      return UnigramLogProb(m, text[0], cfg, ln);
    }
    var logProbSum := 0.0;
    var count := 0;
    for i := 0 to |text| - 1
      invariant count == i
      invariant logProbSum == LogProbSum(m, text[..i + 1], cfg, ln)
    {
      var prefix := text[..i + 2];
      assert prefix[..i + 1] == text[..i + 1];
      var prob := WindowProb(m, text[i], text[i + 1], cfg);
      logProbSum := logProbSum + ln(prob);
      count := count + 1;
    }
    Text.WholePrefix(text);
    if count == 0 {
      assert false;
      return NegInfinity;
    }
    r := Finite(logProbSum / count as real);
  }

  /** `score` is the score under the default settings. */
  method Score(m: NgramModel, text: string, ln: real -> real) returns (r: LogScore)
    ensures r == TextScore(m, text, Default(), ln)
  {
    r := ScoreWithConfig(m, text, Default(), ln);
  }

  lemma PairProbUsesOnlySmoothing(m: NgramModel, a: char, b: char, c1: NgramConfig, c2: NgramConfig)
    requires Smoothing(c1) && c1.smoothingK == c2.smoothingK && c1.vocabSize == c2.vocabSize
    ensures Smoothing(c2) && WindowProb(m, a, b, c1) == WindowProb(m, a, b, c2)
  {
  }

  lemma UnigramUsesOnlySmoothing(m: NgramModel, c: char, c1: NgramConfig, c2: NgramConfig, ln: real -> real)
    requires Smoothing(c1) && c1.smoothingK == c2.smoothingK && c1.vocabSize == c2.vocabSize
    ensures Smoothing(c2) && UnigramLogProb(m, c, c1, ln) == UnigramLogProb(m, c, c2, ln)
  {
    if m.totalUnigrams > 0 {
      assert UnigramProb(m, c, c1) == UnigramProb(m, c, c2);
    }
  }

  /** The score depends on the settings only through the smoothing constant and the vocabulary size. */
  lemma {:induction false} ScoreUsesOnlySmoothing(m: NgramModel, text: string, c1: NgramConfig, c2: NgramConfig, ln: real -> real)
    requires Smoothing(c1) && c1.smoothingK == c2.smoothingK && c1.vocabSize == c2.vocabSize
    ensures Smoothing(c2)
    ensures LogProbSum(m, text, c1, ln) == LogProbSum(m, text, c2, ln)
    ensures TextScore(m, text, c1, ln) == TextScore(m, text, c2, ln)
    decreases |text|
  {
    if |text| >= 2 {
      ScoreUsesOnlySmoothing(m, text[..|text| - 1], c1, c2, ln);
      PairProbUsesOnlySmoothing(m, text[|text| - 2], text[|text| - 1], c1, c2);
    } else if |text| == 1 {
      UnigramUsesOnlySmoothing(m, text[0], c1, c2, ln);
    }
  }

  /** The score is minus infinity exactly for the empty text, or a single syllable under a model with no data. */
  lemma ScoreNegInfinityIff(m: NgramModel, text: string, cfg: NgramConfig, ln: real -> real)
    requires Smoothing(cfg)
    ensures TextScore(m, text, cfg, ln).NegInfinity? <==> |text| == 0 || (|text| == 1 && m.totalUnigrams == 0)
  {
  }

  /** A log probability of pair `i` of `chars`. */
  function PairLogProb(m: NgramModel, chars: string, cfg: NgramConfig, ln: real -> real, i: nat): real
    requires Smoothing(cfg) && i + 1 < |chars|
  {
    ln(WindowProb(m, chars[i], chars[i + 1], cfg))
  }

  /** When every pair's log probability lies in [lo, hi], so does their sum divided by the number of pairs. */
  lemma {:induction false} LogProbSumBetween(m: NgramModel, chars: string, cfg: NgramConfig, ln: real -> real, lo: real, hi: real)
    requires Smoothing(cfg) && |chars| >= 1
    requires forall i: nat :: i + 1 < |chars| ==> lo <= PairLogProb(m, chars, cfg, ln, i) <= hi
    ensures (|chars| - 1) as real * lo <= LogProbSum(m, chars, cfg, ln) <= (|chars| - 1) as real * hi
    decreases |chars|
  {
    if |chars| >= 2 {
      var p := chars[..|chars| - 1];
      forall i: nat | i + 1 < |p|
        ensures lo <= PairLogProb(m, p, cfg, ln, i) <= hi
      {
        assert PairLogProb(m, p, cfg, ln, i) == PairLogProb(m, chars, cfg, ln, i);
      }
      LogProbSumBetween(m, p, cfg, ln, lo, hi);
      assert PairLogProb(m, chars, cfg, ln, |chars| - 2) == ln(WindowProb(m, chars[|chars| - 2], chars[|chars| - 1], cfg));
    }
  }

  lemma MeanBetween(sum: real, n: nat, lo: real, hi: real)
    requires n > 0 && n as real * lo <= sum <= n as real * hi
    ensures lo <= sum / n as real <= hi
  {
    var q := sum / n as real;
    assert q * n as real == sum;
  }

  /** The score of a text of two or more syllables lies between its lowest and highest pair log probability. */
  lemma ScoreBetweenPairs(m: NgramModel, text: string, cfg: NgramConfig, ln: real -> real, lo: real, hi: real)
    requires Smoothing(cfg) && |text| >= 2
    requires forall i: nat :: i + 1 < |text| ==> lo <= PairLogProb(m, text, cfg, ln, i) <= hi
    ensures TextScore(m, text, cfg, ln).Finite?
    ensures lo <= TextScore(m, text, cfg, ln).value <= hi
  {
    LogProbSumBetween(m, text, cfg, ln, lo, hi);
    MeanBetween(LogProbSum(m, text, cfg, ln), |text| - 1, lo, hi);
  }

  /** Under a model with no data every pair has probability 1 / V. */
  lemma EmptyModelPairProb(m: NgramModel, a: char, b: char, cfg: NgramConfig)
    requires Smoothing(cfg) && IsEmpty(m)
    ensures WindowProb(m, a, b, cfg) == 1.0 / cfg.vocabSize as real
  {
    EmptyHasNoCounts(m, a, b);
    var k := cfg.smoothingK;
    var v := cfg.vocabSize as real;
    assert WindowProb(m, a, b, cfg) == k / (k * v);
    assert k / (k * v) == 1.0 / v;
  }

  /** A model with no data scores every text of two or more syllables ln(1 / V). */
  lemma EmptyModelScore(m: NgramModel, text: string, cfg: NgramConfig, ln: real -> real)
    requires Smoothing(cfg) && IsEmpty(m) && |text| >= 2
    ensures TextScore(m, text, cfg, ln) == Finite(ln(1.0 / cfg.vocabSize as real))
  {
    var c := ln(1.0 / cfg.vocabSize as real);
    forall i: nat | i + 1 < |text|
      ensures c <= PairLogProb(m, text, cfg, ln, i) <= c
    {
      EmptyModelPairProb(m, text[i], text[i + 1], cfg);
    }
    ScoreBetweenPairs(m, text, cfg, ln, c, c);
  }

  // The source's own test cases.
  lemma InvalidBigramKeyRejected()
    ensures BigramKey("가나") == Failure(BadBigramFormat("가나"))
  {
  }

  lemma NonObjectUnigramsRejected()
    ensures FromJson(JObject([("unigrams", JString("not an object"))])) == Failure(MissingUnigrams)
  {
  }

  lemma BigramKeyOfPair()
    ensures BigramKey("안|녕") == Success(('안', '녕'))
  {
    SplitBarOfJoined("안", "녕");
  }

  /** The model of the source's scoring test: two syllables and the pair between them. */
  const SampleJson: Json := JObject([
    ("metadata", JObject([])),
    ("unigrams", JObject([("안", JInt(100)), ("녕", JInt(80))])),
    ("bigrams", JObject([("안|녕", JInt(50))]))
  ])

  lemma SampleUnigramsRead()
    ensures ReadTable([("안", JInt(100)), ("녕", JInt(80))], UnigramKey) == Success((map['안' := 100, '녕' := 80], 180))
  {
    assert [("안", JInt(100)), ("녕", JInt(80))][..1] == [("안", JInt(100))];
    assert [("안", JInt(100))][..0] == [];
  }

  lemma SampleBigramsRead()
    ensures ReadTable([("안|녕", JInt(50))], BigramKey) == Success((map[('안', '녕') := 50], 50))
  {
    BigramKeyOfPair();
    assert [("안|녕", JInt(50))][..0] == [];
  }

  lemma SampleModelReads()
    ensures FromJson(SampleJson) == Success(NgramModel(map['안' := 100, '녕' := 80], map[('안', '녕') := 50], 180))
  {
    SampleUnigramsRead();
    SampleBigramsRead();
    assert ObjectField(SampleJson, "unigrams") == Some([("안", JInt(100)), ("녕", JInt(80))]);
    assert ObjectField(SampleJson, "bigrams") == Some([("안|녕", JInt(50))]);
  }

  lemma SampleModelLookups(m: NgramModel)
    requires FromJson(SampleJson) == Success(m)
    ensures UnigramCount(m, '안') == 100 && UnigramCount(m, '없') == 0
    ensures BigramCount(m, '안', '녕') == 50 && BigramCount(m, '없', '음') == 0
  {
    SampleModelReads();
  }
}
