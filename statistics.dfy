/** Per-student and per-topic statistics: an attempt count, the running sum
    of percentages and the rounded average percentage, kept per key in a
    JavaScript object. The object is modelled as an association list in the
    order its keys were first inserted, which is the order in which
    `Object.keys` and `Object.entries` list string keys. */
module Statistics {

  import opened Wrappers
  import opened Js
  import opened Results

  /** Which field of a result the statistics are keyed by. */
  datatype Key = ByStudent | ByTopic

  function KeyOf(r: QuizResult, key: Key): string
  {
    match key
    case ByStudent => r.studentName
    case ByTopic => r.topic
  }

  function KeyIs(key: Key, k: string): Criterion
  {
    match key
    case ByStudent => StudentIs(k)
    case ByTopic => TopicIs(k)
  }

  /** `{ count, totalScore, avgScore }` (the dashboard calls the count `attempts`). */
  datatype Stat = Stat(count: nat, totalScore: real, avgScore: int)

  type Entry = (string, Stat)

  function KeysOf(es: seq<Entry>): (ks: seq<string>)
    ensures |ks| == |es| && forall i :: 0 <= i < |es| ==> ks[i] == es[i].0
  {
    if es == [] then [] else [es[0].0] + KeysOf(es[1..])
  }

  predicate Distinct(ks: seq<string>)
  {
    forall i, j :: 0 <= i < j < |ks| ==> ks[i] != ks[j]
  }

  /** `data[k]`: the value stored under `k`, if any. */
  function Lookup(es: seq<Entry>, k: string): Option<Stat>
  {
    if es == [] then None else if es[0].0 == k then Some(es[0].1) else Lookup(es[1..], k)
  }

  // ---------------------------------------------------------------------
  // What the statistics mean

  /** The keys of `rs`, each once, in the order of their first appearance. */
  function Keys(rs: seq<QuizResult>, key: Key): seq<string>
  {
    if rs == [] then []
    else
      var ks := Keys(rs[..|rs| - 1], key);
      var k := KeyOf(rs[|rs| - 1], key);
      if k in ks then ks else ks + [k]
  }

  /** Each key once, and exactly the keys that some result carries. */
  lemma {:induction false} KeysSpec(rs: seq<QuizResult>, key: Key)
    ensures Distinct(Keys(rs, key))
    ensures forall k :: k in Keys(rs, key) <==> exists i :: 0 <= i < |rs| && KeyOf(rs[i], key) == k
  {
    if rs != [] {
      var init := rs[..|rs| - 1];
      KeysSpec(init, key);
      assert forall i :: 0 <= i < |init| ==> init[i] == rs[i];
    }
  }

  /** The results filed under `k`. */
  function Group(rs: seq<QuizResult>, key: Key, k: string): seq<QuizResult>
  {
    Select(rs, KeyIs(key, k))
  }

  /** A key that never occurs has no results. */
  lemma GroupOfAbsentKey(rs: seq<QuizResult>, key: Key, k: string)
    requires k !in Keys(rs, key)
    ensures Group(rs, key, k) == []
  {
    KeysSpec(rs, key);
    SelectDropsAll(rs, KeyIs(key, k));
  }

  /** A key that occurs has at least one result. */
  lemma GroupOfPresentKey(rs: seq<QuizResult>, key: Key, k: string)
    requires k in Keys(rs, key)
    ensures |Group(rs, key, k)| > 0
  {
    KeysSpec(rs, key);
    var i :| 0 <= i < |rs| && KeyOf(rs[i], key) == k;
    SelectMembership(rs, KeyIs(key, k), rs[i]);
  }

  /** The count and the sum of percentages for `k`, before the average is set. */
  function Tally(rs: seq<QuizResult>, key: Key, k: string): Stat
  {
    var g := Group(rs, key, k);
    Stat(|g|, SumPercent(g), 0)
  }

  function TallyKeys(rs: seq<QuizResult>, key: Key, ks: seq<string>): (es: seq<Entry>)
    ensures |es| == |ks| && forall i :: 0 <= i < |ks| ==> es[i] == (ks[i], Tally(rs, key, ks[i]))
  {
    if ks == [] then [] else [(ks[0], Tally(rs, key, ks[0]))] + TallyKeys(rs, key, ks[1..])
  }

  /** The dictionary after the first pass: one entry per key with its count
      and its sum of percentages, the average still 0. */
  function Tallied(rs: seq<QuizResult>, key: Key): seq<Entry>
  {
    TallyKeys(rs, key, Keys(rs, key))
  }

  predicate PositiveCounts(es: seq<Entry>)
  {
    forall i :: 0 <= i < |es| ==> es[i].1.count > 0
  }

  lemma TalliedCountsPositive(rs: seq<QuizResult>, key: Key)
    ensures PositiveCounts(Tallied(rs, key))
  {
    var ks := Keys(rs, key);
    forall i | 0 <= i < |ks| ensures Tallied(rs, key)[i].1.count > 0 {
      GroupOfPresentKey(rs, key, ks[i]);
    }
  }

  /** `Math.round(totalScore / count)` stored as the average. */
  function WithAverage(e: Entry): Entry
    requires e.1.count > 0
  {
    (e.0, e.1.(avgScore := Round(e.1.totalScore / e.1.count as real)))
  }

  /** The second pass: every entry gets its rounded average. */
  function Averaged(es: seq<Entry>): (r: seq<Entry>)
    requires PositiveCounts(es)
    ensures |r| == |es| && forall i :: 0 <= i < |es| ==> r[i] == WithAverage(es[i])
  {
    if es == [] then [] else [WithAverage(es[0])] + Averaged(es[1..])
  }

  /** The statistics of `rs` keyed by `key`, as `calculateStats` leaves them. */
  function Stats(rs: seq<QuizResult>, key: Key): seq<Entry>
  {
    TalliedCountsPositive(rs, key);
    Averaged(Tallied(rs, key))
  }

  // ---------------------------------------------------------------------
  // The first pass, one result at a time

  /** One more attempt with percentage `p`. */
  function Bumped(s: Stat, p: real): Stat
  {
    s.(count := s.count + 1, totalScore := s.totalScore + p)
  }

  /** `if (!data[k]) data[k] = { count: 0, totalScore: 0, avgScore: 0 };
      data[k].count += 1; data[k].totalScore += p`. */
  function Bump(es: seq<Entry>, k: string, p: real): seq<Entry>
  {
    if es == [] then [(k, Stat(1, p, 0))]
    else if es[0].0 == k then [(k, Bumped(es[0].1, p))] + es[1..]
    else [es[0]] + Bump(es[1..], k, p)
  }

  /** One more result changes the tally of its own key only. */
  lemma TallySnoc(rs: seq<QuizResult>, r: QuizResult, key: Key, k: string)
    ensures Tally(rs + [r], key, k)
      == if KeyOf(r, key) == k then Bumped(Tally(rs, key, k), Percent(r)) else Tally(rs, key, k)
  {
    var s := rs + [r];
    assert s[..|s| - 1] == rs;
    var g := Group(rs, key, k);
    if KeyOf(r, key) == k {
      assert Group(s, key, k) == g + [r];
      assert (g + [r])[..|g|] == g;
    } else {
      assert Group(s, key, k) == g;
    }
  }

  lemma DistinctTail(ks: seq<string>)
    requires ks != [] && Distinct(ks)
    ensures Distinct(ks[1..]) && ks[0] !in ks[1..]
  {
    var t := ks[1..];
    forall i, j | 0 <= i < j < |t| ensures t[i] != t[j] {
      assert t[i] == ks[i + 1] && t[j] == ks[j + 1];
    }
    forall j | 0 <= j < |t| ensures t[j] != ks[0] {
      assert t[j] == ks[j + 1];
    }
  }

  /** The entries of keys other than the new result's do not change. */
  lemma {:induction false} TallyKeysOther(rs: seq<QuizResult>, r: QuizResult, key: Key, ks: seq<string>)
    requires KeyOf(r, key) !in ks
    ensures TallyKeys(rs + [r], key, ks) == TallyKeys(rs, key, ks)
  {
    if ks != [] {
      TallySnoc(rs, r, key, ks[0]);
      TallyKeysOther(rs, r, key, ks[1..]);
    }
  }

  /** `Bump` on the entries of distinct keys `ks`: the entry of the new
      result's key is bumped, or appended when that key has no results yet. */
  lemma {:induction false} BumpTallyKeys(rs: seq<QuizResult>, r: QuizResult, key: Key, ks: seq<string>)
    requires Distinct(ks)
    requires KeyOf(r, key) !in ks ==> Group(rs, key, KeyOf(r, key)) == []
    ensures Bump(TallyKeys(rs, key, ks), KeyOf(r, key), Percent(r))
         == TallyKeys(rs + [r], key, if KeyOf(r, key) in ks then ks else ks + [KeyOf(r, key)])
  {
    var k := KeyOf(r, key);
    TallySnoc(rs, r, key, k);
    if ks != [] {
      DistinctTail(ks);
      TallySnoc(rs, r, key, ks[0]);
      if ks[0] == k {
        TallyKeysOther(rs, r, key, ks[1..]);
      } else {
        BumpTallyKeys(rs, r, key, ks[1..]);
        var longer := if k in ks then ks else ks + [k];
        assert longer[0] == ks[0];
        assert longer[1..] == if k in ks[1..] then ks[1..] else ks[1..] + [k];
      }
    }
  }

  /** Adding one more result to the first pass gives the first pass of the
      longer list: this is what makes the loop of `calculateStats` correct. */
  lemma BumpTallied(rs: seq<QuizResult>, key: Key)
    requires rs != []
    ensures var last := rs[|rs| - 1];
      Tallied(rs, key) == Bump(Tallied(rs[..|rs| - 1], key), KeyOf(last, key), Percent(last))
  {
    var init := rs[..|rs| - 1];
    var r := rs[|rs| - 1];
    var k := KeyOf(r, key);
    var ks := Keys(init, key);
    assert init + [r] == rs;
    assert Keys(rs, key) == if k in ks then ks else ks + [k];
    KeysSpec(init, key);
    if k !in ks {
      GroupOfAbsentKey(init, key, k);
    }
    BumpTallyKeys(init, r, key, ks);
  }

  /** One step of the first pass, stated on prefixes of the results. */
  lemma TallyStep(results: seq<QuizResult>, i: nat, key: Key)
    requires i < |results|
    ensures Tallied(results[..i + 1], key) == Bump(Tallied(results[..i], key), KeyOf(results[i], key), Percent(results[i]))
  {
    var s := results[..i + 1];
    BumpTallied(s, key);
    assert s[..|s| - 1] == results[..i];
  }

  // ---------------------------------------------------------------------
  // calculateStats

  /** The first `forEach` of the dashboard: tally `results` under one key. */
  method Accumulate(results: seq<QuizResult>, key: Key) returns (data: seq<Entry>)
    ensures data == Tallied(results, key)
  {
    data := [];
    for i := 0 to |results|
      invariant data == Tallied(results[..i], key)
    {
      var result := results[i];
      TallyStep(results, i, key);
      data := Bump(data, KeyOf(result, key), Percent(result));
    }
    assert results[..|results|] == results;
  }

  /** The second `forEach`: set every entry's rounded average. */
  method Finalize(data: seq<Entry>) returns (averaged: seq<Entry>)
    requires PositiveCounts(data)
    ensures averaged == Averaged(data)
  {
    averaged := data;
    for j := 0 to |data|
      invariant |averaged| == |data|
      invariant forall i :: 0 <= i < j ==> averaged[i] == WithAverage(data[i])
      invariant forall i :: j <= i < |data| ==> averaged[i] == data[i]
    {
      var (k, s) := averaged[j];
      averaged := averaged[j := (k, s.(avgScore := Round(s.totalScore / s.count as real)))];
    }
  }

  /** `calculateStats`: one pass tallying students and topics side by side,
      then one averaging pass per dictionary. */
  method CalculateStats(results: seq<QuizResult>) returns (studentStats: seq<Entry>, topicStats: seq<Entry>)
    ensures studentStats == Stats(results, ByStudent)
    ensures topicStats == Stats(results, ByTopic)
  {
    var studentData: seq<Entry> := [];
    var topicData: seq<Entry> := [];
    for i := 0 to |results|
      invariant studentData == Tallied(results[..i], ByStudent)
      invariant topicData == Tallied(results[..i], ByTopic)
    {
      var result := results[i];
      TallyStep(results, i, ByStudent);
      TallyStep(results, i, ByTopic);
      studentData := Bump(studentData, result.studentName, Percent(result));
      topicData := Bump(topicData, result.topic, Percent(result));
    }
    assert results[..|results|] == results;
    TalliedCountsPositive(results, ByStudent);
    TalliedCountsPositive(results, ByTopic);
    studentStats := Finalize(studentData);
    topicStats := Finalize(topicData);
  }

  // ---------------------------------------------------------------------
  // Properties of the statistics

  /** The keys are exactly the names (or topics) that occur in the results,
      each once, in order of first appearance; no results, no keys. */
  lemma StatsKeys(rs: seq<QuizResult>, key: Key)
    ensures KeysOf(Stats(rs, key)) == Keys(rs, key)
    ensures Distinct(KeysOf(Stats(rs, key)))
    ensures forall k :: k in KeysOf(Stats(rs, key)) <==> exists i :: 0 <= i < |rs| && KeyOf(rs[i], key) == k
    ensures rs == [] ==> Stats(rs, key) == []
  {
    KeysSpec(rs, key);
    assert KeysOf(Stats(rs, key)) == Keys(rs, key);
  }

  /** The first key is that of the first result: entries are created in the
      order the results are visited. */
  lemma {:induction false} FirstKeyOfStats(rs: seq<QuizResult>, key: Key)
    requires rs != []
    ensures |Stats(rs, key)| > 0 && Stats(rs, key)[0].0 == KeyOf(rs[0], key)
  {
    FirstKey(rs, key);
  }

  lemma {:induction false} FirstKey(rs: seq<QuizResult>, key: Key)
    requires rs != []
    ensures |Keys(rs, key)| > 0 && Keys(rs, key)[0] == KeyOf(rs[0], key)
  {
    var init := rs[..|rs| - 1];
    if init != [] {
      FirstKey(init, key);
      assert init[0] == rs[0];
    }
  }

  lemma {:induction false} LookupAt(es: seq<Entry>, j: nat)
    requires j < |es| && Distinct(KeysOf(es))
    ensures Lookup(es, es[j].0) == Some(es[j].1)
  {
    if j > 0 {
      assert es[0].0 != es[j].0 by { assert KeysOf(es)[0] != KeysOf(es)[j]; }
      assert KeysOf(es[1..]) == KeysOf(es)[1..];
      LookupAt(es[1..], j - 1);
    }
  }

  lemma {:induction false} LookupMissing(es: seq<Entry>, k: string)
    requires k !in KeysOf(es)
    ensures Lookup(es, k) == None
  {
    if es != [] {
      assert KeysOf(es)[0] == es[0].0;
      assert KeysOf(es[1..]) == KeysOf(es)[1..];
      LookupMissing(es[1..], k);
    }
  }

  /** Looking a key up in the statistics: nothing when no result carries it;
      otherwise the number of its results, the sum of their percentages and
      that sum divided by the count, rounded with `Math.round`. */
  lemma LookupStats(rs: seq<QuizResult>, key: Key, k: string)
    ensures var g := Group(rs, key, k);
      Lookup(Stats(rs, key), k)
      == if g == [] then None
         else Some(Stat(|g|, SumPercent(g), Round(SumPercent(g) / |g| as real)))
  {
    var st := Stats(rs, key);
    var ks := Keys(rs, key);
    StatsKeys(rs, key);
    if k in ks {
      var j :| 0 <= j < |ks| && ks[j] == k;
      GroupOfPresentKey(rs, key, k);
      LookupAt(st, j);
    } else {
      GroupOfAbsentKey(rs, key, k);
      LookupMissing(st, k);
    }
  }

  /** With every score between 0 and the number of questions, every average
      lies between 0 and 100. */
  lemma AveragesWithinBounds(rs: seq<QuizResult>, key: Key)
    requires forall i :: 0 <= i < |rs| ==> 0 <= rs[i].score <= rs[i].totalQuestions
    ensures forall i :: 0 <= i < |Stats(rs, key)| ==> 0 <= Stats(rs, key)[i].1.avgScore <= 100
  {
    var st := Stats(rs, key);
    var ks := Keys(rs, key);
    forall i | 0 <= i < |st| ensures 0 <= st[i].1.avgScore <= 100 {
      var g := Group(rs, key, ks[i]);
      GroupOfPresentKey(rs, key, ks[i]);
      forall j | 0 <= j < |g| ensures 0 <= g[j].score <= g[j].totalQuestions {
        assert g[j] in g;
        SelectMembership(rs, KeyIs(key, ks[i]), g[j]);
      }
      SumPercentBounds(g);
      MeanWithinBounds(SumPercent(g), |g|);
    }
  }

  lemma MeanWithinBounds(total: real, n: nat)
    requires n > 0 && 0.0 <= total <= 100.0 * n as real
    ensures 0 <= Round(total / n as real) <= 100
  {
    var q := total / n as real;
    assert q * n as real == total;
    assert 0.0 <= q <= 100.0;
  }

  function SumCounts(es: seq<Entry>): nat
  {
    if es == [] then 0 else es[0].1.count + SumCounts(es[1..])
  }

  lemma {:induction false} SumCountsBump(es: seq<Entry>, k: string, p: real)
    ensures SumCounts(Bump(es, k, p)) == SumCounts(es) + 1
  {
    if es != [] && es[0].0 != k {
      SumCountsBump(es[1..], k, p);
    }
  }

  lemma {:induction false} SumCountsAveraged(es: seq<Entry>)
    requires PositiveCounts(es)
    ensures SumCounts(Averaged(es)) == SumCounts(es)
  {
    if es != [] {
      assert Averaged(es)[1..] == Averaged(es[1..]);
      SumCountsAveraged(es[1..]);
    }
  }

  lemma {:induction false} SumCountsTallied(rs: seq<QuizResult>, key: Key)
    ensures SumCounts(Tallied(rs, key)) == |rs|
  {
    if rs != [] {
      var init := rs[..|rs| - 1];
      SumCountsTallied(init, key);
      BumpTallied(rs, key);
      SumCountsBump(Tallied(init, key), KeyOf(rs[|rs| - 1], key), Percent(rs[|rs| - 1]));
    }
  }

  /** Every result is counted under exactly one key: the counts add up to
      the number of results. */
  lemma CountsAddUp(rs: seq<QuizResult>, key: Key)
    ensures SumCounts(Stats(rs, key)) == |rs|
  {
    SumCountsTallied(rs, key);
    TalliedCountsPositive(rs, key);
    SumCountsAveraged(Tallied(rs, key));
  }

  /** Two attempts at topic "A" scoring 8/10 and 6/10 give one entry,
      two attempts, average 70. */
  lemma TwoAttemptsExample(a: QuizResult, b: QuizResult)
    requires a.topic == "A" && a.score == 8 && a.totalQuestions == 10
    requires b.topic == "A" && b.score == 6 && b.totalQuestions == 10
    ensures Stats([a, b], ByTopic) == [("A", Stat(2, 140.0, 70))]
  {
    var rs := [a, b];
    assert rs[..1] == [a];
    assert [a][..0] == [];
    assert Keys([a], ByTopic) == ["A"];
    assert Keys(rs, ByTopic) == ["A"];
    assert Select([a], TopicIs("A")) == [a];
    assert Group(rs, ByTopic, "A") == rs;
    assert Percent(a) == 80.0;
    assert Percent(b) == 60.0;
    assert SumPercent([a]) == 80.0;
    assert SumPercent(rs) == 140.0;
  }

  // ---------------------------------------------------------------------
  // The first pass as the source writes it

  /** The names every plain JavaScript object inherits from `Object.prototype`. */
  const InheritedNames: set<string> := {
    "constructor", "hasOwnProperty", "isPrototypeOf", "propertyIsEnumerable",
    "toLocaleString", "toString", "valueOf", "__proto__",
    "__defineGetter__", "__defineSetter__", "__lookupGetter__", "__lookupSetter__"
  }

  /** The source tests `!data[k]` on a plain object: for an inherited name
      the test sees the inherited member, no own entry is created, and the
      `count`/`totalScore` updates land on that inherited member, where
      `Object.keys` never lists them. */
  function BumpAsWritten(es: seq<Entry>, k: string, p: real): seq<Entry>
  {
    if k in InheritedNames then es else Bump(es, k, p)
  }

  function TalliedAsWritten(rs: seq<QuizResult>, key: Key): seq<Entry>
  {
    if rs == [] then []
    else BumpAsWritten(TalliedAsWritten(rs[..|rs| - 1], key), KeyOf(rs[|rs| - 1], key), Percent(rs[|rs| - 1]))
  }

  /** A student named "constructor" has a result but no statistics entry as
      the source is written, while the statistics of this model list them. */
  lemma InheritedNameDropped(r: QuizResult)
    requires r.studentName == "constructor"
    ensures TalliedAsWritten([r], ByStudent) == []
    ensures KeysOf(Stats([r], ByStudent)) == ["constructor"]
  {
    assert [r][..0] == [];
    assert Keys([r], ByStudent) == ["constructor"];
  }
}
