/** Stored quiz attempts and the order-preserving selection of attempts
    that the pages perform with `Array.prototype.filter`. */
module Results {

  import opened Wrappers
  import opened Js

  type Positive = n: int | n > 0 witness 1

  /** One quiz attempt as the pages read it back from storage. `date` is the
      ISO timestamp text written when the attempt ended; `timeTaken` is in
      whole seconds and may be missing. */
  datatype QuizResult = QuizResult(
    id: string,
    studentName: string,
    topic: string,
    score: int,
    totalQuestions: Positive,
    date: string,
    difficulty: string,
    timeTaken: Option<int>)

  /** `(score / totalQuestions) * 100`, in exact arithmetic. */
  function Percent(r: QuizResult): real
  {
    (r.score as real / r.totalQuestions as real) * 100.0
  }

  /** A score between 0 and the number of questions is a percentage between 0 and 100. */
  lemma PercentBounds(r: QuizResult)
    requires 0 <= r.score <= r.totalQuestions
    ensures 0.0 <= Percent(r) <= 100.0
  {
    var q := r.score as real / r.totalQuestions as real;
    assert q * (r.totalQuestions as real) == r.score as real;
    assert q <= 1.0;
  }

  /** What a filter keeps. */
  datatype Criterion =
    | Anything
    | StudentIs(name: string)
    | TopicIs(topic: string)
    | DifficultyIs(difficulty: string)
    | Mentions(term: string)
    | IdIn(ids: seq<string>)
    | IdNotIn(ids: seq<string>)
    | Both(first: Criterion, second: Criterion)

  /** `term` occurs, ignoring (ASCII) case, in the student's name or in the topic. */
  predicate MentionsTerm(r: QuizResult, term: string)
  {
    Includes(ToLower(r.studentName), ToLower(term)) || Includes(ToLower(r.topic), ToLower(term))
  }

  predicate Holds(c: Criterion, r: QuizResult)
  {
    match c
    case Anything => true
    case StudentIs(name) => r.studentName == name
    case TopicIs(topic) => r.topic == topic
    case DifficultyIs(difficulty) => r.difficulty == difficulty
    case Mentions(term) => MentionsTerm(r, term)
    case IdIn(ids) => r.id in ids
    case IdNotIn(ids) => r.id !in ids
    case Both(first, second) => Holds(first, r) && Holds(second, r)
  }

  /** `rs.filter(r => Holds(c, r))`. */
  function Select(rs: seq<QuizResult>, c: Criterion): (kept: seq<QuizResult>)
    ensures |kept| <= |rs|
  {
    if rs == [] then []
    else Select(rs[..|rs| - 1], c) + (if Holds(c, rs[|rs| - 1]) then [rs[|rs| - 1]] else [])
  }

  /** A record is kept exactly when it is in the input and meets the criterion. */
  lemma {:induction false} SelectMembership(rs: seq<QuizResult>, c: Criterion, x: QuizResult)
    ensures x in Select(rs, c) <==> x in rs && Holds(c, x)
  {
    if rs != [] {
      var init := rs[..|rs| - 1];
      SelectMembership(init, c, x);
      assert rs == init + [rs[|rs| - 1]];
    }
  }

  /** Selecting from a concatenation selects from each part. */
  lemma {:induction false} SelectAppend(a: seq<QuizResult>, b: seq<QuizResult>, c: Criterion)
    ensures Select(a + b, c) == Select(a, c) + Select(b, c)
    decreases |b|
  {
    if b == [] {
      assert a + b == a;
    } else {
      var init := b[..|b| - 1];
      assert (a + b)[..|a + b| - 1] == a + init;
      SelectAppend(a, init, c);
    }
  }

  /** When every record meets the criterion nothing is dropped. */
  lemma {:induction false} SelectKeepsAll(rs: seq<QuizResult>, c: Criterion)
    requires forall i :: 0 <= i < |rs| ==> Holds(c, rs[i])
    ensures Select(rs, c) == rs
  {
    if rs != [] {
      SelectKeepsAll(rs[..|rs| - 1], c);
    }
  }

  /** When no record meets the criterion nothing is kept. */
  lemma {:induction false} SelectDropsAll(rs: seq<QuizResult>, c: Criterion)
    requires forall i :: 0 <= i < |rs| ==> !Holds(c, rs[i])
    ensures Select(rs, c) == []
  {
    if rs != [] {
      SelectDropsAll(rs[..|rs| - 1], c);
    }
  }

  /** Two filters in a row keep what meets both. */
  lemma {:induction false} SelectSelect(rs: seq<QuizResult>, a: Criterion, b: Criterion)
    ensures Select(Select(rs, a), b) == Select(rs, Both(a, b))
  {
    if rs != [] {
      var init := rs[..|rs| - 1];
      var last := rs[|rs| - 1];
      SelectSelect(init, a, b);
      SelectAppend(Select(init, a), if Holds(a, last) then [last] else [], b);
    }
  }

  /** Filters that agree on every record keep the same records. */
  lemma {:induction false} SelectEquivalent(rs: seq<QuizResult>, a: Criterion, b: Criterion)
    requires forall r :: Holds(a, r) == Holds(b, r)
    ensures Select(rs, a) == Select(rs, b)
  {
    if rs != [] {
      SelectEquivalent(rs[..|rs| - 1], a, b);
    }
  }

  /** Keeping the listed ids and keeping the others split the records between them. */
  lemma {:induction false} SelectPartition(rs: seq<QuizResult>, ids: seq<string>)
    ensures |Select(rs, IdIn(ids))| + |Select(rs, IdNotIn(ids))| == |rs|
  {
    if rs != [] {
      SelectPartition(rs[..|rs| - 1], ids);
    }
  }

  /** `a` is `b` with some elements left out, the rest in their order. */
  predicate IsSubsequence<T(==)>(a: seq<T>, b: seq<T>)
    decreases |b|
  {
    if a == [] then true
    else if b == [] then false
    else (a[|a| - 1] == b[|b| - 1] && IsSubsequence(a[..|a| - 1], b[..|b| - 1]))
         || IsSubsequence(a, b[..|b| - 1])
  }

  /** What a filter keeps stays in its original order. */
  lemma {:induction false} SelectIsSubsequence(rs: seq<QuizResult>, c: Criterion)
    ensures IsSubsequence(Select(rs, c), rs)
  {
    if rs != [] {
      var init := rs[..|rs| - 1];
      SelectIsSubsequence(init, c);
      var kept := Select(rs, c);
      if Holds(c, rs[|rs| - 1]) {
        assert kept[..|kept| - 1] == Select(init, c);
      } else {
        assert kept == Select(init, c);
      }
    }
  }

  lemma {:induction false} SubsequenceTransitive<T>(a: seq<T>, b: seq<T>, c: seq<T>)
    requires IsSubsequence(a, b) && IsSubsequence(b, c)
    ensures IsSubsequence(a, c)
    decreases |c|
  {
    if a != [] {
      var c' := c[..|c| - 1];
      if IsSubsequence(b, c') {
        SubsequenceTransitive(a, b, c');
      } else {
        var b' := b[..|b| - 1];
        assert b[|b| - 1] == c[|c| - 1] && IsSubsequence(b', c');
        if a[|a| - 1] == b[|b| - 1] && IsSubsequence(a[..|a| - 1], b') {
          SubsequenceTransitive(a[..|a| - 1], b', c');
        } else {
          SubsequenceTransitive(a, b', c');
        }
      }
    }
  }

  /** The sum of the percentages of `rs`. */
  function SumPercent(rs: seq<QuizResult>): real
  {
    if rs == [] then 0.0 else SumPercent(rs[..|rs| - 1]) + Percent(rs[|rs| - 1])
  }

  /** How often a record occurs in what a filter keeps: as often as in the
      input when it meets the criterion, otherwise never. */
  lemma {:induction false} SelectMultiset(rs: seq<QuizResult>, c: Criterion)
    ensures forall x :: multiset(Select(rs, c))[x] == if Holds(c, x) then multiset(rs)[x] else 0
  {
    if rs != [] {
      var init := rs[..|rs| - 1];
      SelectMultiset(init, c);
      assert rs == init + [rs[|rs| - 1]];
    }
  }

  /** Filtering two orderings of the same records keeps the same records. */
  lemma SelectPermutation(a: seq<QuizResult>, b: seq<QuizResult>, c: Criterion)
    requires multiset(a) == multiset(b)
    ensures multiset(Select(a, c)) == multiset(Select(b, c))
  {
    SelectMultiset(a, c);
    SelectMultiset(b, c);
    assert forall x :: multiset(Select(a, c))[x] == multiset(Select(b, c))[x];
  }

  lemma {:induction false} SumPercentAppend(a: seq<QuizResult>, b: seq<QuizResult>)
    ensures SumPercent(a + b) == SumPercent(a) + SumPercent(b)
    decreases |b|
  {
    if b == [] {
      assert a + b == a;
    } else {
      var init := b[..|b| - 1];
      assert (a + b)[..|a + b| - 1] == a + init;
      SumPercentAppend(a, init);
    }
  }

  lemma SumPercentSnoc(s: seq<QuizResult>, x: QuizResult)
    ensures SumPercent(s + [x]) == SumPercent(s) + Percent(x)
  {
    assert (s + [x])[..|s|] == s;
  }

  /** Taking `x` out from between `before` and `after`. */
  lemma SumPercentSplit(before: seq<QuizResult>, x: QuizResult, after: seq<QuizResult>)
    ensures SumPercent(before + [x] + after) == SumPercent(before + after) + Percent(x)
  {
    var sb, sa, p := SumPercent(before), SumPercent(after), Percent(x);
    SumPercentAppend(before + [x], after);
    SumPercentSnoc(before, x);
    SumPercentAppend(before, after);
  }

  /** A sequence is what comes before position `j`, the element at `j` and
      what comes after it. */
  lemma SplitAt<T>(b: seq<T>, j: nat)
    requires j < |b|
    ensures b == b[..j] + [b[j]] + b[j + 1..]
  {
  }

  /** Taking the element at `j` out of `b` takes one occurrence of it out of
      its multiset. */
  lemma MultisetRemove<T>(b: seq<T>, j: nat)
    requires j < |b|
    ensures multiset(b[..j] + b[j + 1..]) == multiset(b) - multiset{b[j]}
  {
    SplitAt(b, j);
  }

  /** Taking the record at `j` out of `b`. */
  lemma SumPercentRemove(b: seq<QuizResult>, j: nat)
    requires j < |b|
    ensures SumPercent(b) == SumPercent(b[..j] + b[j + 1..]) + Percent(b[j])
  {
    SplitAt(b, j);
    SumPercentSplit(b[..j], b[j], b[j + 1..]);
  }

  /** The sum of the percentages does not depend on the order of the records. */
  lemma {:induction false} SumPercentPermutation(a: seq<QuizResult>, b: seq<QuizResult>)
    requires multiset(a) == multiset(b)
    ensures SumPercent(a) == SumPercent(b)
    decreases |a|
  {
    if a == [] {
      assert |b| == |multiset(b)| == 0;
    } else {
      var init := a[..|a| - 1];
      var last := a[|a| - 1];
      assert a == init + [last];
      assert multiset(init) == multiset(a) - multiset{last};
      assert last in multiset(b);
      var j :| 0 <= j < |b| && b[j] == last;
      SumPercentRemove(b, j);
      MultisetRemove(b, j);
      SumPercentPermutation(init, b[..j] + b[j + 1..]);
    }
  }

  /** Each percentage in [0, 100] puts the sum in [0, 100 * |rs|]. */
  lemma {:induction false} SumPercentBounds(rs: seq<QuizResult>)
    requires forall i :: 0 <= i < |rs| ==> 0 <= rs[i].score <= rs[i].totalQuestions
    ensures 0.0 <= SumPercent(rs) <= 100.0 * |rs| as real
  {
    if rs != [] {
      SumPercentBounds(rs[..|rs| - 1]);
      PercentBounds(rs[|rs| - 1]);
    }
  }
}
