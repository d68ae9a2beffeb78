/** Questionnaire answers as both the browser and the server hold them: a
    JavaScript object from question id to the value `parseInt` produced for
    the selected option, plus the key order JavaScript enumerates it in. */
module Responses {
  import opened Wrappers

  /** A stored answer: an integer, or NaN when `parseInt` found no digits.
      After JSON transport a NaN arrives at the server as `null`; `||` treats
      the two alike, so one constructor stands for both. */
  datatype Answer = Int(n: int) | NaN

  /** Question id to answer; an unanswered question has no key. */
  type ResponseMap = map<int, Answer>

  /** `responses[id]`, with `None` for `undefined`. */
  function Lookup(r: ResponseMap, id: int): (a: Option<Answer>)
    ensures a.Some? <==> id in r
    ensures a.Some? ==> a.value == r[id]
  {
    if id in r then Some(r[id]) else None
  }

  /** JavaScript `value || 0` on an answer: `undefined`, NaN (or `null`) and
      `0` give 0, any other integer is kept. */
  function OrZero(a: Option<Answer>): int {
    if a.Some? && a.value.Int? then a.value.n else 0
  }

  /** `responses[id] || 0`. */
  function AnswerAt(r: ResponseMap, id: int): int {
    OrZero(Lookup(r, id))
  }

  /** Every answer scores 0 to 3, as the options of a PHQ-9 question do. */
  ghost predicate OptionScores(r: ResponseMap) {
    forall k :: k in r ==> 0 <= AnswerAt(r, k) <= 3
  }

  /** Reference sum of `responses[id] || 0` for `lo <= id < hi`. */
  function SumRange(r: ResponseMap, lo: int, hi: int): int
    decreases hi - lo
  {
    if lo >= hi then 0 else AnswerAt(r, lo) + SumRange(r, lo + 1, hi)
  }

  /** The PHQ-9 total as the questionnaire defines it: questions 1 to 9,
      a missing answer counting 0. */
  function Phq9Sum(r: ResponseMap): int {
    SumRange(r, 1, 10)
  }

  /** When no id of `lo..hi-1` is answered, the range sums to 0. */
  lemma {:induction false} SumRangeUnanswered(r: ResponseMap, lo: int, hi: int)
    requires forall id :: lo <= id < hi ==> id !in r
    ensures SumRange(r, lo, hi) == 0
    decreases hi - lo
  {
    if lo < hi {
      SumRangeUnanswered(r, lo + 1, hi);
    }
  }

  /** The range sum grows by one answer at its top end. */
  lemma {:induction false} SumRangeExtend(r: ResponseMap, lo: int, hi: int)
    requires lo <= hi
    ensures SumRange(r, lo, hi + 1) == SumRange(r, lo, hi) + AnswerAt(r, hi)
    decreases hi - lo
  {
    if lo < hi {
      SumRangeExtend(r, lo + 1, hi);
    }
  }

  /** `Phq9Sum` written out term by term. */
  lemma Phq9SumTerms(r: ResponseMap)
    ensures Phq9Sum(r) == AnswerAt(r, 1) + AnswerAt(r, 2) + AnswerAt(r, 3)
                        + AnswerAt(r, 4) + AnswerAt(r, 5) + AnswerAt(r, 6)
                        + AnswerAt(r, 7) + AnswerAt(r, 8) + AnswerAt(r, 9)
  {
    assert SumRange(r, 9, 10) == AnswerAt(r, 9);
    assert SumRange(r, 8, 10) == AnswerAt(r, 8) + SumRange(r, 9, 10);
    assert SumRange(r, 7, 10) == AnswerAt(r, 7) + SumRange(r, 8, 10);
    assert SumRange(r, 6, 10) == AnswerAt(r, 6) + SumRange(r, 7, 10);
    assert SumRange(r, 5, 10) == AnswerAt(r, 5) + SumRange(r, 6, 10);
    assert SumRange(r, 4, 10) == AnswerAt(r, 4) + SumRange(r, 5, 10);
    assert SumRange(r, 3, 10) == AnswerAt(r, 3) + SumRange(r, 4, 10);
    assert SumRange(r, 2, 10) == AnswerAt(r, 2) + SumRange(r, 3, 10);
  }

  /** A non-empty set of ids has an element. */
  lemma HasElement(s: set<int>)
    requires s != {}
    ensures exists y :: y in s
  {
    if forall y :: y !in s {
      assert false;
    }
  }

  /** A subset is no larger than its superset. */
  lemma {:induction false} SubsetSize(a: set<int>, b: set<int>)
    requires a <= b
    ensures |a| <= |b|
    decreases |a|
  {
    if a != {} {
      HasElement(a);
      var x :| x in a;
      SubsetSize(a - {x}, b - {x});
    }
  }

  /** The ids `lo..hi-1`. */
  function IdRange(lo: int, hi: int): (s: set<int>)
    ensures forall k :: k in s <==> lo <= k < hi
    decreases hi - lo
  {
    if lo >= hi then {} else {lo} + IdRange(lo + 1, hi)
  }

  /** The ids `lo..hi-1` are `hi - lo` many. */
  lemma {:induction false} RangeSize(lo: int, hi: int)
    requires lo <= hi
    ensures |IdRange(lo, hi)| == hi - lo
    decreases hi - lo
  {
    if lo < hi {
      RangeSize(lo + 1, hi);
      assert lo !in IdRange(lo + 1, hi);
    }
  }

  /** Every non-empty set of ids has a least element. */
  lemma {:induction false} MinExists(s: set<int>)
    requires s != {}
    ensures exists m :: m in s && forall k :: k in s ==> m <= k
  {
    HasElement(s);
    var x :| x in s;
    var t := s - {x};
    if t == {} {
      OnlyElementLeast(s, x);
    } else {
      MinExists(t);
      var m :| m in t && forall k :: k in t ==> m <= k;
      LeastAfterInsert(s, x, m);
    }
  }

  /** The only element of a set is its least element. */
  lemma OnlyElementLeast(s: set<int>, x: int)
    requires x in s && s - {x} == {}
    ensures exists y :: y in s && forall k :: k in s ==> y <= k
  {
    forall k | k in s ensures x <= k {
      assert k !in s - {x};
    }
  }

  /** The smaller of `x` and the least element of `s - {x}` is least in `s`. */
  lemma LeastAfterInsert(s: set<int>, x: int, m: int)
    requires x in s && m in s - {x}
    requires forall k :: k in s - {x} ==> m <= k
    ensures exists y :: y in s && forall k :: k in s ==> y <= k
  {
    var y := if x < m then x else m;
    forall k | k in s ensures y <= k {
      if k != x { assert k in s - {x}; }
    }
    assert y in s;
  }

  /** The least element of a non-empty set of ids. */
  function SetMin(s: set<int>): (m: int)
    requires s != {}
    ensures m in s && forall k :: k in s ==> m <= k
  {
    MinExists(s);
    var m :| m in s && forall k :: k in s ==> m <= k;
    m
  }

  /** The ids in ascending order: the order in which `Object.keys`,
      `Object.values` and `Object.entries` list integer keys. */
  function SortedKeys(s: set<int>): (ks: seq<int>)
    ensures |ks| == |s|
    ensures forall k :: k in s <==> k in ks
    decreases |s|
  {
    if s == {} then []
    else
      var m := SetMin(s);
      [m] + SortedKeys(s - {m})
  }

  /** The listed ids strictly increase. */
  lemma {:induction false} SortedKeysAscending(s: set<int>)
    ensures forall i, j :: 0 <= i < j < |SortedKeys(s)| ==> SortedKeys(s)[i] < SortedKeys(s)[j]
    decreases |s|
  {
    if s != {} {
      var m := SetMin(s);
      var rest := SortedKeys(s - {m});
      SortedKeysAscending(s - {m});
      var ks := [m] + rest;
      forall i, j | 0 <= i < j < |ks| ensures ks[i] < ks[j] {
        assert ks[j] == rest[j - 1] && rest[j - 1] in rest;
        if 0 < i { assert ks[i] == rest[i - 1]; }
      }
    }
  }

  /** `Object.entries(responses)`: key/value pairs in ascending key order. */
  function Entries(r: ResponseMap): (es: seq<(int, Answer)>)
    ensures |es| == |SortedKeys(r.Keys)|
    ensures forall i :: 0 <= i < |es| ==> es[i] == (SortedKeys(r.Keys)[i], r[SortedKeys(r.Keys)[i]])
  {
    var ks := SortedKeys(r.Keys);
    seq(|ks|, i requires 0 <= i < |ks| => (ks[i], r[ks[i]]))
  }

  /** `Object.values(responses)`: the answers in ascending key order. */
  function Values(r: ResponseMap): (vs: seq<Answer>)
    ensures |vs| == |SortedKeys(r.Keys)|
    ensures forall i :: 0 <= i < |vs| ==> vs[i] == r[SortedKeys(r.Keys)[i]]
  {
    var ks := SortedKeys(r.Keys);
    seq(|ks|, i requires 0 <= i < |ks| => r[ks[i]])
  }

  /** Each position of `Values(r)` holds the answer of the id at that
      position of the ids, and the ids strictly increase. */
  lemma ValuesInKeyOrder(r: ResponseMap)
    ensures var ks := SortedKeys(r.Keys);
      && |Values(r)| == |ks|
      && (forall i :: 0 <= i < |ks| ==> ks[i] in r && Values(r)[i] == r[ks[i]])
      && (forall i, j :: 0 <= i < j < |ks| ==> ks[i] < ks[j])
  {
    var ks := SortedKeys(r.Keys);
    SortedKeysAscending(r.Keys);
    forall i | 0 <= i < |ks| ensures ks[i] in r {
      assert ks[i] in ks;
    }
  }
}
