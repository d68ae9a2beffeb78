/** The browser-side questionnaire: recording answers as options are
    selected, the client's own total and severity, and what the component
    shows after submitting. */
module SymptomAssessment {
  import opened Wrappers
  import opened Responses
  import MlService

  // ---------------------------------------------------------------------
  // Recording an answer: setResponses({ ...responses, [id]: parseInt(value) })

  predicate IsDigit(c: char) {
    '0' <= c <= '9'
  }

  /** The longest prefix of decimal digits. */
  function LeadingDigits(s: string): (d: string)
    ensures |d| <= |s| && d == s[..|d|]
    ensures forall i :: 0 <= i < |d| ==> IsDigit(d[i])
    ensures |d| < |s| ==> !IsDigit(s[|d|])
  {
    if s != [] && IsDigit(s[0]) then [s[0]] + LeadingDigits(s[1..]) else []
  }

  /** The value of a string of decimal digits. */
  function DigitsValue(d: string): nat
    requires forall i :: 0 <= i < |d| ==> IsDigit(d[i])
  {
    if d == [] then 0
    else
      var last := d[|d| - 1];
      assert IsDigit(last);
      DigitsValue(d[..|d| - 1]) * 10 + (last as int - '0' as int)
  }

  /** `parseInt(s)` for text with an optional sign followed by decimal
      digits: the digits up to the first other character, NaN when there
      are none (so the placeholder option "" gives NaN). */
  function ParseInt(s: string): (a: Answer)
    ensures (s == [] || !(IsDigit(s[0]) || s[0] == '-' || s[0] == '+')) ==> a == NaN
    ensures a.Int? && a.n < 0 ==> |s| > 0 && s[0] == '-'
  {
    var negative := |s| > 0 && s[0] == '-';
    var body := if |s| > 0 && (s[0] == '-' || s[0] == '+') then s[1..] else s;
    var digits := LeadingDigits(body);
    if digits == [] then NaN
    else if negative then Int(0 - DigitsValue(digits))
    else Int(DigitsValue(digits))
  }

  /** The decimal text React writes into an option's `value` attribute. */
  function DecimalText(n: nat): (t: string)
    ensures |t| > 0 && forall i :: 0 <= i < |t| ==> IsDigit(t[i])
  {
    if n < 10 then [('0' as int + n) as char]
    else DecimalText(n / 10) + [('0' as int + n % 10) as char]
  }

  lemma {:induction false} LeadingDigitsOfDigits(d: string)
    requires forall i :: 0 <= i < |d| ==> IsDigit(d[i])
    ensures LeadingDigits(d) == d
  {
    if d != [] {
      LeadingDigitsOfDigits(d[1..]);
    }
  }

  lemma {:induction false} DecimalValue(n: nat)
    ensures DigitsValue(DecimalText(n)) == n
    decreases n
  {
    if n >= 10 {
      DecimalValue(n / 10);
      var t := DecimalText(n);
      assert t[..|t| - 1] == DecimalText(n / 10);
    }
  }

  /** Selecting an option stores exactly the option's number: `parseInt`
      reads back what the attribute text spells. */
  lemma ParseDecimal(n: nat)
    ensures ParseInt(DecimalText(n)) == Int(n)
  {
    var t := DecimalText(n);
    LeadingDigitsOfDigits(t);
    DecimalValue(n);
  }

  /** The placeholder "Select an option" has the empty value, which parses
      to NaN. */
  lemma ParsePlaceholder()
    ensures ParseInt("") == NaN
  {
  }

  /** The `onChange` handler of the select for question `id`. */
  function OnSelect(responses: ResponseMap, id: int, value: string): (r: ResponseMap)
    ensures r.Keys == responses.Keys + {id}
    ensures r[id] == ParseInt(value)
    ensures forall k :: k in responses && k != id ==> r[k] == responses[k]
  {
    responses[id := ParseInt(value)]
  }

  // ---------------------------------------------------------------------
  // Scoring on submit

  /** `.slice(0, 9)`. */
  function FirstNine(vs: seq<Answer>): (f: seq<Answer>)
    ensures |f| == if |vs| < 9 then |vs| else 9
    ensures f == vs[..|f|]
  {
    if |vs| <= 9 then vs else vs[..9]
  }

  /** `.reduce((sum, value) => sum + (value || 0), 0)`. */
  function SumValues(vs: seq<Answer>): int {
    if vs == [] then 0 else OrZero(Some(vs[0])) + SumValues(vs[1..])
  }

  /** The client total: the first nine values in ascending key order,
      whatever their keys. */
  function TotalScore(responses: ResponseMap): (t: int)
    ensures OptionScores(responses) ==> 0 <= t <= 27
  {
    FirstNineScores(responses);
    SumValuesBound(FirstNine(Values(responses)));
    SumValues(FirstNine(Values(responses)))
  }

  /** Values that score 0 to 3 sum to between 0 and three per value. */
  lemma {:induction false} SumValuesBound(vs: seq<Answer>)
    ensures (forall i :: 0 <= i < |vs| ==> 0 <= OrZero(Some(vs[i])) <= 3) ==> 0 <= SumValues(vs) <= 3 * |vs|
  {
    if vs != [] {
      SumValuesBound(vs[1..]);
      assert forall i :: 0 <= i < |vs[1..]| ==> vs[1..][i] == vs[i + 1];
    }
  }

  /** When every answer scores 0 to 3, so does each of the first nine values. */
  lemma FirstNineScores(r: ResponseMap)
    ensures OptionScores(r) ==> forall i :: 0 <= i < |FirstNine(Values(r))| ==> 0 <= OrZero(Some(FirstNine(Values(r))[i])) <= 3
  {
    if OptionScores(r) {
      var vs := Values(r);
      var f := FirstNine(vs);
      ValuesInKeyOrder(r);
      forall i | 0 <= i < |f| ensures 0 <= OrZero(Some(f[i])) <= 3 {
        var k := SortedKeys(r.Keys)[i];
        assert f[i] == vs[i] == r[k];
        assert AnswerAt(r, k) == OrZero(Some(r[k]));
      }
    }
  }

  /** The client's own threshold chain, which bands a total exactly as the
      server fallback does. */
  function SeverityLabel(totalScore: int): (l: string)
    ensures l == MlService.Classify(totalScore).Label()
  {
    if totalScore <= 4 then "Minimal depression"
    else if totalScore <= 9 then "Mild depression"
    else if totalScore <= 14 then "Moderate depression"
    else if totalScore <= 19 then "Moderately severe depression"
    else "Severe depression"
  }

  /** `responses[10] || 0`: the answer to question 10, or 0 when it is
      missing or NaN. */
  function FunctionalImpairment(responses: ResponseMap): (fi: int)
    ensures 10 in responses && responses[10].Int? ==> fi == responses[10].n
    ensures 10 !in responses || responses[10].NaN? ==> fi == 0
    ensures OptionScores(responses) ==> 0 <= fi <= 3
  {
    AnswerAt(responses, 10)
  }

  /** In an ascending list of the ids of a set that holds 1..9 and nothing
      below 1, position `i` holds id `i + 1`. */
  lemma {:induction false} AscendingFromOne(ks: seq<int>, s: set<int>, i: nat)
    requires forall k :: k in s <==> k in ks
    requires forall a, b :: 0 <= a < b < |ks| ==> ks[a] < ks[b]
    requires forall id :: 1 <= id <= 9 ==> id in s
    requires forall k :: k in s ==> 1 <= k
    requires i < 9
    ensures i < |ks| && ks[i] == i + 1
  {
    assert i + 1 in s;
    var j :| 0 <= j < |ks| && ks[j] == i + 1;
    if i == 0 {
      assert ks[0] in s;
      assert ks[0] <= ks[j];
    } else {
      AscendingFromOne(ks, s, i - 1);
      assert i <= j;
      assert ks[i] <= ks[j];
      assert ks[i - 1] < ks[i];
    }
  }

  /** Values read off consecutive ids `lo, lo + 1, ...` sum to the range sum. */
  lemma {:induction false} SumValuesAsRange(r: ResponseMap, vs: seq<Answer>, lo: int)
    requires forall k :: lo <= k < lo + |vs| ==> k in r && vs[k - lo] == r[k]
    ensures SumValues(vs) == SumRange(r, lo, lo + |vs|)
  {
    if vs != [] {
      assert vs[0] == r[lo];
      SumValuesAsRange(r, vs[1..], lo + 1);
    }
  }

  /** From position `n` on, the ascending ids `ks` are exactly the answered
      ids of `lo..hi-1`, and `vs` holds their answers; the ids before `n`
      lie below `lo`. */
  ghost predicate ListsAnswersFrom(r: ResponseMap, ks: seq<int>, vs: seq<Answer>, n: nat, lo: int, hi: int) {
    && |vs| == |ks| && n <= |ks|
    && (forall a, b :: 0 <= a < b < |ks| ==> ks[a] < ks[b])
    && (forall i :: 0 <= i < |ks| ==> ks[i] in r && vs[i] == r[ks[i]])
    && (forall i :: 0 <= i < n ==> ks[i] < lo)
    && (forall i :: n <= i < |ks| ==> lo <= ks[i] < hi)
    && (forall k :: k in r && lo <= k < hi ==> k in ks)
  }

  /** Summing the answers from position `n` on gives the range sum. */
  lemma {:induction false} SumListedAsRange(r: ResponseMap, ks: seq<int>, vs: seq<Answer>, n: nat, lo: int, hi: int)
    requires ListsAnswersFrom(r, ks, vs, n, lo, hi)
    ensures SumValues(vs[n..]) == SumRange(r, lo, hi)
    decreases hi - lo
  {
    if n == |ks| {
      assert vs[n..] == [];
      SumRangeUnanswered(r, lo, hi);
    } else if ks[n] == lo {
      ListedAnswered(r, ks, vs, n, lo, hi);
      SumListedAsRange(r, ks, vs, n + 1, lo + 1, hi);
      assert vs[n..][1..] == vs[n + 1..];
    } else {
      UnlistedUnanswered(r, ks, vs, n, lo, hi);
      SumListedAsRange(r, ks, vs, n, lo + 1, hi);
    }
  }

  /** When position `n` holds `lo`, the list goes on from `n + 1` and `lo + 1`. */
  lemma ListedAnswered(r: ResponseMap, ks: seq<int>, vs: seq<Answer>, n: nat, lo: int, hi: int)
    requires ListsAnswersFrom(r, ks, vs, n, lo, hi) && n < |ks| && ks[n] == lo
    ensures lo < hi && vs[n] == r[lo]
    ensures ListsAnswersFrom(r, ks, vs, n + 1, lo + 1, hi)
  {
    forall i | n + 1 <= i < |ks| ensures lo + 1 <= ks[i] {
      assert ks[n] < ks[i];
    }
  }

  /** When the id at position `n` is above `lo`, question `lo` is unanswered. */
  lemma UnlistedUnanswered(r: ResponseMap, ks: seq<int>, vs: seq<Answer>, n: nat, lo: int, hi: int)
    requires ListsAnswersFrom(r, ks, vs, n, lo, hi) && n < |ks| && ks[n] != lo
    ensures lo < hi && lo !in r
    ensures ListsAnswersFrom(r, ks, vs, n, lo + 1, hi)
  {
    forall i | 0 <= i < |ks| ensures ks[i] != lo {
      if n < i { assert ks[n] < ks[i]; }
    }
    forall i | n <= i < |ks| ensures lo + 1 <= ks[i] {
      if n < i { assert ks[n] < ks[i]; }
    }
  }

  /** When questions 1..9 are all answered and every key is a question id
      (1 or more), the first nine values are exactly questions 1..9, so
      question 10 is left out and the client total equals the server's. */
  lemma TotalScoreMatchesServer(r: ResponseMap)
    requires forall id :: 1 <= id <= 9 ==> id in r
    requires forall k :: k in r ==> 1 <= k
    ensures TotalScore(r) == MlService.Phq9Total(r)
  {
    FirstNineAreQuestions(r);
    FirstNineSum(r, Values(r));
  }

  /** With questions 1..9 answered and no key below 1, the values begin
      with the answers to questions 1..9. */
  lemma FirstNineAreQuestions(r: ResponseMap)
    requires forall id :: 1 <= id <= 9 ==> id in r
    requires forall k :: k in r ==> 1 <= k
    ensures 9 <= |Values(r)| && forall k :: 1 <= k < 10 ==> k in r && Values(r)[k - 1] == r[k]
  {
    ValuesInKeyOrder(r);
    AscendingValues(r, SortedKeys(r.Keys), Values(r));
  }

  /** Nine or more values that start with the answers to questions 1..9:
      their first nine sum to the questions 1..9 total. */
  lemma FirstNineSum(r: ResponseMap, vs: seq<Answer>)
    requires 9 <= |vs| && forall k :: 1 <= k < 10 ==> k in r && vs[k - 1] == r[k]
    ensures SumValues(FirstNine(vs)) == Phq9Sum(r)
  {
    var f := FirstNine(vs);
    forall k | 1 <= k < 1 + |f| ensures k in r && f[k - 1] == r[k] {
      assert f[k - 1] == vs[k - 1];
    }
    SumValuesAsRange(r, f, 1);
  }

  lemma AscendingValues(r: ResponseMap, ks: seq<int>, vs: seq<Answer>)
    requires forall k :: k in r.Keys <==> k in ks
    requires forall a, b :: 0 <= a < b < |ks| ==> ks[a] < ks[b]
    requires |vs| == |ks| && forall i :: 0 <= i < |vs| ==> ks[i] in r && vs[i] == r[ks[i]]
    requires forall id :: 1 <= id <= 9 ==> id in r
    requires forall k :: k in r ==> 1 <= k
    ensures 9 <= |vs|
    ensures forall k :: 1 <= k < 10 ==> k in r && vs[k - 1] == r[k]
  {
    AscendingFromOne(ks, r.Keys, 8);
    forall k | 1 <= k < 10 ensures k in r && vs[k - 1] == r[k] {
      AscendingFromOne(ks, r.Keys, k - 1);
    }
  }

  /** With question `q` unanswered, at most nine of the ten questions are. */
  lemma AtMostNineAnswers(r: ResponseMap, q: int)
    requires forall k :: k in r ==> 1 <= k <= 10
    requires 1 <= q <= 9 && q !in r
    ensures |r.Keys| <= 9
  {
    var ids := OtherIds(q, 10);
    forall k | k in r.Keys ensures k in ids {
      assert 1 <= k <= 10 && k != q;
    }
    SubsetSize(r.Keys, ids);
  }

  /** The `n - 1` ids of 1..n other than `q`. */
  lemma OtherIds(q: int, n: int) returns (ids: set<int>)
    requires 1 <= q <= n
    ensures |ids| == n - 1
    ensures forall k :: k in ids <==> 1 <= k <= n && k != q
  {
    RangeSize(1, n + 1);
    ids := IdRange(1, n + 1) - {q};
  }

  /** The client takes the first nine values whatever their keys: with some
      question of 1..9 unanswered there are at most nine answers, so the
      answer to question 10 is counted as well, which the server never does. */
  lemma TotalScoreCountsKeyTen(r: ResponseMap)
    requires forall k :: k in r ==> 1 <= k <= 10
    requires exists q :: 1 <= q <= 9 && q !in r
    ensures TotalScore(r) == MlService.Phq9Total(r) + AnswerAt(r, 10)
  {
    var q :| 1 <= q <= 9 && q !in r;
    ValuesListAnswers(r);
    AtMostNineAnswers(r, q);
    AllValuesSum(r, SortedKeys(r.Keys), Values(r));
  }

  /** With every key in 1..10, the ascending ids and their values list
      every answer to questions 1..10. */
  lemma ValuesListAnswers(r: ResponseMap)
    requires forall k :: k in r ==> 1 <= k <= 10
    ensures |Values(r)| == |r.Keys|
    ensures ListsAnswersFrom(r, SortedKeys(r.Keys), Values(r), 0, 1, 11)
  {
    ValuesInKeyOrder(r);
  }

  /** At most nine values listing every answered id of 1..10: the first
      nine are all of them, and they sum to questions 1..10. */
  lemma AllValuesSum(r: ResponseMap, ks: seq<int>, vs: seq<Answer>)
    requires ListsAnswersFrom(r, ks, vs, 0, 1, 11) && |vs| <= 9
    ensures SumValues(FirstNine(vs)) == Phq9Sum(r) + AnswerAt(r, 10)
  {
    SumListedAsRange(r, ks, vs, 0, 1, 11);
    assert vs[0..] == vs;
    assert FirstNine(vs) == vs;
    SumRangeExtend(r, 1, 10);
  }

  // ---------------------------------------------------------------------
  // Submitting and showing the result

  datatype ImpairmentOption = ImpairmentOption(value: int, text: string)

  /** The options of the functional-impairment question. */
  const ImpairmentOptions: seq<ImpairmentOption> := [
    ImpairmentOption(0, "Not difficult at all"),
    ImpairmentOption(1, "Somewhat difficult"),
    ImpairmentOption(2, "Very difficult"),
    ImpairmentOption(3, "Extremely difficult")
  ]

  /** `options.find((option) => option.value === v)?.label`, `None` where
      `find` yields `undefined`. */
  function FindLabel(options: seq<ImpairmentOption>, v: int): (l: Option<string>)
    ensures l.Some? <==> exists i :: 0 <= i < |options| && options[i].value == v
    ensures l.Some? ==> exists i ::
              && 0 <= i < |options| && options[i] == ImpairmentOption(v, l.value)
              && forall j :: 0 <= j < i ==> options[j].value != v
  {
    if options == [] then None
    else if options[0].value == v then Some(options[0].text)
    else FindLabel(options[1..], v)
  }

  /** Values 0..3 find their own option; any other value finds nothing. */
  lemma ImpairmentLabelLookup(v: int)
    ensures 0 <= v <= 3 ==> FindLabel(ImpairmentOptions, v) == Some(ImpairmentOptions[v].text)
    ensures !(0 <= v <= 3) ==> FindLabel(ImpairmentOptions, v) == None
  {
    var o := ImpairmentOptions;
    assert o[1..][1..][1..][1..] == [];
  }

  /** The body posted to the server. */
  datatype Submission = Submission(responses: ResponseMap, totalScore: int, severity: string,
                                   functionalImpairment: int)

  /** The `result` state the component renders; the impairment label is
      absent after an error. */
  datatype ResultView = ResultView(severity: string, functionalImpairment: Option<string>)

  const ErrorMessage: string := "An error occurred. Please try again."

  /** The body posted to the server: the answers as recorded, the client
      total, its severity label (the server fallback's band for that total)
      and the impairment answer. */
  function BuildSubmission(responses: ResponseMap): (sub: Submission)
    ensures sub.responses == responses
    ensures sub.totalScore == TotalScore(responses)
    ensures sub.severity == MlService.Classify(TotalScore(responses)).Label()
    ensures sub.functionalImpairment == FunctionalImpairment(responses)
  {
    var totalScore := TotalScore(responses);
    Submission(responses, totalScore, SeverityLabel(totalScore), FunctionalImpairment(responses))
  }

  /** `handleSubmit`: the body is posted first; `posted` says whether the
      POST resolved. The shown severity is the client's own, never the
      server's reply. A failed POST, or an impairment value with no matching
      option (reading `.label` of `undefined` throws), shows the error. */
  function HandleSubmit(responses: ResponseMap, posted: bool): (out: (Submission, ResultView))
    ensures out.0 == BuildSubmission(responses)
    ensures posted && 0 <= FunctionalImpairment(responses) <= 3 ==>
      out.1 == ResultView(SeverityLabel(TotalScore(responses)),
                          Some(ImpairmentOptions[FunctionalImpairment(responses)].text))
    ensures !(posted && 0 <= FunctionalImpairment(responses) <= 3) ==>
      out.1 == ResultView(ErrorMessage, None)
  {
    var submission := BuildSubmission(responses);
    var found := FindLabel(ImpairmentOptions, submission.functionalImpairment);
    ImpairmentLabelLookup(submission.functionalImpairment);
    if posted && found.Some? then
      (submission, ResultView(submission.severity, found))
    else
      (submission, ResultView(ErrorMessage, None))
  }

  /** When every answer is one of the options' scores, a resolved POST
      always shows the option label and the server fallback's band. */
  lemma OptionAnswersShowLabel(r: ResponseMap)
    requires OptionScores(r)
    ensures HandleSubmit(r, true).1.functionalImpairment.Some?
    ensures HandleSubmit(r, true).1.severity == MlService.Classify(TotalScore(r)).Label()
  {
  }
}
