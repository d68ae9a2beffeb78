/** The server's severity assessment service: the rule-based PHQ-9
    fallback, the feature record handed to the trained model, and the
    decision between the model's output and the fallback. */
module MlService {
  import opened Wrappers
  import opened Json
  import opened Responses

  // ---------------------------------------------------------------------
  // Severity bands

  /** The five PHQ-9 severity bands, in ascending order. */
  datatype Severity = Minimal | Mild | Moderate | ModeratelySevere | Severe {
    /** The label the service returns and stores. */
    function Label(): string {
      match this
      case Minimal => "Minimal depression"
      case Mild => "Mild depression"
      case Moderate => "Moderate depression"
      case ModeratelySevere => "Moderately severe depression"
      case Severe => "Severe depression"
    }

    /** Position in the order of increasing severity. */
    function Rank(): nat {
      match this
      case Minimal => 0
      case Mild => 1
      case Moderate => 2
      case ModeratelySevere => 3
      case Severe => 4
    }
  }

  /** The threshold chain applied to a total score. */
  function Classify(total: int): (s: Severity)
    ensures s == Minimal <==> total <= 4
    ensures s == Mild <==> 5 <= total <= 9
    ensures s == Moderate <==> 10 <= total <= 14
    ensures s == ModeratelySevere <==> 15 <= total <= 19
    ensures s == Severe <==> 20 <= total
  {
    if total <= 4 then Minimal
    else if total <= 9 then Mild
    else if total <= 14 then Moderate
    else if total <= 19 then ModeratelySevere
    else Severe
  }

  /** A higher total never gives a milder band. */
  lemma ClassifyMonotone(t1: int, t2: int)
    requires t1 <= t2
    ensures Classify(t1).Rank() <= Classify(t2).Rank()
  {
  }

  /** Distinct bands have distinct labels, so a label determines its band. */
  lemma LabelInjective(a: Severity, b: Severity)
    ensures a.Label() == b.Label() <==> a == b
  {
  }

  // ---------------------------------------------------------------------
  // The PHQ-9 total: Object.entries(responses).filter(1..9).reduce(+)

  /** `parseInt(key) >= 1 && parseInt(key) <= 9`. */
  predicate IsPhq9Key(key: int) {
    1 <= key <= 9
  }

  /** The `filter` step: the entries whose key is a PHQ-9 question. */
  function Phq9Entries(es: seq<(int, Answer)>): (kept: seq<(int, Answer)>)
    ensures forall i :: 0 <= i < |kept| ==> kept[i] in es && IsPhq9Key(kept[i].0)
  {
    if es == [] then []
    else (if IsPhq9Key(es[0].0) then [es[0]] else []) + Phq9Entries(es[1..])
  }

  /** The filter drops no entry whose key is a PHQ-9 question. */
  lemma {:induction false} Phq9EntriesKeepsQuestions(es: seq<(int, Answer)>)
    ensures forall e :: e in es && IsPhq9Key(e.0) ==> e in Phq9Entries(es)
  {
    if es != [] {
      Phq9EntriesKeepsQuestions(es[1..]);
      forall e | e in es && IsPhq9Key(e.0) ensures e in Phq9Entries(es) {
        if e != es[0] {
          assert e in es[1..];
        }
      }
    }
  }

  /** The `reduce` step: `sum + (value || 0)` over the entries. */
  function SumEntries(es: seq<(int, Answer)>): int {
    if es == [] then 0 else OrZero(Some(es[0].1)) + SumEntries(es[1..])
  }

  /** Each key is below every later key. */
  ghost predicate AscendingKeys(es: seq<(int, Answer)>) {
    es == [] || ((forall i :: 0 < i < |es| ==> es[0].0 < es[i].0) && AscendingKeys(es[1..]))
  }

  /** Keys that increase pairwise increase in the sense of `AscendingKeys`. */
  lemma {:induction false} PairwiseAscending(es: seq<(int, Answer)>)
    requires forall i, j :: 0 <= i < j < |es| ==> es[i].0 < es[j].0
    ensures AscendingKeys(es)
  {
    if es != [] {
      PairwiseAscending(es[1..]);
    }
  }

  /** `es` lists entries of `r` in strictly ascending key order, holds every
      entry whose key is `lo` or more, and has no key in `1..lo-1`. */
  ghost predicate EntriesFrom(r: ResponseMap, es: seq<(int, Answer)>, lo: int) {
    && (forall i :: 0 <= i < |es| ==> es[i].0 in r && es[i].1 == r[es[i].0])
    && AscendingKeys(es)
    && (forall k :: k in r && lo <= k ==> (k, r[k]) in es)
    && (forall i :: 0 <= i < |es| && 1 <= es[i].0 ==> lo <= es[i].0)
  }

  /** Filtering and summing such a list gives the reference sum from `lo`
      to 9. */
  lemma {:induction false} FilteredSumIsRange(r: ResponseMap, es: seq<(int, Answer)>, lo: int)
    requires 1 <= lo <= 10
    requires EntriesFrom(r, es, lo)
    ensures SumEntries(Phq9Entries(es)) == SumRange(r, lo, 10)
    decreases |es| + 10 - lo
  {
    if lo == 10 {
      NoneKept(es);
      assert SumEntries(Phq9Entries(es)) == 0;
    } else if es == [] {
      assert lo !in r;
      FilteredSumIsRange(r, es, lo + 1);
      assert SumRange(r, lo, 10) == SumRange(r, lo + 1, 10);
    } else if es[0].0 < 1 {
      SkipFirst(r, es, lo);
      FilteredSumIsRange(r, es[1..], lo);
      assert SumEntries(Phq9Entries(es)) == SumEntries(Phq9Entries(es[1..]));
    } else if es[0].0 == lo {
      KeepFirst(r, es, lo);
      FilteredSumIsRange(r, es[1..], lo + 1);
      assert SumRange(r, lo, 10) == AnswerAt(r, lo) + SumRange(r, lo + 1, 10);
    } else {
      SkipKey(r, es, lo);
      FilteredSumIsRange(r, es, lo + 1);
    }
  }

  /** No entry with a key outside 1..9 contributes to the total. */
  lemma {:induction false} NoneKept(es: seq<(int, Answer)>)
    requires forall i :: 0 <= i < |es| ==> !IsPhq9Key(es[i].0)
    ensures Phq9Entries(es) == []
  {
    if es != [] {
      NoneKept(es[1..]);
    }
  }

  /** A first entry with a key below 1 is filtered out. */
  lemma SkipFirst(r: ResponseMap, es: seq<(int, Answer)>, lo: int)
    requires 1 <= lo <= 9 && es != [] && es[0].0 < 1
    requires EntriesFrom(r, es, lo)
    ensures Phq9Entries(es) == Phq9Entries(es[1..])
    ensures EntriesFrom(r, es[1..], lo)
  {
    forall k | k in r && lo <= k ensures (k, r[k]) in es[1..] {
      var i :| 0 <= i < |es| && es[i] == (k, r[k]);
      assert i != 0;
      assert es[1..][i - 1] == (k, r[k]);
    }
  }

  /** A first entry with key `lo` is kept and counted as `responses[lo] || 0`. */
  lemma KeepFirst(r: ResponseMap, es: seq<(int, Answer)>, lo: int)
    requires 1 <= lo <= 9 && es != [] && es[0].0 == lo
    requires EntriesFrom(r, es, lo)
    ensures SumEntries(Phq9Entries(es)) == AnswerAt(r, lo) + SumEntries(Phq9Entries(es[1..]))
    ensures EntriesFrom(r, es[1..], lo + 1)
  {
    var rest := Phq9Entries(es[1..]);
    assert Phq9Entries(es) == [es[0]] + rest;
    assert ([es[0]] + rest)[1..] == rest;
    assert es[0].1 == r[lo];
    KeepFirstRest(r, es, lo);
  }

  /** After the entry with key `lo`, the rest lists the entries from `lo + 1`. */
  lemma KeepFirstRest(r: ResponseMap, es: seq<(int, Answer)>, lo: int)
    requires 1 <= lo <= 9 && es != [] && es[0].0 == lo
    requires EntriesFrom(r, es, lo)
    ensures EntriesFrom(r, es[1..], lo + 1)
  {
    forall k | k in r && lo + 1 <= k ensures (k, r[k]) in es[1..] {
      var i :| 0 <= i < |es| && es[i] == (k, r[k]);
      assert i != 0;
      assert es[1..][i - 1] == (k, r[k]);
    }
    forall i | 0 <= i < |es[1..]| && 1 <= es[1..][i].0 ensures lo + 1 <= es[1..][i].0 {
      assert es[0].0 < es[i + 1].0;
    }
  }

  /** When the first key exceeds `lo`, question `lo` is unanswered. */
  lemma SkipKey(r: ResponseMap, es: seq<(int, Answer)>, lo: int)
    requires 1 <= lo <= 9 && es != [] && es[0].0 > lo
    requires EntriesFrom(r, es, lo)
    ensures SumRange(r, lo, 10) == SumRange(r, lo + 1, 10)
    ensures EntriesFrom(r, es, lo + 1)
  {
    assert lo !in r;
    forall i | 0 <= i < |es| && 1 <= es[i].0 ensures lo + 1 <= es[i].0 {
      assert i != 0 ==> es[0].0 < es[i].0;
    }
  }

  /** The total both `prepareFeatures` and `fallbackAssessment` compute: the
      filter/reduce over `Object.entries(responses)`, which equals the sum of
      `responses[i] || 0` over questions 1 to 9. Keys outside 1..9 (question
      10 among them) are ignored, and an empty map totals 0. */
  function Phq9Total(r: ResponseMap): (t: int)
    ensures t == Phq9Sum(r)
  {
    EntriesListAnswers(r);
    FilteredSumIsRange(r, Entries(r), 1);
    SumEntries(Phq9Entries(Entries(r)))
  }

  /** `Object.entries(responses)` lists every entry once, in ascending key
      order. */
  lemma EntriesListAnswers(r: ResponseMap)
    ensures EntriesFrom(r, Entries(r), 1)
  {
    var es := Entries(r);
    var ks := SortedKeys(r.Keys);
    SortedKeysAscending(r.Keys);
    forall i, j | 0 <= i < j < |es| ensures es[i].0 < es[j].0 {
      assert es[i].0 == ks[i] && es[j].0 == ks[j];
    }
    PairwiseAscending(es);
    forall k | k in r ensures (k, r[k]) in es {
      var i :| 0 <= i < |ks| && ks[i] == k;
      assert es[i] == (k, r[k]);
    }
  }

  // ---------------------------------------------------------------------
  // Fallback assessment

  /** The fixed confidence of a rule-based assessment. */
  const FallbackConfidence: real := 0.85

  const FallbackMethod: string := "fallback"

  /** The object `fallbackAssessment` returns. */
  datatype Assessment = Assessment(severity: string, confidence: real, score: int, methodName: string) {
    /** The same object as a JavaScript value. */
    function ToJson(): (v: Json)
      ensures v.JObj? && v.fields.Keys == {"severity", "confidence", "score", "method"}
    {
      JObj(map["severity" := JStr(severity), "confidence" := JNum(confidence),
               "score" := JNum(score as real), "method" := JStr(methodName)])
    }
  }

  /** The rule-based assessment: the band of the questions 1..9 total, a
      fixed confidence, the same total as score, and method "fallback". */
  function FallbackAssessment(r: ResponseMap): (a: Assessment)
    ensures a.score == Phq9Sum(r)
    ensures a.severity == Classify(Phq9Sum(r)).Label()
    ensures a.confidence == FallbackConfidence && a.methodName == FallbackMethod
  {
    var totalScore := Phq9Total(r);
    Assessment(Classify(totalScore).Label(), FallbackConfidence, totalScore, FallbackMethod)
  }

  /** An empty response map is assessed Minimal with score 0. */
  lemma FallbackOfEmpty()
    ensures FallbackAssessment(map[]) == Assessment("Minimal depression", 0.85, 0, "fallback")
  {
    SumRangeUnanswered(map[], 1, 10);
  }

  /** Five answers of 3 and four of 0 total 15: Moderately severe, whatever
      else the map holds. */
  lemma FallbackOfFifteen(r: ResponseMap)
    requires forall i :: 1 <= i <= 5 ==> i in r && r[i] == Int(3)
    requires forall i :: 6 <= i <= 9 ==> i in r && r[i] == Int(0)
    ensures FallbackAssessment(r) == Assessment("Moderately severe depression", 0.85, 15, "fallback")
  {
    assert Classify(15).Label() == "Moderately severe depression";
    FifteenSum(r);
    FallbackOfTotal(r, 15);
  }

  lemma FifteenSum(r: ResponseMap)
    requires forall i :: 1 <= i <= 5 ==> i in r && r[i] == Int(3)
    requires forall i :: 6 <= i <= 9 ==> i in r && r[i] == Int(0)
    ensures Phq9Sum(r) == 15
  {
    Phq9SumTerms(r);
    assert AnswerAt(r, 1) == 3 && AnswerAt(r, 2) == 3 && AnswerAt(r, 3) == 3;
    assert AnswerAt(r, 4) == 3 && AnswerAt(r, 5) == 3 && AnswerAt(r, 6) == 0;
    assert AnswerAt(r, 7) == 0 && AnswerAt(r, 8) == 0 && AnswerAt(r, 9) == 0;
  }

  /** The fallback depends on the questions 1..9 total alone. */
  lemma FallbackOfTotal(r: ResponseMap, t: int)
    requires Phq9Sum(r) == t
    ensures FallbackAssessment(r) == Assessment(Classify(t).Label(), 0.85, t, "fallback")
  {
  }

  // ---------------------------------------------------------------------
  // Feature record

  /** The feature name `q${i}` for a question 1..9. */
  function QKey(i: int): (k: string)
    requires 1 <= i <= 9
    ensures |k| == 2 && k[0] == 'q'
  {
    "q" + [('0' as int + i) as char]
  }

  const PastDiagnosisKey: string := "past_diagnosis"
  const Phq9TotalKey: string := "phq9_total"

  /** The features after the first `n` rounds of the loop over questions. */
  function QFeatures(r: ResponseMap, n: nat): map<string, int>
    requires n <= 9
  {
    if n == 0 then map[] else QFeatures(r, n - 1)[QKey(n) := AnswerAt(r, n)]
  }

  /** The record `prepareFeatures` builds; it has exactly eleven fields. */
  function FeatureVector(r: ResponseMap): (f: map<string, int>)
    ensures f.Keys == {"q1", "q2", "q3", "q4", "q5", "q6", "q7", "q8", "q9",
                       "past_diagnosis", "phq9_total"}
  {
    QFeaturesShape(r, 9);
    QKeyNames();
    QFeatures(r, 9)[PastDiagnosisKey := AnswerAt(r, 10)][Phq9TotalKey := Phq9Total(r)]
  }

  /** The nine question feature names are the strings "q1" to "q9". */
  lemma QKeyNames()
    ensures QKey(1) == "q1" && QKey(2) == "q2" && QKey(3) == "q3"
    ensures QKey(4) == "q4" && QKey(5) == "q5" && QKey(6) == "q6"
    ensures QKey(7) == "q7" && QKey(8) == "q8" && QKey(9) == "q9"
    ensures (set i | 1 <= i <= 9 :: QKey(i)) == {"q1", "q2", "q3", "q4", "q5", "q6", "q7", "q8", "q9"}
  {
    assert QKey(1) == "q1" && QKey(2) == "q2" && QKey(3) == "q3";
    assert QKey(4) == "q4" && QKey(5) == "q5" && QKey(6) == "q6";
    assert QKey(7) == "q7" && QKey(8) == "q8" && QKey(9) == "q9";
  }

  lemma QKeyInjective(i: int, j: int)
    requires 1 <= i <= 9 && 1 <= j <= 9
    ensures QKey(i) == QKey(j) <==> i == j
  {
    if QKey(i) == QKey(j) {
      assert QKey(i)[1] == QKey(j)[1];
    }
  }

  lemma {:induction false} QFeaturesShape(r: ResponseMap, n: nat)
    requires n <= 9
    ensures QFeatures(r, n).Keys == set i | 1 <= i <= n :: QKey(i)
    ensures forall i :: 1 <= i <= n ==> QFeatures(r, n)[QKey(i)] == AnswerAt(r, i)
  {
    if n > 0 {
      QFeaturesShape(r, n - 1);
      forall i | 1 <= i < n ensures QKey(i) != QKey(n) {
        QKeyInjective(i, n);
      }
    }
  }

  /** The values of the feature record: q1..q9 hold `responses[i] || 0`,
      past_diagnosis holds `responses[10] || 0`, and phq9_total holds the
      questions 1..9 total. */
  lemma FeatureVectorValues(r: ResponseMap)
    ensures forall i :: 1 <= i <= 9 ==> QKey(i) in FeatureVector(r) && FeatureVector(r)[QKey(i)] == AnswerAt(r, i)
    ensures FeatureVector(r)["past_diagnosis"] == AnswerAt(r, 10)
    ensures FeatureVector(r)["phq9_total"] == Phq9Sum(r)
  {
    QFeaturesShape(r, 9);
    ExtrasKeepQuestions(QFeatures(r, 9), AnswerAt(r, 10), Phq9Total(r));
  }

  /** Adding the two extra fields leaves every question feature as it was. */
  lemma ExtrasKeepQuestions(q: map<string, int>, past: int, total: int)
    ensures var f := q[PastDiagnosisKey := past][Phq9TotalKey := total];
      && (forall i :: 1 <= i <= 9 && QKey(i) in q ==> QKey(i) in f && f[QKey(i)] == q[QKey(i)])
      && f[PastDiagnosisKey] == past && f[Phq9TotalKey] == total
  {
    forall i | 1 <= i <= 9 ensures QKey(i) != PastDiagnosisKey && QKey(i) != Phq9TotalKey {
      assert |QKey(i)| == 2;
    }
  }

  /** phq9_total agrees with the nine question features of the same record. */
  lemma FeatureTotalConsistent(r: ResponseMap)
    ensures var f := FeatureVector(r);
      f["phq9_total"] == f["q1"] + f["q2"] + f["q3"] + f["q4"] + f["q5"]
                       + f["q6"] + f["q7"] + f["q8"] + f["q9"]
  {
    FeatureVectorValues(r);
    Phq9SumTerms(r);
    QKeyNames();
  }

  // ---------------------------------------------------------------------
  // The inference process, as seen from the service

  /** Artifact locations, relative to the backend directory. */
  const ModelArtifact: string := "models/depression_severity_xgboost_model.pkl"
  const ScalerArtifact: string := "models/depression_severity_scaler.pkl"
  const EncoderArtifact: string := "models/depression_severity_label_encoder.pkl"
  const PredictScript: string := "scripts/predict.py"

  /** The arguments of one `python` process: the script, the three
      artifacts and the feature record (sent as its JSON text). */
  datatype Invocation = Invocation(script: string, modelPath: string, scalerPath: string,
                                   encoderPath: string, features: map<string, int>)

  /** One `data` event of the child's standard output or standard error. */
  datatype Chunk = Stdout(text: string) | Stderr(text: string)

  /** What a finished process delivered: its data events in arrival order
      and the code of its `close` event (`None` when a signal ended it and
      Node reports the code as `null`). */
  datatype ProcessRun = ProcessRun(chunks: seq<Chunk>, exitCode: Option<int>)

  /** The text the `stdout` handler accumulates; it is non-empty only when
      some standard-output event carried text. */
  function StdoutText(cs: seq<Chunk>): (t: string)
    ensures t != "" ==> exists i :: 0 <= i < |cs| && cs[i].Stdout? && cs[i].text != ""
  {
    if cs == [] then ""
    else StdoutText(cs[..|cs| - 1]) + (if cs[|cs| - 1].Stdout? then cs[|cs| - 1].text else "")
  }

  /** The text the `stderr` handler accumulates. */
  function StderrText(cs: seq<Chunk>): string {
    if cs == [] then ""
    else StderrText(cs[..|cs| - 1]) + (if cs[|cs| - 1].Stderr? then cs[|cs| - 1].text else "")
  }

  /** One more event adds its text to the stream it belongs to. */
  lemma TextsStep(cs: seq<Chunk>, i: int)
    requires 0 <= i < |cs|
    ensures StdoutText(cs[..i + 1]) == StdoutText(cs[..i]) + (if cs[i].Stdout? then cs[i].text else "")
    ensures StderrText(cs[..i + 1]) == StderrText(cs[..i]) + (if cs[i].Stderr? then cs[i].text else "")
  {
    assert cs[..i + 1][..i] == cs[..i];
  }

  /** Accumulation distributes over consecutive runs of events. */
  lemma {:induction false} StdoutTextAppend(a: seq<Chunk>, b: seq<Chunk>)
    ensures StdoutText(a + b) == StdoutText(a) + StdoutText(b)
    decreases |b|
  {
    if b == [] {
      assert a + b == a;
    } else {
      var b' := b[..|b| - 1];
      assert (a + b)[..|a + b| - 1] == a + b';
      assert (a + b)[|a + b| - 1] == b[|b| - 1];
      StdoutTextAppend(a, b');
    }
  }

  /** Diagnostics are never parsed as data: a standard-error event anywhere
      in the run leaves the collected standard output unchanged. */
  lemma StderrIgnored(a: seq<Chunk>, t: string, b: seq<Chunk>)
    ensures StdoutText(a + [Stderr(t)] + b) == StdoutText(a + b)
  {
    StdoutTextAppend(a + [Stderr(t)], b);
    StdoutTextAppend(a, [Stderr(t)]);
    StdoutTextAppend(a, b);
    assert StdoutText([Stderr(t)]) == "" by {
      assert [Stderr(t)][..0] == [];
    }
  }

  // ---------------------------------------------------------------------
  // The service object

  class MLService {
    const modelPath: string
    const scalerPath: string
    const encoderPath: string
    /** Whether all three artifacts existed when the service was built. A
        constant: no later call looks at the file system again. */
    const modelReady: bool

    /** Build the service; `existing` is the set of paths `fs.existsSync`
        reports as present at that moment. */
    constructor (existing: set<string>)
      ensures modelPath == ModelArtifact && scalerPath == ScalerArtifact && encoderPath == EncoderArtifact
      ensures modelReady <==> ModelArtifact in existing && ScalerArtifact in existing && EncoderArtifact in existing
    {
      modelPath := ModelArtifact;
      scalerPath := ScalerArtifact;
      encoderPath := EncoderArtifact;
      modelReady := ModelArtifact in existing && ScalerArtifact in existing && EncoderArtifact in existing;
    }

    /** The process `predictSeverity` starts for these responses. */
    function Request(responses: ResponseMap): Invocation {
      Invocation(PredictScript, modelPath, scalerPath, encoderPath, FeatureVector(responses))
    }

    /** Fill the feature record field by field. */
    method PrepareFeatures(responses: ResponseMap) returns (features: map<string, int>)
      ensures features == FeatureVector(responses)
    {
      features := map[];
      for i := 1 to 10
        invariant features == QFeatures(responses, i - 1)
      {
        features := features[QKey(i) := AnswerAt(responses, i)];
      }
      features := features[PastDiagnosisKey := AnswerAt(responses, 10)];
      features := features[Phq9TotalKey := Phq9Total(responses)];
    }

    /** Decide between the model and the fallback. `infer` is the inference
        process (what it prints and how it exits, given its arguments) and
        `parse` is `JSON.parse`, `None` where it throws. Without the
        artifacts no process is started and the fallback is returned; a
        non-zero exit code, whatever was printed, or output that does not
        parse gives the fallback; output that parses is returned as it is. */
    method PredictSeverity(responses: ResponseMap, infer: Invocation -> ProcessRun,
                           parse: string -> Option<Json>)
      returns (prediction: Json, spawned: Option<Invocation>)
      ensures !modelReady ==> spawned == None && prediction == FallbackAssessment(responses).ToJson()
      ensures modelReady ==> spawned == Some(Request(responses))
      ensures modelReady && infer(Request(responses)).exitCode != Some(0) ==>
                prediction == FallbackAssessment(responses).ToJson()
      ensures modelReady && infer(Request(responses)).exitCode == Some(0) ==>
                var output := parse(StdoutText(infer(Request(responses)).chunks));
                (output.None? ==> prediction == FallbackAssessment(responses).ToJson()) &&
                (output.Some? ==> prediction == output.value)
    {
      if !modelReady {
        prediction := FallbackAssessment(responses).ToJson();
        spawned := None;
        return;
      }
      var features := PrepareFeatures(responses);
      var invocation := Invocation(PredictScript, modelPath, scalerPath, encoderPath, features);
      spawned := Some(invocation);
      var run := infer(invocation);
      var result := "";
      var error := "";
      var i := 0;
      while i < |run.chunks|
        invariant 0 <= i <= |run.chunks|
        invariant result == StdoutText(run.chunks[..i])
        invariant error == StderrText(run.chunks[..i])
      {
        TextsStep(run.chunks, i);
        match run.chunks[i] {
          case Stdout(t) => result := result + t;
          case Stderr(t) => error := error + t;
        }
        i := i + 1;
      }
      assert run.chunks[..i] == run.chunks;
      if run.exitCode != Some(0) {
        // `error` is only written to the log.
        prediction := FallbackAssessment(responses).ToJson();
      } else {
        match parse(result) {
          case Some(v) => prediction := v;
          case None => prediction := FallbackAssessment(responses).ToJson();
        }
      }
    }
  }
}
