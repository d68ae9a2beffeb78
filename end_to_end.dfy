/** What the browser computes against what the server stores for the same
    answers, when the server falls back to the rule-based assessment. */
module EndToEnd {
  import opened Wrappers
  import opened Json
  import opened Responses
  import MlService
  import SymptomAssessment
  import AssessmentController

  /** The posted body as the server reads it. NaN answers arrive as `null`,
      which `Answer.NaN` already stands for. */
  function AsRequest(s: SymptomAssessment.Submission): AssessmentController.AssessRequest {
    AssessmentController.AssessRequest(s.responses, Some(JNum(s.totalScore as real)),
                                       Some(JNum(s.functionalImpairment as real)))
  }

  /** Every select of the form was answered: keys 1..10 and no others (each
      select is `required`, and only those ten handlers write the map). */
  ghost predicate FormComplete(r: ResponseMap) {
    forall id :: id in r <==> 1 <= id <= 10
  }

  /** On a complete form the client's total and label are the server
      fallback's score and label. */
  lemma ClientAgreesWithFallback(r: ResponseMap)
    requires FormComplete(r)
    ensures SymptomAssessment.BuildSubmission(r).totalScore == MlService.FallbackAssessment(r).score
    ensures SymptomAssessment.BuildSubmission(r).severity == MlService.FallbackAssessment(r).severity
  {
    SymptomAssessment.TotalScoreMatchesServer(r);
  }

  /** When the server falls back, the row it stores for a complete form
      carries the client's total as score (never recomputed, but equal to
      the fallback's) and the label the client showed. */
  lemma StoredFallbackMatchesClient(r: ResponseMap, userId: int, insert: AssessmentController.Row -> Option<int>)
    requires FormComplete(r)
    ensures var sub := SymptomAssessment.BuildSubmission(r);
      var fallback := MlService.FallbackAssessment(r);
      var h := AssessmentController.AssessSymptoms(AsRequest(sub), userId, fallback.ToJson(), insert);
      && h.inserted.Some?
      && h.inserted.value.score == Some(JNum(fallback.score as real))
      && h.inserted.value.result == Some(JStr(sub.severity))
      && h.inserted.value.predictionMethod == JStr("fallback")
  {
    ClientAgreesWithFallback(r);
    AssessmentController.FallbackStored(AsRequest(SymptomAssessment.BuildSubmission(r)), userId, r, insert);
  }
}
