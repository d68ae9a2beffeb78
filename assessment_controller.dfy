/** The `assessSymptoms` request handler: it turns the service's prediction
    into the row it stores and the reply it sends, filling in defaults with
    JavaScript's `||`. */
module AssessmentController {
  import opened Wrappers
  import opened Json
  import opened Responses
  import MlService

  const DefaultMethod: string := "ml"
  const NotSpecified: string := "Not specified"
  const InternalError: string := "Internal server error"

  /** The parts of `req.body` the handler reads; `None` is `undefined`. */
  datatype AssessRequest = AssessRequest(responses: ResponseMap, totalScore: Option<Json>,
                                         functionalImpairment: Option<Json>)

  /** The parameters of the INSERT into `assessments`, in column order. */
  datatype Row = Row(userId: int, score: Option<Json>, result: Option<Json>,
                     functionalImpairment: Json, confidence: Json, predictionMethod: Json)

  /** Status 200 with the stored values and the new id, or status 500. */
  datatype Reply =
    | Stored(severity: Option<Json>, functionalImpairment: Json, confidence: Json,
             predictionMethod: Json, assessmentId: int)
    | ServerError(message: string)

  /** What one request did: the row passed to the INSERT, if it got that
      far, and the reply. */
  datatype Handled = Handled(inserted: Option<Row>, reply: Reply)

  /** `assessSymptoms` once `predictSeverity(responses)` has produced
      `prediction`. `insert` is the database: the new row's id, or `None`
      when the INSERT throws. A `null` prediction throws on the first field
      read, before anything is stored. */
  function AssessSymptoms(req: AssessRequest, userId: int, prediction: Json,
                          insert: Row -> Option<int>): (h: Handled)
    ensures h.inserted.None? <==> prediction.JNull?
    ensures h.inserted.Some? ==>
      var row := h.inserted.value;
      && row.userId == userId
      && row.score == req.totalScore
      && row.result == OwnField(prediction, "severity")
      && (Truthy(OwnField(prediction, "confidence")) ==> Some(row.confidence) == OwnField(prediction, "confidence"))
      && (!Truthy(OwnField(prediction, "confidence")) ==> row.confidence == JNum(0.0))
      && (Truthy(OwnField(prediction, "method")) ==> Some(row.predictionMethod) == OwnField(prediction, "method"))
      && (!Truthy(OwnField(prediction, "method")) ==> row.predictionMethod == JStr(DefaultMethod))
      && (Truthy(req.functionalImpairment) ==> Some(row.functionalImpairment) == req.functionalImpairment)
      && (!Truthy(req.functionalImpairment) ==> row.functionalImpairment == JStr(NotSpecified))
    ensures h.reply.Stored? <==> h.inserted.Some? && insert(h.inserted.value).Some?
    ensures h.reply.Stored? ==>
      var row := h.inserted.value;
      h.reply == Stored(row.result, row.functionalImpairment, row.confidence, row.predictionMethod,
                        insert(row).value)
    ensures h.reply.ServerError? ==> h.reply.message == InternalError
  {
    if prediction.JNull? then Handled(None, ServerError(InternalError))
    else
      var severity := OwnField(prediction, "severity");
      var confidence := Or(OwnField(prediction, "confidence"), JNum(0.0));
      var predictionMethod := Or(OwnField(prediction, "method"), JStr(DefaultMethod));
      var functionalImpairment := Or(req.functionalImpairment, JStr(NotSpecified));
      var row := Row(userId, req.totalScore, severity, functionalImpairment, confidence, predictionMethod);
      match insert(row)
      case Some(id) => Handled(Some(row), Stored(severity, functionalImpairment, confidence, predictionMethod, id))
      case None => Handled(Some(row), ServerError(InternalError))
  }

  /** Any assessment object of the service's shape is stored with its own
      severity, its confidence unless that is 0, and its method unless that
      is the empty string. */
  lemma AssessmentStored(req: AssessRequest, userId: int, a: MlService.Assessment, insert: Row -> Option<int>)
    ensures var h := AssessSymptoms(req, userId, a.ToJson(), insert);
      && h.inserted.Some?
      && h.inserted.value.result == Some(JStr(a.severity))
      && (a.confidence != 0.0 ==> h.inserted.value.confidence == JNum(a.confidence))
      && (a.methodName != "" ==> h.inserted.value.predictionMethod == JStr(a.methodName))
  {
    var p := a.ToJson();
    assert OwnField(p, "severity") == Some(JStr(a.severity));
    assert OwnField(p, "confidence") == Some(JNum(a.confidence));
    assert OwnField(p, "method") == Some(JStr(a.methodName));
  }

  /** A fallback prediction is stored with its own band label, confidence
      0.85 and method "fallback"; the method is not replaced by "ml". */
  lemma FallbackStored(req: AssessRequest, userId: int, r: ResponseMap, insert: Row -> Option<int>)
    ensures var h := AssessSymptoms(req, userId, MlService.FallbackAssessment(r).ToJson(), insert);
      && h.inserted.Some?
      && h.inserted.value.result == Some(JStr(MlService.Classify(Phq9Sum(r)).Label()))
      && h.inserted.value.confidence == JNum(0.85)
      && h.inserted.value.predictionMethod == JStr("fallback")
  {
    var a := MlService.FallbackAssessment(r);
    AssessmentStored(req, userId, a, insert);
  }

  /** Model output without a method, such as `{"severity":"Mild","confidence":0.92}`,
      is stored as is with method "ml". */
  lemma ModelOutputStored(req: AssessRequest, userId: int, insert: Row -> Option<int>)
    ensures var h := AssessSymptoms(req, userId,
                       JObj(map["severity" := JStr("Mild"), "confidence" := JNum(0.92)]), insert);
      && h.inserted.Some?
      && h.inserted.value.result == Some(JStr("Mild"))
      && h.inserted.value.confidence == JNum(0.92)
      && h.inserted.value.predictionMethod == JStr("ml")
  {
  }

  /** A confidence of 0, like a missing one, is stored as 0; a present
      method other than the empty string is kept. */
  lemma ConfidenceAndMethodDefaults(fields: map<string, Json>)
    ensures var p := JObj(fields);
      && ("confidence" !in fields || fields["confidence"] == JNum(0.0) ==>
            Or(OwnField(p, "confidence"), JNum(0.0)) == JNum(0.0))
      && ("method" in fields && fields["method"].JStr? && fields["method"].s != "" ==>
            Or(OwnField(p, "method"), JStr(DefaultMethod)) == fields["method"])
  {
  }

  /** The impairment the client sends is a number: 0 (the first option, or
      no answer) becomes "Not specified", any other number is kept. */
  lemma ImpairmentDefault(n: int)
    ensures n == 0 ==> Or(Some(JNum(n as real)), JStr(NotSpecified)) == JStr("Not specified")
    ensures n != 0 ==> Or(Some(JNum(n as real)), JStr(NotSpecified)) == JNum(n as real)
  {
  }
}
