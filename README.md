# Depression screening: severity assessment model

This project models the severity assessment of a PHQ-9 depression
screening web app and proves properties of it in Dafny.

The browser component records the answers to nine PHQ-9 questions and one
functional-impairment question, computes its own total and severity label,
and posts them. The server handler asks the assessment service for a
prediction. The service has two paths:

- If the three model artifacts were present at start-up, it runs an
  external inference process on an eleven-field feature record and returns
  whatever JSON that process printed.
- Otherwise, or when the process exits non-zero or prints something that
  does not parse, it returns a rule-based fallback. The fallback bands the
  questions 1–9 total at 4/9/14/19, with confidence 0.85 and method
  `"fallback"`.

The handler then fills in defaults with JavaScript's `||` and stores the same
values it returns.

Modules, one per source file plus shared helpers:

- `Wrappers`: `Option`.
- `Json`: parsed JSON values, JavaScript truthiness, `||`, and field reads.
- `Responses`: the answer map shared by both sides. It holds `Answer = Int | NaN`,
  the ascending key order in which JavaScript lists integer keys, and the
  reference sum of questions 1–9.
- `MlService` (`backend/services/mlService.js`): severity bands, the
  filter/reduce total, the fallback, the feature record, and the class
  `MLService`. That class holds the readiness flag, the `PrepareFeatures`
  loop and the `PredictSeverity` decision method.
- `SymptomAssessment` (`frontend/src/components/SymptomAssessment.jsx`):
  `parseInt` on option values, the `onChange` map update, the client total
  (first nine values), client banding, impairment lookup, and `handleSubmit`.
- `AssessmentController` (`backend/controllers/assessmentController.js`):
  `assessSymptoms` field derivation, storage and reply.
- `EndToEnd`: the client's figures against what the server stores.

External effects are parameters:

- `fs.existsSync` is a set of existing paths given to the constructor.
- The inference process is a function from its arguments to its output
  events and exit code.
- `JSON.parse` is a partial function `string -> Option<Json>`.
- The database INSERT is a function from the row to its new id, or `None`
  when it throws.
- The axios POST is a boolean saying whether it resolved.

In these points the model follows the code:

- There is no timeout on the inference process.
- The model's parsed output is neither validated nor completed in the
  service; it is returned as it is.
- Defaulting happens only in the handler. There confidence becomes `0` and
  method becomes `"ml"`, not `"model"`.
- Answers that are not numbers are not rejected: `|| 0` turns a missing,
  `null` or NaN answer into 0.
- The component shows its own severity, not the server's reply.

## Model

| member | source | states |
|---|---|---|
| `Responses.SortedKeys` | frontend/src/components/SymptomAssessment.jsx:75 | the listed ids are exactly the map's keys, each once |
| `Responses.SortedKeysAscending` | frontend/src/components/SymptomAssessment.jsx:75 | the listed ids strictly increase, the order `Object.values` uses for integer keys |
| `Responses.ValuesInKeyOrder` | frontend/src/components/SymptomAssessment.jsx:75 | position i of `Object.values` holds the answer of the i-th id in ascending order |
| `MlService.Classify` | backend/services/mlService.js:129-134 | each band holds exactly its score range (≤4, 5–9, 10–14, 15–19, ≥20), both directions, with no lower or upper cap |
| `MlService.ClassifyMonotone` | backend/services/mlService.js:129-134 | a higher total never gives a milder band |
| `MlService.LabelInjective` | backend/services/mlService.js:129-134 | the five labels are distinct, so equal labels mean equal bands |
| `MlService.Phq9Entries` | backend/services/mlService.js:124-125 | the filter keeps only entries of the list, and only those whose key is in 1..9 |
| `MlService.Phq9EntriesKeepsQuestions` | backend/services/mlService.js:124-125 | the filter drops no entry whose key is in 1..9 |
| `MlService.FilteredSumIsRange` | backend/services/mlService.js:124-126 | filtering ascending entries to keys 1..9 and summing `value \|\| 0` with `SumEntries` (the reduce) gives the reference sum of questions lo..9 |
| `MlService.EntriesListAnswers` | backend/services/mlService.js:124 | `Object.entries` lists every entry of the map once, in ascending key order |
| `MlService.Phq9Total` | backend/services/mlService.js:124-126 | the entries filter/reduce total equals the sum of `responses[i] \|\| 0` for i in 1..9; other keys, key 10 included, are ignored (the same code is repeated at lines 110-112) |
| `MlService.FallbackAssessment` | backend/services/mlService.js:122-141 | score is the questions 1..9 total, severity is that total's band label, confidence is 0.85 and method is "fallback" |
| `MlService.FallbackOfEmpty` | backend/services/mlService.js:124-141 | an empty map gives Minimal, score 0, confidence 0.85, method "fallback" |
| `MlService.FallbackOfTotal` | backend/services/mlService.js:122-141 | whenever questions 1..9 total t, the fallback object is exactly t's band label, 0.85, t and "fallback" |
| `MlService.FallbackOfFifteen` | backend/services/mlService.js:129-134 | any map answering questions 1–5 with 3 and 6–9 with 0 (other keys arbitrary) gives score 15, Moderately severe, 0.85, "fallback" |
| `MlService.FeatureVector` | backend/services/mlService.js:99-114 | the record has exactly the keys q1..q9, past_diagnosis and phq9_total, no others |
| `MlService.QFeaturesShape` | backend/services/mlService.js:102-104 | after n loop rounds the record has keys q1..qn, holding `responses[i] \|\| 0` |
| `MlService.FeatureVectorValues` | backend/services/mlService.js:102-112 | q_i is `responses[i] \|\| 0`, past_diagnosis is `responses[10] \|\| 0`, phq9_total is the questions 1..9 total |
| `MlService.FeatureTotalConsistent` | backend/services/mlService.js:102-112 | phq9_total equals q1+…+q9 of the same record |
| `MlService.StdoutText` | backend/services/mlService.js:61-63 | the collected standard output is non-empty only when some standard-output event carried text |
| `MlService.TextsStep` | backend/services/mlService.js:61-68 | each event appends its text to its own stream's accumulator and leaves the other unchanged |
| `MlService.StdoutTextAppend` | backend/services/mlService.js:57-63 | accumulated standard output distributes over consecutive runs of events |
| `MlService.StderrIgnored` | backend/services/mlService.js:57-68 | inserting a standard-error event anywhere leaves the parsed text unchanged |
| `MlService.MLService.constructor` | backend/services/mlService.js:7-16 | the three artifact paths are fixed; modelReady holds iff all three exist; it is a constant, so it is never probed again |
| `MlService.MLService.PrepareFeatures` | backend/services/mlService.js:96-115 | the loop over questions 1..9 plus the two extra fields yields exactly `FeatureVector(responses)` |
| `MlService.MLService.PredictSeverity` | backend/services/mlService.js:34-89 | not ready: no process, result equals the fallback; ready: one process with the three artifacts and the feature record; non-zero or missing exit code gives the fallback whatever was printed; exit 0 with unparseable stdout gives the fallback; exit 0 with parseable stdout returns the parsed value unchanged |
| `SymptomAssessment.ParseInt` | frontend/src/components/SymptomAssessment.jsx:124-126 | `parseInt` (also applied at line 149) gives NaN for text starting with neither a sign nor a digit, and reads negative only after a leading `-` |
| `SymptomAssessment.ParseDecimal` | frontend/src/components/SymptomAssessment.jsx:148-158 | `parseInt` of an option's decimal value text reads back exactly that number |
| `SymptomAssessment.ParsePlaceholder` | frontend/src/components/SymptomAssessment.jsx:124-134 | the placeholder option's empty value parses to NaN |
| `SymptomAssessment.OnSelect` | frontend/src/components/SymptomAssessment.jsx:124-126 | selecting replaces only the chosen question's key; every other key and value is unchanged |
| `SymptomAssessment.TotalScore` | frontend/src/components/SymptomAssessment.jsx:75-77 | when every answer scores 0 to 3, the client total is between 0 and 27 |
| `SymptomAssessment.SumValuesBound` | frontend/src/components/SymptomAssessment.jsx:77 | the reduce over values that each score 0 to 3 is between 0 and three times their number |
| `SymptomAssessment.FirstNineAreQuestions` | frontend/src/components/SymptomAssessment.jsx:75-76 | with questions 1..9 answered and all keys ≥ 1, the first nine values in key order are the answers to questions 1..9 |
| `SymptomAssessment.TotalScoreMatchesServer` | frontend/src/components/SymptomAssessment.jsx:75-77 | with questions 1..9 answered and all keys ≥ 1, the client total equals the server total, so key 10 is excluded |
| `SymptomAssessment.TotalScoreCountsKeyTen` | frontend/src/components/SymptomAssessment.jsx:75-77 | the slice takes values by position: for every map with keys in 1..10 and some question of 1..9 unanswered, the client total is the server total plus the answer to question 10 |
| `SymptomAssessment.SeverityLabel` | frontend/src/components/SymptomAssessment.jsx:80-85 | the client's threshold chain gives the server fallback's label for every total |
| `SymptomAssessment.FunctionalImpairment` | frontend/src/components/SymptomAssessment.jsx:88 | the impairment is the answer to question 10, or 0 when it is missing or NaN; when every answer scores 0 to 3 it is one of the option values 0..3 |
| `SymptomAssessment.FindLabel` | frontend/src/components/SymptomAssessment.jsx:101-103 | `find` gives a label exactly when some option has the value, and then the label of the first such option |
| `SymptomAssessment.ImpairmentLabelLookup` | frontend/src/components/SymptomAssessment.jsx:62-67 | values 0..3 find their own option's label; any other value finds none |
| `SymptomAssessment.BuildSubmission` | frontend/src/components/SymptomAssessment.jsx:75-96 | the posted body carries the map unchanged, the client total, the server fallback's label for that total, and the impairment answer |
| `SymptomAssessment.OptionAnswersShowLabel` | frontend/src/components/SymptomAssessment.jsx:88-104 | when every answer scores 0 to 3, a resolved POST always shows an option label and the server fallback's band for the client total |
| `SymptomAssessment.HandleSubmit` | frontend/src/components/SymptomAssessment.jsx:70-109 | the posted body is always built from the same map; when the POST resolves and the impairment is 0..3, the client severity and the option label are shown; otherwise the error message is shown with no label |
| `AssessmentController.AssessSymptoms` | backend/controllers/assessmentController.js:5-38 | a null prediction stores nothing and replies 500; otherwise the row has the user, the client's totalScore (not recomputed), the prediction's severity unchanged, confidence `\|\| 0`, method `\|\| "ml"` and impairment `\|\| "Not specified"`; the reply is 200 exactly when the insert succeeds, and its values are the row's |
| `AssessmentController.AssessmentStored` | backend/controllers/assessmentController.js:13-24 | any assessment object is stored with its severity (read with `Json.OwnField`); its confidence and method are kept unless falsy (`Json.Or`) |
| `AssessmentController.FallbackStored` | backend/controllers/assessmentController.js:13-15 | a fallback prediction is stored with its band label, confidence 0.85 and method "fallback", not "ml" |
| `AssessmentController.ModelOutputStored` | backend/controllers/assessmentController.js:13-15 | model output `{"severity":"Mild","confidence":0.92}` is stored as Mild, 0.92, method "ml" |
| `AssessmentController.ConfidenceAndMethodDefaults` | backend/controllers/assessmentController.js:14-15 | through `Json.Or` and `Json.OwnField`: a zero or missing confidence becomes 0; a non-empty method string is kept |
| `AssessmentController.ImpairmentDefault` | backend/controllers/assessmentController.js:18 | through `Json.Or`: an impairment of 0 becomes "Not specified"; any other number is kept |
| `EndToEnd.ClientAgreesWithFallback` | frontend/src/components/SymptomAssessment.jsx:75-85 | on a complete form the client total and label equal the server fallback's score and label |
| `EndToEnd.StoredFallbackMatchesClient` | backend/controllers/assessmentController.js:6-23 | on fallback, the stored score (the client's) equals the fallback score, and the stored label is the one the client showed |

## Left out

- Process mechanics are not modelled: spawning, stream buffering and the `close` event (backend/services/mlService.js:49-71). The process is an abstract function from its arguments to its ordered output events and exit code.
- A spawn failure is not modelled. It emits an `error` event that the source does not handle.
- `JSON.stringify` of the feature record is not modelled; the invocation carries the record itself.
- No timeout is modelled, because the source has none.
- `JSON.parse` is a parameter. The order of properties inside JSON objects is not kept, because objects are maps.
- Logging is not modelled: `console.warn`/`console.error`, and `loadModels`, which only logs. The collected standard-error text is accumulated but only logged.
- Keys are modelled as integers. A hand-written body key such as `"01"` or `"1.5"` would not be read as `responses[1]`, yet `parseInt` counts it in the 1..9 filter. The browser never sends such keys.
- Answers are modelled as integers or NaN/`null`. A string or boolean answer in a hand-written body is not modelled; there `+` would concatenate or coerce.
- Answers and totals are unbounded integers. JavaScript numbers are doubles, which are exact for these sums below 2^53.
- Response bodies whose `responses` is not an object are not modelled. For `null` or `undefined` the source throws and replies 500. Other primitives are scored without throwing: a number or boolean has no entries, so the fallback gives Minimal with score 0 and the reply is 200; a string is scored character by character, and `+` then concatenates (`"abc"` totals `"0bc"`, which bands as Severe).
- Integer keys are enumerated in ascending order. JavaScript does this for array-index keys; negative keys would come later in insertion order. The component only ever writes keys 1..10.
- `ParseInt` skips neither leading whitespace nor the `0x` prefix. Option values are only `""` and decimal digits.
- The 0.85 confidence is an exact real constant, not a double.
- The following are not part of this model:
  - the database, and the question bank insert and random sampling (`insertQuestions`, `getRandomQuestions`, `getAssessmentHistory`);
  - authentication;
  - Express wiring;
  - the exported singleton instance;
  - all React rendering;
  - the tooltip banding of the chart, which repeats the fallback table;
  - the Python training and inference scripts. Only the inference script's interface is used: exit 0 with a JSON object, non-zero on error.
