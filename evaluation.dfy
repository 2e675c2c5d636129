/**
 * The scorer adapters of the evaluation service and the single-request
 * orchestration `evaluate_all`.
 *
 * The scorers themselves (the hosted completion, BERTScore, the Prometheus
 * judge and its rubric template) are collaborators this model cannot see.
 * They are passed in as functions that either return a value or fail, which
 * stands for "raises an exception".
 */
module Evaluation {
  import opened Wrappers

  /** An exception raised inside an external scorer call. */
  datatype ScorerError = ScorerError(message: string)

  /**
   * The one exception that escapes `evaluate_prometheus`: filling the rubric
   * template happens before its `try`, so a rubric without one of the
   * template's fields raises a KeyError to the caller.
   */
  datatype EvalError = MissingRubricField

  /** Mean precision, recall and F1 of a BERTScore run. */
  datatype BertScore = BertScore(precision: real, recall: real, f1: real)

  /** The `(feedback, score)` pair of one absolute grading. */
  datatype AbsoluteGrade = AbsoluteGrade(feedback: string, score: real)

  /** The rubric as received: a dictionary from field name to text. */
  type Rubric = map<string, string>

  /** What `evaluate_with_bertscore` returns when the scorer fails. */
  const BertSentinel := BertScore(0.0, 0.0, 0.0)

  /** What `evaluate_prometheus` returns when the judge fails. */
  const PrometheusSentinel := AbsoluteGrade("Error en evaluación Prometheus", 0.0)

  /** The fields the score-rubric template interpolates, in template order. */
  const RubricFields: seq<string> := ["criteria", "score1_description", "score2_description",
                                      "score3_description", "score4_description", "score5_description"]

  /**
   * The external scorers of one evaluation request.
   * `bert` is one batched BERTScore call (candidates, references) already
   * reduced to its three means; `renderRubric` fills the score-rubric template
   * from the six field values in `RubricFields` order; `judge` is the
   * Prometheus absolute grader, called with (instruction, response, rubric
   * text, reference answer). The judge is built once by the caller and shared.
   */
  datatype Scorers = Scorers(
    bert: (seq<string>, seq<string>) -> Result<BertScore, ScorerError>,
    renderRubric: seq<string> -> string,
    judge: (string, string, string, string) -> Result<AbsoluteGrade, ScorerError>)

  /** One invocation of an external scorer, as the orchestration issues it. */
  datatype ScorerCall =
    | JudgeCall(instruction: string, response: string, reference: string)
    | BertCall(candidates: seq<string>, references: seq<string>)

  /** The dictionary `evaluate_all` returns. */
  datatype EvaluationReport = EvaluationReport(
    openaiScore: real,
    bertscore: BertScore,
    prometheusScore: seq<AbsoluteGrade>)

  // ---------------------------------------------------------------------------
  // Averages
  // ---------------------------------------------------------------------------

  /** Python's `sum` over a list of scores, added left to right. */
  function Sum(xs: seq<real>): real
  {
    if xs == [] then 0.0 else Sum(xs[..|xs| - 1]) + xs[|xs| - 1]
  }

  /** `sum(xs) / len(xs) if xs else 0`: the arithmetic mean, 0 for no scores. */
  function Mean(xs: seq<real>): (m: real)
    ensures |xs| == 0 ==> m == 0.0
    ensures |xs| > 0 ==> m * (|xs| as real) == Sum(xs)
  {
    if |xs| == 0 then 0.0 else Sum(xs) / (|xs| as real)
  }

  lemma {:induction false} SumBounds(xs: seq<real>, lo: real, hi: real)
    requires forall i :: 0 <= i < |xs| ==> lo <= xs[i] <= hi
    ensures lo * (|xs| as real) <= Sum(xs) <= hi * (|xs| as real)
  {
    if xs != [] {
      SumBounds(xs[..|xs| - 1], lo, hi);
    }
  }

  /** A mean of scores that all lie in `[lo, hi]` lies in `[lo, hi]` too. */
  lemma MeanBounds(xs: seq<real>, lo: real, hi: real)
    requires |xs| > 0
    requires forall i :: 0 <= i < |xs| ==> lo <= xs[i] <= hi
    ensures lo <= Mean(xs) <= hi
  {
    SumBounds(xs, lo, hi);
    var n := |xs| as real;
    assert (Mean(xs) - lo) * n >= 0.0;
    assert (hi - Mean(xs)) * n >= 0.0;
  }

  // ---------------------------------------------------------------------------
  // Hosted-completion grader (`evaluate_with_openai`)
  // ---------------------------------------------------------------------------

  /** Python's `str.isspace` for one character. */
  predicate IsSpace(c: char)
  {
    var n := c as int;
    (0x09 <= n <= 0x0D) || (0x1C <= n <= 0x20) || n == 0x85 || n == 0xA0 || n == 0x1680
    || (0x2000 <= n <= 0x200A) || n == 0x2028 || n == 0x2029 || n == 0x202F || n == 0x205F
    || n == 0x3000
  }

  /** The number of whitespace characters `str.strip` removes on the left. */
  function LeadingSpaces(s: string): (n: nat)
    ensures n <= |s|
    ensures forall k :: 0 <= k < n ==> IsSpace(s[k])
    ensures n < |s| ==> !IsSpace(s[n])
  {
    if |s| == 0 || !IsSpace(s[0]) then 0 else 1 + LeadingSpaces(s[1..])
  }

  /** The number of whitespace characters `str.strip` removes on the right. */
  function TrailingSpaces(s: string): (n: nat)
    ensures n <= |s|
    ensures forall k :: |s| - n <= k < |s| ==> IsSpace(s[k])
    ensures n < |s| ==> !IsSpace(s[|s| - 1 - n])
  {
    if |s| == 0 || !IsSpace(s[|s| - 1]) then 0 else 1 + TrailingSpaces(s[..|s| - 1])
  }

  /** Python's `str.strip()` with no argument. */
  function Strip(s: string): (t: string)
    ensures LeadingSpaces(s) + |t| <= |s|
    ensures t == [] <==> forall k :: 0 <= k < |s| ==> IsSpace(s[k])
    ensures t != [] ==> !IsSpace(t[0]) && !IsSpace(t[|t| - 1])
    ensures t == s[LeadingSpaces(s)..LeadingSpaces(s) + |t|]
    ensures forall k :: LeadingSpaces(s) + |t| <= k < |s| ==> IsSpace(s[k])
  {
    var i := LeadingSpaces(s);
    var rest := s[i..];
    rest[..|rest| - TrailingSpaces(rest)]
  }

  /** The prompt sent to the completion engine. */
  function OpenAIPrompt(modelResponse: string, reference: string): string
  {
    "Evalúa la siguiente respuesta del modelo comparada con la respuesta de referencia. "
    + "Proporciona una calificación del 1 al 10 considerando coherencia, precisión y completitud.\n\n"
    + "Respuesta del modelo: " + modelResponse + "\n"
    + "Respuesta de referencia: " + reference + "\n\n"
    + "Calificación:"
  }

  /**
   * `evaluate_with_openai`: `complete` is the completion call (prompt to the
   * texts of the returned choices) and `parseFloat` is Python's `float`.
   * Every failure inside the `try` yields the sentinel 0.0.
   */
  function EvaluateWithOpenAI(complete: string -> Result<seq<string>, ScorerError>,
                              parseFloat: string -> Option<real>,
                              modelResponse: string, reference: string): (score: real)
    ensures var reply := complete(OpenAIPrompt(modelResponse, reference));
            && (reply.Failure? ==> score == 0.0)
            && (reply.Success? && |reply.value| == 0 ==> score == 0.0)
            && (reply.Success? && |reply.value| > 0 ==>
                  var parsed := parseFloat(Strip(reply.value[0]));
                  (parsed.None? ==> score == 0.0) && (parsed.Some? ==> score == parsed.value))
  {
    match complete(OpenAIPrompt(modelResponse, reference))
    case Failure(_) => 0.0
    case Success(choices) =>
      if |choices| == 0 then 0.0
      else
        match parseFloat(Strip(choices[0]))
        case None => 0.0
        case Some(v) => v
  }

  // ---------------------------------------------------------------------------
  // BERTScore (`evaluate_with_bertscore`)
  // ---------------------------------------------------------------------------

  /** One batched BERTScore run; a failing scorer yields the all-zero triple. */
  function EvaluateWithBertScore(s: Scorers, candidates: seq<string>, references: seq<string>): (b: BertScore)
    ensures s.bert(candidates, references).Failure? ==> b == BertSentinel
    ensures s.bert(candidates, references).Success? ==> b == s.bert(candidates, references).value
  {
    match s.bert(candidates, references)
    case Success(means) => means
    case Failure(_) => BertSentinel
  }

  // ---------------------------------------------------------------------------
  // Prometheus absolute grading (`evaluate_prometheus`)
  // ---------------------------------------------------------------------------

  /** True when the rubric has every field the template interpolates. */
  predicate HasRubricFields(rubric: Rubric)
  {
    forall i :: 0 <= i < |RubricFields| ==> RubricFields[i] in rubric
  }

  /** The filled score-rubric template; keys outside `RubricFields` are ignored. */
  function RubricText(s: Scorers, rubric: Rubric): string
    requires HasRubricFields(rubric)
  {
    s.renderRubric(seq(|RubricFields|, i requires 0 <= i < |RubricFields| => rubric[RubricFields[i]]))
  }

  /**
   * Two rubrics that agree on the template's fields give the same rubric text.
   * This holds by construction, since `RubricText` reads only those fields; the
   * lemma records that `.format(**rubric)` ignores extra keys and proves nothing beyond that.
   */
  lemma RubricTextIgnoresExtraKeys(s: Scorers, r1: Rubric, r2: Rubric)
    requires HasRubricFields(r1) && HasRubricFields(r2)
    requires forall i :: 0 <= i < |RubricFields| ==> r1[RubricFields[i]] == r2[RubricFields[i]]
    ensures RubricText(s, r1) == RubricText(s, r2)
  {
    var v1 := seq(|RubricFields|, i requires 0 <= i < |RubricFields| => r1[RubricFields[i]]);
    var v2 := seq(|RubricFields|, i requires 0 <= i < |RubricFields| => r2[RubricFields[i]]);
    assert v1 == v2;
  }

  /**
   * `evaluate_prometheus`: a rubric missing a template field raises (the
   * formatting is outside the `try`); otherwise a failing judge yields the
   * sentinel pair, and a successful one yields its feedback and score together.
   */
  function EvaluatePrometheus(s: Scorers, instruction: string, modelResponse: string,
                              reference: string, rubric: Rubric): (r: Result<AbsoluteGrade, EvalError>)
    ensures r.Failure? <==> !HasRubricFields(rubric)
    ensures r.Failure? ==> r.error == MissingRubricField
    ensures HasRubricFields(rubric) ==>
              var verdict := s.judge(instruction, modelResponse, RubricText(s, rubric), reference);
              (verdict.Failure? ==> r == Success(PrometheusSentinel))
              && (verdict.Success? ==> r == Success(verdict.value))
  {
    if !HasRubricFields(rubric) then Failure(MissingRubricField)
    else
      match s.judge(instruction, modelResponse, RubricText(s, rubric), reference)
      case Success(grade) => Success(grade)
      case Failure(_) => Success(PrometheusSentinel)
  }

  // ---------------------------------------------------------------------------
  // Single-request orchestration (`evaluate_all`)
  // ---------------------------------------------------------------------------

  /** The number of pairs `zip` produces. */
  function PairCount(xs: seq<string>, ys: seq<string>): (n: nat)
    ensures n <= |xs| && n <= |ys|
    ensures n == |xs| || n == |ys|
  {
    if |xs| <= |ys| then |xs| else |ys|
  }

  /** The judge invocations for the zipped pairs, in order. */
  function JudgeCalls(instruction: string, modelResponses: seq<string>, referenceResponses: seq<string>): seq<ScorerCall>
  {
    var n := PairCount(modelResponses, referenceResponses);
    seq(n, i requires 0 <= i < n => JudgeCall(instruction, modelResponses[i], referenceResponses[i]))
  }

  /**
   * `evaluate_all`. `calls` lists the scorer invocations in the order they
   * are made. The OpenAI grader is never called, so its average is always 0.
   */
  method EvaluateAll(s: Scorers, instruction: string, modelResponses: seq<string>,
                     referenceResponses: seq<string>, rubric: Rubric)
    returns (r: Result<EvaluationReport, EvalError>, calls: seq<ScorerCall>)
    ensures r.Failure? <==> PairCount(modelResponses, referenceResponses) > 0 && !HasRubricFields(rubric)
    ensures r.Failure? ==> r.error == MissingRubricField && calls == []
    ensures r.Success? ==> |r.value.prometheusScore| == PairCount(modelResponses, referenceResponses)
    ensures r.Success? ==> forall i :: 0 <= i < |r.value.prometheusScore| ==>
              EvaluatePrometheus(s, instruction, modelResponses[i], referenceResponses[i], rubric)
                == Success(r.value.prometheusScore[i])
    ensures r.Success? ==> r.value.openaiScore == 0.0
    ensures r.Success? ==> r.value.bertscore == EvaluateWithBertScore(s, modelResponses, referenceResponses)
    ensures r.Success? ==> calls == JudgeCalls(instruction, modelResponses, referenceResponses)
                                    + [BertCall(modelResponses, referenceResponses)]
  {
    var openaiScores: seq<real> := [];
    var prometheusScores: seq<AbsoluteGrade> := [];
    calls := [];
    var n := PairCount(modelResponses, referenceResponses);
    ghost var expected := JudgeCalls(instruction, modelResponses, referenceResponses);
    for i := 0 to n
      invariant |prometheusScores| == i
      invariant forall k :: 0 <= k < i ==>
                  EvaluatePrometheus(s, instruction, modelResponses[k], referenceResponses[k], rubric)
                    == Success(prometheusScores[k])
      invariant calls == expected[..i]
      invariant i > 0 ==> HasRubricFields(rubric)
    {
      var graded := EvaluatePrometheus(s, instruction, modelResponses[i], referenceResponses[i], rubric);
      if graded.Failure? {
        r := Failure(graded.error);
        return;
      }
      calls := calls + [JudgeCall(instruction, modelResponses[i], referenceResponses[i])];
      prometheusScores := prometheusScores + [graded.value];
    }
    var bertResults := EvaluateWithBertScore(s, modelResponses, referenceResponses);
    calls := calls + [BertCall(modelResponses, referenceResponses)];
    var avgOpenAI := Mean(openaiScores);
    r := Success(EvaluationReport(avgOpenAI, bertResults, prometheusScores));
  }
}
