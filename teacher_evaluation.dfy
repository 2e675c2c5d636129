/**
 * Batch grading of a student-by-question sheet (`process_teacher_evaluation`):
 * validation of the sheet's shape, the walk over students and questions,
 * the per-student mean, and the flattening of each student into one export row.
 *
 * The spreadsheet is taken as already read (a header of column names and rows
 * of cells) and the export is given as ordered key/value rows; reading and
 * writing the workbook is not part of this model.
 */
module TeacherEvaluation {
  import opened Wrappers
  import opened Evaluation

  /** The column that names the student. */
  const NameColumn := "student_name"

  /** The export column holding the student's mean. */
  const GradeColumn := "final_grade"

  const ScoreSuffix := " final_score"
  const FeedbackSuffix := " prometheus_feedback"

  /** A sheet as read: column names and one row of cells per student. */
  datatype Sheet = Sheet(columns: seq<string>, rows: seq<seq<string>>)

  /** Every row has one cell per column, as in any data frame. */
  predicate Rectangular(sheet: Sheet)
  {
    forall i :: 0 <= i < |sheet.rows| ==> |sheet.rows[i]| == |sheet.columns|
  }

  /** The batch request: the shared rubric and, per question, a reference and an instruction. */
  datatype TeacherEvaluationRequest = TeacherEvaluationRequest(
    rubric: Rubric,
    referenceResponses: seq<string>,
    instructions: seq<string>)

  datatype QuestionEvaluation = QuestionEvaluation(
    question: string,
    studentAnswer: string,
    bertscore: BertScore,
    prometheusFeedback: string,
    prometheusScore: real,
    finalQuestionScore: real)

  datatype StudentResult = StudentResult(
    studentName: string,
    questions: seq<QuestionEvaluation>,
    finalGrade: real)

  /** What stops the batch: a 400 response, or an exception raised during the walk. */
  datatype TeacherError =
    | HttpError(statusCode: int, detail: string)
    | RubricKeyError          // the rubric lacks a field of the score-rubric template
    | InstructionIndexError   // fewer instructions than reference responses

  /** A cell of the exported sheet. */
  datatype Cell = Text(text: string) | Number(value: real)

  /** One export row: a dictionary, kept as its (key, value) pairs in insertion order. */
  type ExportRow = seq<(string, Cell)>

  // ---------------------------------------------------------------------------
  // Decimal rendering of question numbers and counts
  // ---------------------------------------------------------------------------

  predicate IsDigit(c: char)
  {
    '0' <= c <= '9'
  }

  function Digit(d: nat): (c: char)
    requires d < 10
    ensures IsDigit(c) && DigitValue(c) == d
  {
    "0123456789"[d]
  }

  /** Python's `str` of a natural number: its decimal digits. */
  function NatToString(n: nat): (s: string)
    ensures |s| > 0
    ensures forall i :: 0 <= i < |s| ==> IsDigit(s[i])
  {
    if n < 10 then [Digit(n)] else NatToString(n / 10) + [Digit(n % 10)]
  }

  /** The value of one decimal digit. */
  function DigitValue(c: char): nat
    requires IsDigit(c)
  {
    c as int - '0' as int
  }

  /** The number a string of decimal digits denotes. */
  function DigitsValue(s: string): nat
    requires forall i :: 0 <= i < |s| ==> IsDigit(s[i])
  {
    if s == [] then 0 else DigitsValue(s[..|s| - 1]) * 10 + DigitValue(s[|s| - 1])
  }

  lemma {:induction false} DigitsValueOfNatToString(n: nat)
    ensures DigitsValue(NatToString(n)) == n
  {
    if n >= 10 {
      var s := NatToString(n);
      assert s[..|s| - 1] == NatToString(n / 10);
      DigitsValueOfNatToString(n / 10);
    }
  }

  /** Distinct numbers are rendered differently. */
  lemma NatToStringInjective(a: nat, b: nat)
    requires NatToString(a) == NatToString(b)
    ensures a == b
  {
    DigitsValueOfNatToString(a);
    DigitsValueOfNatToString(b);
  }

  /** The label of the 0-based question `q`: `Q1`, `Q2`, ... */
  function Label(q: nat): string
  {
    "Q" + NatToString(q + 1)
  }

  // ---------------------------------------------------------------------------
  // Validation
  // ---------------------------------------------------------------------------

  /** The position of the first column with the given name. */
  function IndexOf(columns: seq<string>, name: string): (i: nat)
    requires name in columns
    ensures i < |columns| && columns[i] == name
    ensures forall j :: 0 <= j < i ==> columns[j] != name
  {
    if columns[0] == name then 0 else 1 + IndexOf(columns[1..], name)
  }

  /** The number of columns the positional slice `1 .. 1 + questions` selects. */
  function AnswerColumnCount(columns: seq<string>, questions: nat): (width: nat)
    ensures width <= questions
    ensures |columns| == 0 ==> width == 0
    ensures |columns| > 0 ==> (width == questions <==> |columns| - 1 >= questions)
    ensures width < questions ==> width == if |columns| == 0 then 0 else |columns| - 1
  {
    if |columns| <= 1 then 0
    else if |columns| - 1 < questions then |columns| - 1
    else questions
  }

  const MissingNameDetail := "El archivo debe contener una columna 'student_name'."

  function ShapeDetail(expected: nat, found: nat): string
  {
    "Se esperaban " + NatToString(expected) + " preguntas, pero se encontraron "
    + NatToString(found) + " columnas de respuestas."
  }

  /** The checks made before any scorer is called; `None` lets the walk start. */
  function Validate(sheet: Sheet, req: TeacherEvaluationRequest): (e: Option<TeacherError>)
    ensures e.None? <==> NameColumn in sheet.columns
                          && |sheet.columns| - 1 >= |req.referenceResponses|
    ensures NameColumn !in sheet.columns ==> e == Some(HttpError(400, MissingNameDetail))
    ensures NameColumn in sheet.columns && |sheet.columns| - 1 < |req.referenceResponses| ==>
              e == Some(HttpError(400, ShapeDetail(|req.referenceResponses|, |sheet.columns| - 1)))
  {
    if NameColumn !in sheet.columns then Some(HttpError(400, MissingNameDetail))
    else
      var questions := |req.referenceResponses|;
      var found := AnswerColumnCount(sheet.columns, questions);
      if found != questions then Some(HttpError(400, ShapeDetail(questions, found)))
      else None
  }

  // ---------------------------------------------------------------------------
  // The grid walk, specified question by question
  // ---------------------------------------------------------------------------

  /** Every question can be graded: the rubric fills the template and each question has an instruction. */
  predicate QuestionsGradable(req: TeacherEvaluationRequest)
  {
    |req.referenceResponses| == 0
    || (HasRubricFields(req.rubric) && |req.instructions| >= |req.referenceResponses|)
  }

  /** The walk finishes without raising. */
  predicate RunsToCompletion(sheet: Sheet, req: TeacherEvaluationRequest)
  {
    |sheet.rows| == 0 || QuestionsGradable(req)
  }

  /** The exception the walk raises, when it does (always on the first student). */
  function CrashError(req: TeacherEvaluationRequest): TeacherError
  {
    if |req.instructions| > 0 && !HasRubricFields(req.rubric) then RubricKeyError else InstructionIndexError
  }

  /** How many questions of the first student are scored before the walk raises. */
  function QuestionsBeforeCrash(req: TeacherEvaluationRequest): nat
  {
    if HasRubricFields(req.rubric) then |req.instructions| else 0
  }

  /** The scores a student's evaluations contribute to the mean. */
  function Scores(qs: seq<QuestionEvaluation>): (xs: seq<real>)
    ensures |xs| == |qs|
    ensures forall q :: 0 <= q < |qs| ==> xs[q] == qs[q].finalQuestionScore
  {
    seq(|qs|, q requires 0 <= q < |qs| => qs[q].finalQuestionScore)
  }

  /** The evaluation of question `q`, answered by `answer`. */
  function EvaluateQuestion(s: Scorers, req: TeacherEvaluationRequest, answer: string, q: nat): QuestionEvaluation
    requires q < |req.referenceResponses| && q < |req.instructions| && HasRubricFields(req.rubric)
  {
    var grade := EvaluatePrometheus(s, req.instructions[q], answer, req.referenceResponses[q], req.rubric).value;
    QuestionEvaluation(Label(q), answer, EvaluateWithBertScore(s, [answer], [req.referenceResponses[q]]),
                       grade.feedback, grade.score, grade.score)
  }

  /** The result of one student row, as the walk builds it. */
  function GradeStudent(s: Scorers, columns: seq<string>, req: TeacherEvaluationRequest, row: seq<string>): (r: StudentResult)
    requires NameColumn in columns && |row| == |columns| && |req.referenceResponses| < |columns|
    requires QuestionsGradable(req)
    ensures r.studentName == row[IndexOf(columns, NameColumn)]
    ensures |r.questions| == |req.referenceResponses|
    ensures forall q :: 0 <= q < |r.questions| ==>
              var qe := r.questions[q];
              && qe.question == Label(q)
              && qe.studentAnswer == row[q + 1]
              && EvaluatePrometheus(s, req.instructions[q], row[q + 1], req.referenceResponses[q], req.rubric)
                   == Success(AbsoluteGrade(qe.prometheusFeedback, qe.prometheusScore))
              && qe.finalQuestionScore == qe.prometheusScore
              && qe.bertscore == EvaluateWithBertScore(s, [row[q + 1]], [req.referenceResponses[q]])
    ensures r.finalGrade == Mean(Scores(r.questions))
  {
    var n := |req.referenceResponses|;
    var qs := seq(n, q requires 0 <= q < n => EvaluateQuestion(s, req, row[q + 1], q));
    StudentResult(row[IndexOf(columns, NameColumn)], qs, Mean(Scores(qs)))
  }

  /** Rows that fit the header and leave room for every answer column. */
  predicate RowsFit(columns: seq<string>, req: TeacherEvaluationRequest, rows: seq<seq<string>>)
  {
    && NameColumn in columns
    && |req.referenceResponses| < |columns|
    && forall i :: 0 <= i < |rows| ==> |rows[i]| == |columns|
  }

  /** One result per row, in row order. */
  function GradeRows(s: Scorers, columns: seq<string>, req: TeacherEvaluationRequest, rows: seq<seq<string>>): seq<StudentResult>
    requires RowsFit(columns, req, rows)
    requires |rows| == 0 || QuestionsGradable(req)
  {
    seq(|rows|, i requires 0 <= i < |rows| => GradeStudent(s, columns, req, rows[i]))
  }

  /** The scorer calls made for the first `k` questions of a row: the judge, then BERTScore on the single pair. */
  function QuestionCalls(req: TeacherEvaluationRequest, row: seq<string>, k: nat): seq<ScorerCall>
    requires k <= |req.referenceResponses| && k <= |req.instructions| && k < |row|
  {
    if k == 0 then []
    else QuestionCalls(req, row, k - 1)
         + [JudgeCall(req.instructions[k - 1], row[k], req.referenceResponses[k - 1]),
            BertCall([row[k]], [req.referenceResponses[k - 1]])]
  }

  /** The scorer calls of a whole walk, row after row. */
  function GridCalls(req: TeacherEvaluationRequest, rows: seq<seq<string>>): seq<ScorerCall>
    requires forall i :: 0 <= i < |rows| ==> |req.referenceResponses| < |rows[i]|
    requires |rows| == 0 || |req.referenceResponses| <= |req.instructions|
  {
    if rows == [] then []
    else GridCalls(req, rows[..|rows| - 1]) + QuestionCalls(req, rows[|rows| - 1], |req.referenceResponses|)
  }

  /**
   * The questions of one row (lines 43-70): the answer in column `q + 1` is
   * graded against reference and instruction `q`. On failure `rowCalls` are
   * the calls made before the exception.
   */
  method GradeRow(s: Scorers, columns: seq<string>, req: TeacherEvaluationRequest, row: seq<string>)
    returns (r: Result<StudentResult, TeacherError>, rowCalls: seq<ScorerCall>)
    requires NameColumn in columns && |row| == |columns| && |req.referenceResponses| < |columns|
    ensures r.Success? <==> QuestionsGradable(req)
    ensures r.Success? ==> r.value == GradeStudent(s, columns, req, row)
                           && rowCalls == QuestionCalls(req, row, |req.referenceResponses|)
    ensures r.Failure? ==> r.error == CrashError(req)
                           && rowCalls == QuestionCalls(req, row, QuestionsBeforeCrash(req))
  {
    rowCalls := [];
    var numQuestions := |req.referenceResponses|;
    var studentName := row[IndexOf(columns, NameColumn)];
    var questionEvaluations: seq<QuestionEvaluation> := [];
    var finalScores: seq<real> := [];
    for q := 0 to numQuestions
      invariant q > 0 ==> HasRubricFields(req.rubric) && q <= |req.instructions|
      invariant |questionEvaluations| == q
      invariant forall k :: 0 <= k < q ==> questionEvaluations[k] == EvaluateQuestion(s, req, row[k + 1], k)
      invariant finalScores == Scores(questionEvaluations)
      invariant rowCalls == QuestionCalls(req, row, q)
    {
      var studentAnswer := row[q + 1];
      var reference := req.referenceResponses[q];
      if q >= |req.instructions| {
        r := Failure(InstructionIndexError);
        return;
      }
      var instruction := req.instructions[q];
      var graded := EvaluatePrometheus(s, instruction, studentAnswer, reference, req.rubric);
      if graded.Failure? {
        r := Failure(RubricKeyError);
        return;
      }
      var bertscore := EvaluateWithBertScore(s, [studentAnswer], [reference]);
      rowCalls := rowCalls + [JudgeCall(instruction, studentAnswer, reference), BertCall([studentAnswer], [reference])];
      var qScore := graded.value.score;
      finalScores := finalScores + [qScore];
      questionEvaluations := questionEvaluations
        + [QuestionEvaluation(Label(q), studentAnswer, bertscore, graded.value.feedback, graded.value.score, qScore)];
    }
    var finalGrade := Mean(finalScores);
    r := Success(StudentResult(studentName, questionEvaluations, finalGrade));
  }

  /**
   * Lines 27-76: validate, then walk every row and every question. `calls`
   * lists the scorer invocations in order. A failed validation makes no call
   * at all; a walk that raises does so on the first student.
   */
  method GradeStudents(s: Scorers, sheet: Sheet, req: TeacherEvaluationRequest)
    returns (r: Result<seq<StudentResult>, TeacherError>, calls: seq<ScorerCall>)
    requires Rectangular(sheet)
    ensures Validate(sheet, req).Some? ==> r == Failure(Validate(sheet, req).value) && calls == []
    ensures r.Success? <==> Validate(sheet, req).None? && RunsToCompletion(sheet, req)
    ensures Validate(sheet, req).None? && !RunsToCompletion(sheet, req) ==>
              && r == Failure(CrashError(req))
              && calls == QuestionCalls(req, sheet.rows[0], QuestionsBeforeCrash(req))
    ensures r.Success? ==>
              && r.value == GradeRows(s, sheet.columns, req, sheet.rows)
              && calls == GridCalls(req, sheet.rows)
  {
    calls := [];
    var invalid := Validate(sheet, req);
    if invalid.Some? {
      r := Failure(invalid.value);
      return;
    }
    var results: seq<StudentResult> := [];
    for i := 0 to |sheet.rows|
      invariant i > 0 ==> QuestionsGradable(req)
      invariant results == GradeRows(s, sheet.columns, req, sheet.rows[..i])
      invariant calls == GridCalls(req, sheet.rows[..i])
    {
      var graded, rowCalls := GradeRow(s, sheet.columns, req, sheet.rows[i]);
      if graded.Failure? {
        r, calls := Failure(graded.error), calls + rowCalls;
        return;
      }
      results := results + [graded.value];
      calls := calls + rowCalls;
      assert sheet.rows[..i + 1][..i] == sheet.rows[..i];
    }
    assert sheet.rows[..|sheet.rows|] == sheet.rows;
    r := Success(results);
  }

  // ---------------------------------------------------------------------------
  // Flattening for export (lines 80-88)
  // ---------------------------------------------------------------------------

  /** The keys of a row, in order. */
  function Keys(row: ExportRow): (ks: seq<string>)
    ensures |ks| == |row|
    ensures forall i :: 0 <= i < |row| ==> ks[i] == row[i].0
  {
    seq(|row|, i requires 0 <= i < |row| => row[i].0)
  }

  /**
   * `row[key] = value` on a dictionary: an existing key keeps its place and
   * takes the new value, a new key goes last.
   */
  function Put(row: ExportRow, key: string, value: Cell): ExportRow
  {
    if key in Keys(row) then row[IndexOf(Keys(row), key) := (key, value)] else row + [(key, value)]
  }

  /** The first two entries of every export row. */
  function Header(res: StudentResult): ExportRow
  {
    [(NameColumn, Text(res.studentName)), (GradeColumn, Number(res.finalGrade))]
  }

  /** The dictionary after the score and feedback of each evaluation in `qs` are stored. */
  function PutQuestions(row: ExportRow, qs: seq<QuestionEvaluation>): ExportRow
  {
    if qs == [] then row
    else
      var qe := qs[|qs| - 1];
      var withScore := Put(PutQuestions(row, qs[..|qs| - 1]), qe.question + ScoreSuffix, Number(qe.finalQuestionScore));
      Put(withScore, qe.question + FeedbackSuffix, Text(qe.prometheusFeedback))
  }

  /** The export row of one student. */
  function ExportRowOf(res: StudentResult): ExportRow
  {
    PutQuestions(Header(res), res.questions)
  }

  /** The export column with the score of the 0-based question `q`. */
  function ScoreKey(q: nat): string
  {
    Label(q) + ScoreSuffix
  }

  /** The export column with the judge's feedback on the 0-based question `q`. */
  function FeedbackKey(q: nat): string
  {
    Label(q) + FeedbackSuffix
  }

  /** The columns of the export for `questions` questions, in order. */
  function ExportColumns(questions: nat): (cols: seq<string>)
    ensures |cols| == 2 + 2 * questions
  {
    if questions == 0 then [NameColumn, GradeColumn]
    else ExportColumns(questions - 1) + [ScoreKey(questions - 1), FeedbackKey(questions - 1)]
  }

  /** The export columns by position: name, grade, then each question's score and feedback. */
  lemma {:induction false} ExportColumnsAt(n: nat)
    ensures ExportColumns(n)[0] == NameColumn && ExportColumns(n)[1] == GradeColumn
    ensures forall q :: 0 <= q < n ==> ExportColumns(n)[2 + 2 * q] == ScoreKey(q)
                                       && ExportColumns(n)[3 + 2 * q] == FeedbackKey(q)
  {
    if n > 0 {
      ExportColumnsAt(n - 1);
    }
  }

  lemma LabelsWithSuffixDiffer(a: nat, b: nat, x: string, y: string)
    requires x in {ScoreSuffix, FeedbackSuffix} && y in {ScoreSuffix, FeedbackSuffix}
    requires Label(a) + x == Label(b) + y
    ensures a == b && x == y
  {
    var da, db := NatToString(a + 1), NatToString(b + 1);
    var u, v := Label(a) + x, Label(b) + y;
    // The two suffixes end in different letters, so equal names share their suffix.
    assert u[|u| - 1] == x[|x| - 1] && v[|v| - 1] == y[|y| - 1];
    assert x == y;
    assert da == u[1..|u| - |x|];
    assert db == v[1..|v| - |y|];
    NatToStringInjective(a + 1, b + 1);
  }

  /** The two columns of a question `m` are not among the columns of the first `n <= m` questions. */
  lemma {:induction false} NewColumnsFresh(m: nat, n: nat)
    requires n <= m
    ensures ScoreKey(m) !in ExportColumns(n) && FeedbackKey(m) !in ExportColumns(n)
    ensures ScoreKey(m) != FeedbackKey(m)
  {
    assert ScoreKey(m)[0] == 'Q' && FeedbackKey(m)[0] == 'Q';
    if ScoreKey(m) == FeedbackKey(m) {
      LabelsWithSuffixDiffer(m, m, ScoreSuffix, FeedbackSuffix);
    }
    if n > 0 {
      NewColumnsFresh(m, n - 1);
      var q := n - 1;
      if ScoreKey(m) == ScoreKey(q) || FeedbackKey(m) == ScoreKey(q) {
        LabelsWithSuffixDiffer(m, q, if ScoreKey(m) == ScoreKey(q) then ScoreSuffix else FeedbackSuffix, ScoreSuffix);
      }
      if ScoreKey(m) == FeedbackKey(q) || FeedbackKey(m) == FeedbackKey(q) {
        LabelsWithSuffixDiffer(m, q, if ScoreKey(m) == FeedbackKey(q) then ScoreSuffix else FeedbackSuffix, FeedbackSuffix);
      }
    }
  }

  /** No export column name repeats, so each row is a dictionary with one entry per column. */
  lemma {:induction false} ExportColumnsDistinct(n: nat)
    ensures forall i, j :: 0 <= i < j < |ExportColumns(n)| ==> ExportColumns(n)[i] != ExportColumns(n)[j]
  {
    if n > 0 {
      ExportColumnsDistinct(n - 1);
      NewColumnsFresh(n - 1, n - 1);
    }
  }

  /** The header and the first `m` questions' score and feedback, appended in order. */
  function Layout(res: StudentResult, m: nat): (row: ExportRow)
    requires m <= |res.questions|
    ensures |row| == 2 + 2 * m
  {
    if m == 0 then Header(res)
    else
      var qe := res.questions[m - 1];
      Layout(res, m - 1) + [(ScoreKey(m - 1), Number(qe.finalQuestionScore)),
                            (FeedbackKey(m - 1), Text(qe.prometheusFeedback))]
  }

  lemma {:induction false} LayoutKeys(res: StudentResult, m: nat)
    requires m <= |res.questions|
    ensures Keys(Layout(res, m)) == ExportColumns(m)
  {
    if m > 0 {
      LayoutKeys(res, m - 1);
    }
  }

  lemma {:induction false} LayoutAt(res: StudentResult, m: nat)
    requires m <= |res.questions|
    ensures Layout(res, m)[0].1 == Text(res.studentName) && Layout(res, m)[1].1 == Number(res.finalGrade)
    ensures forall q :: 0 <= q < m ==>
              && Layout(res, m)[2 + 2 * q].1 == Number(res.questions[q].finalQuestionScore)
              && Layout(res, m)[3 + 2 * q].1 == Text(res.questions[q].prometheusFeedback)
  {
    if m > 0 {
      LayoutAt(res, m - 1);
    }
  }

  /** The questions are labelled `Q1`, `Q2`, ... in order, as the grid walk labels them. */
  predicate LabelledInOrder(res: StudentResult)
  {
    forall q :: 0 <= q < |res.questions| ==> res.questions[q].question == Label(q)
  }

  lemma {:induction false} PutQuestionsLayout(res: StudentResult, m: nat)
    requires LabelledInOrder(res) && m <= |res.questions|
    ensures PutQuestions(Header(res), res.questions[..m]) == Layout(res, m)
  {
    if m > 0 {
      var qs := res.questions[..m];
      assert qs[..m - 1] == res.questions[..m - 1];
      PutQuestionsLayout(res, m - 1);
      var qe := res.questions[m - 1];
      var before := Layout(res, m - 1);
      LayoutKeys(res, m - 1);
      NewColumnsFresh(m - 1, m - 1);
      var mid := before + [(ScoreKey(m - 1), Number(qe.finalQuestionScore))];
      assert Keys(mid) == ExportColumns(m - 1) + [ScoreKey(m - 1)];
    }
  }

  /**
   * The export row of a graded student: `student_name`, `final_grade`, then
   * `Qn final_score` and `Qn prometheus_feedback` for each question in order,
   * each holding that question's score and feedback; no BERTScore column.
   */
  lemma ExportRowLayout(res: StudentResult)
    requires LabelledInOrder(res)
    ensures Keys(ExportRowOf(res)) == ExportColumns(|res.questions|)
    ensures ExportRowOf(res)[0].1 == Text(res.studentName) && ExportRowOf(res)[1].1 == Number(res.finalGrade)
    ensures forall q :: 0 <= q < |res.questions| ==>
              && ExportRowOf(res)[2 + 2 * q].1 == Number(res.questions[q].finalQuestionScore)
              && ExportRowOf(res)[3 + 2 * q].1 == Text(res.questions[q].prometheusFeedback)
  {
    PutQuestionsLayout(res, |res.questions|);
    LayoutKeys(res, |res.questions|);
    LayoutAt(res, |res.questions|);
    assert res.questions[..|res.questions|] == res.questions;
  }

  /** The key at each position of an export row: name, grade, then each question's score and feedback column. */
  lemma ExportRowKeysAt(res: StudentResult)
    requires LabelledInOrder(res)
    ensures |ExportRowOf(res)| == 2 + 2 * |res.questions|
    ensures ExportRowOf(res)[0].0 == NameColumn && ExportRowOf(res)[1].0 == GradeColumn
    ensures forall q :: 0 <= q < |res.questions| ==>
              ExportRowOf(res)[2 + 2 * q].0 == ScoreKey(q) && ExportRowOf(res)[3 + 2 * q].0 == FeedbackKey(q)
  {
    ExportRowLayout(res);
    ExportColumnsAt(|res.questions|);
  }

  /** Lines 80-88: one export row per student, in order. */
  method FlattenResults(results: seq<StudentResult>) returns (outputRows: seq<ExportRow>)
    ensures |outputRows| == |results|
    ensures forall i :: 0 <= i < |results| ==> outputRows[i] == ExportRowOf(results[i])
  {
    outputRows := [];
    for i := 0 to |results|
      invariant |outputRows| == i
      invariant forall k :: 0 <= k < i ==> outputRows[k] == ExportRowOf(results[k])
    {
      var res := results[i];
      var row := Header(res);
      for j := 0 to |res.questions|
        invariant row == PutQuestions(Header(res), res.questions[..j])
      {
        var qEval := res.questions[j];
        assert res.questions[..j + 1][..j] == res.questions[..j];
        row := Put(row, qEval.question + ScoreSuffix, Number(qEval.finalQuestionScore));
        row := Put(row, qEval.question + FeedbackSuffix, Text(qEval.prometheusFeedback));
      }
      assert res.questions[..|res.questions|] == res.questions;
      outputRows := outputRows + [row];
    }
  }

  /**
   * `process_teacher_evaluation` without the workbook I/O: the export rows,
   * or the error that stops the batch. `calls` lists the scorer invocations.
   */
  method ProcessTeacherEvaluation(s: Scorers, sheet: Sheet, req: TeacherEvaluationRequest)
    returns (r: Result<seq<ExportRow>, TeacherError>, calls: seq<ScorerCall>)
    requires Rectangular(sheet)
    ensures Validate(sheet, req).Some? ==> r == Failure(Validate(sheet, req).value) && calls == []
    ensures r.Success? <==> Validate(sheet, req).None? && RunsToCompletion(sheet, req)
    ensures Validate(sheet, req).None? && !RunsToCompletion(sheet, req) ==>
              && r == Failure(CrashError(req))
              && calls == QuestionCalls(req, sheet.rows[0], QuestionsBeforeCrash(req))
    ensures r.Success? ==> |r.value| == |sheet.rows| && calls == GridCalls(req, sheet.rows)
    ensures r.Success? ==> forall i :: 0 <= i < |sheet.rows| ==>
              r.value[i] == ExportRowOf(GradeStudent(s, sheet.columns, req, sheet.rows[i]))
    ensures r.Success? ==> forall i :: 0 <= i < |r.value| ==>
              Keys(r.value[i]) == ExportColumns(|req.referenceResponses|)
  {
    var graded;
    graded, calls := GradeStudents(s, sheet, req);
    if graded.Failure? {
      r := Failure(graded.error);
      return;
    }
    var outputRows := FlattenResults(graded.value);
    forall i | 0 <= i < |outputRows|
      ensures Keys(outputRows[i]) == ExportColumns(|req.referenceResponses|)
    {
      ExportRowLayout(graded.value[i]);
    }
    r := Success(outputRows);
  }

  // ---------------------------------------------------------------------------
  // Properties of the batch grade
  // ---------------------------------------------------------------------------

  /** The lowest and highest score of the five-level rubric. */
  const MinScore := 1.0
  const MaxScore := 5.0

  /**
   * If the judge only ever scores within the rubric's range, a student's
   * final grade lies between 0 (every judge call failed) and the top score,
   * and at or above the lowest score when every call succeeded.
   */
  lemma FinalGradeInRubricRange(s: Scorers, columns: seq<string>, req: TeacherEvaluationRequest, row: seq<string>)
    requires NameColumn in columns && |row| == |columns| && |req.referenceResponses| < |columns|
    requires QuestionsGradable(req)
    requires forall i, r, t, a :: s.judge(i, r, t, a).Success? ==> MinScore <= s.judge(i, r, t, a).value.score <= MaxScore
    ensures 0.0 <= GradeStudent(s, columns, req, row).finalGrade <= MaxScore
    ensures |req.referenceResponses| > 0
            && (forall q :: 0 <= q < |req.referenceResponses| ==>
                  s.judge(req.instructions[q], row[q + 1], RubricText(s, req.rubric), req.referenceResponses[q]).Success?)
            ==> MinScore <= GradeStudent(s, columns, req, row).finalGrade
  {
    var res := GradeStudent(s, columns, req, row);
    var xs := Scores(res.questions);
    if |xs| > 0 {
      MeanBounds(xs, 0.0, MaxScore);
      if forall q :: 0 <= q < |req.referenceResponses| ==>
           s.judge(req.instructions[q], row[q + 1], RubricText(s, req.rubric), req.referenceResponses[q]).Success? {
        MeanBounds(xs, MinScore, MaxScore);
      }
    }
  }

  /** Two results that agree on name, grade and each question's score and feedback have the same layout. */
  lemma {:induction false} LayoutAgrees(res1: StudentResult, res2: StudentResult, m: nat)
    requires m <= |res1.questions| && m <= |res2.questions|
    requires res1.studentName == res2.studentName && res1.finalGrade == res2.finalGrade
    requires forall q :: 0 <= q < m ==>
               && res1.questions[q].finalQuestionScore == res2.questions[q].finalQuestionScore
               && res1.questions[q].prometheusFeedback == res2.questions[q].prometheusFeedback
    ensures Layout(res1, m) == Layout(res2, m)
  {
    if m > 0 {
      LayoutAgrees(res1, res2, m - 1);
    }
  }

  /**
   * BERTScore is computed for every question but never reaches the grade or
   * the export: scorers that differ only in their BERTScore give the same row.
   */
  lemma ExportIgnoresBertScore(s1: Scorers, s2: Scorers, columns: seq<string>, req: TeacherEvaluationRequest, row: seq<string>)
    requires s1.judge == s2.judge && s1.renderRubric == s2.renderRubric
    requires NameColumn in columns && |row| == |columns| && |req.referenceResponses| < |columns|
    requires QuestionsGradable(req)
    ensures ExportRowOf(GradeStudent(s1, columns, req, row)) == ExportRowOf(GradeStudent(s2, columns, req, row))
  {
    var res1, res2 := GradeStudent(s1, columns, req, row), GradeStudent(s2, columns, req, row);
    var n := |req.referenceResponses|;
    forall q | 0 <= q < n
      ensures res1.questions[q].finalQuestionScore == res2.questions[q].finalQuestionScore
      ensures res1.questions[q].prometheusFeedback == res2.questions[q].prometheusFeedback
    {
      assert RubricText(s1, req.rubric) == RubricText(s2, req.rubric);
      assert EvaluatePrometheus(s1, req.instructions[q], row[q + 1], req.referenceResponses[q], req.rubric)
          == EvaluatePrometheus(s2, req.instructions[q], row[q + 1], req.referenceResponses[q], req.rubric);
    }
    assert Scores(res1.questions) == Scores(res2.questions);
    LayoutAgrees(res1, res2, n);
    PutQuestionsLayout(res1, n);
    PutQuestionsLayout(res2, n);
    assert res1.questions[..n] == res1.questions;
    assert res2.questions[..n] == res2.questions;
  }
}
