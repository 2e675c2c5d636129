# Synerevalai evaluation services in Dafny

This project models the three services that hold the logic of Synerevalai, a
grader of free-text answers.

- **Evaluation** (`evaluation.dfy`) covers the single-request pipeline `evaluate_all`:
  - every (model response, reference) pair is graded by the Prometheus judge against a rubric;
  - the whole batch is scored once with BERTScore;
  - the average of the hosted-completion grader is reported.

  It also models the three scorer adapters, each of which turns a failing scorer into a sentinel value. The scorers themselves are functions passed in as parameters. Each one either returns a value or fails, and a failure stands for an exception.
- **TeacherEvaluation** (`teacher_evaluation.dfy`) covers the batch grader `process_teacher_evaluation` over an already-read sheet:
  - it validates the sheet's shape;
  - it walks every student and every question;
  - each student's grade is the mean of their Prometheus scores;
  - each student becomes one ordered export row.

  An out-parameter `calls` records the scorer invocations in order. This states that a rejected sheet causes no scorer call.
- **CountResponses** (`count_responses.dfy`) covers `count_generative_responses_from_yaml` and its recursive helper `count_in_actions`, over an already-parsed dialog tree:
  - it counts `SearchAndSummarizeContent` actions;
  - it builds the map of flows, keyed by condition-group and condition ids;
  - it accumulates `total_count` in the shared result object. That object is the class `Counter`, and the recursive method updates its field in place.

`wrappers.dfy` holds the `Option` and `Result` types.

Some behaviour of the code is easy to misread. The model follows the code:

- The Prometheus sentinel feedback is `"Error en evaluación Prometheus"`.
- `evaluate_all` calls BERTScore once, on the full lists, and not once per pair.
- Rubric handling:
  - The rubric template is filled outside the `try`.
  - A rubric that lacks one of the six template fields therefore raises from `evaluate_prometheus`, and from `evaluate_all` when there is at least one pair. It is not turned into a sentinel.
- The sheet check rejects fewer than `len(reference_responses)` answer columns after the first column. Extra columns are accepted and ignored. The comment at src/services/teacher_evaluation_services.py:33 says there are exactly that many answer columns, but the check only requires at least that many.
- Short instructions:
  - Nothing checks that `instructions` is as long as `reference_responses`.
  - A shorter list raises an `IndexError` during the walk, on the first student, after that student's earlier questions have been scored.
  - The model keeps this as an error path (`InstructionIndexError`) instead of excluding it with a precondition.
- In `count_in_actions`, a condition group nested inside a condition is recursed into through its `conditions` list, which is read as if it were a list of actions. So the generative actions under a nested group's conditions are neither counted nor listed. `NestedConditionActionsUncounted` states this for every input, and `UncountedNestedAnswerExample` shows a tree where an answer is lost this way.

## Model

| member | source | states |
|---|---|---|
| Evaluation.Mean | src/services/evaluation_services.py:130 | The average is 0 for an empty list. Otherwise it times the count equals the sum. |
| Evaluation.MeanBounds | src/services/teacher_evaluation_services.py:70 | A mean of values that all lie in `[lo, hi]` lies in `[lo, hi]`. |
| Evaluation.Strip | src/services/evaluation_services.py:37 | `str.strip()`: the result is the contiguous middle part of the input. It is empty exactly when the input is all whitespace, and has no whitespace at either end. Only whitespace is removed. |
| Evaluation.EvaluateWithOpenAI | src/services/evaluation_services.py:17-43 | A failing completion, a reply with no choice, or a stripped text that is not a number all give 0.0. Otherwise the result is the parsed number. |
| Evaluation.EvaluateWithBertScore | src/services/evaluation_services.py:47-62 | It never fails. A failing BERTScore run gives the all-zero triple. Otherwise the result is the run's means. |
| Evaluation.RubricTextIgnoresExtraKeys | src/services/evaluation_services.py:84 | The rubric text depends only on the six template fields. |
| Evaluation.EvaluatePrometheus | src/services/evaluation_services.py:77-97 | It fails (KeyError) exactly when the rubric lacks a template field. Otherwise a failing judge gives the sentinel pair, and a successful judge gives its own feedback and score from that single call. |
| Evaluation.PairCount | src/services/evaluation_services.py:119 | `zip` yields `min(\|xs\|, \|ys\|)` pairs. |
| Evaluation.EvaluateAll | src/services/evaluation_services.py:101-136 | Failure:<br>- It fails exactly when there is a pair and the rubric lacks a field, and then no scorer is called.<br>Success:<br>- There is one Prometheus entry per zipped pair, in order.<br>- `openai_score` is 0.0.<br>- BERTScore runs once on the full lists, after all the judge calls.<br>- Empty input succeeds with an empty list. |
| TeacherEvaluation.NatToStringInjective | src/services/teacher_evaluation_services.py:61 | Different question numbers render as different decimal labels. |
| TeacherEvaluation.IndexOf | src/services/teacher_evaluation_services.py:43 | The student's name is read from the first column named `student_name`. Reading the workbook renames later repeats of a header name, so this is the column `row["student_name"]` reads. |
| TeacherEvaluation.AnswerColumnCount | src/services/teacher_evaluation_services.py:34-35 | The slice `1 .. 1+n` has `n` columns exactly when at least `n` columns follow the first one. Otherwise it has the rest. |
| TeacherEvaluation.Validate | src/services/teacher_evaluation_services.py:27-36 | The sheet passes exactly when `student_name` is a column and at least `n` columns follow the first. Otherwise the result is the 400 error with its message for the failing check, the missing name taking precedence. |
| TeacherEvaluation.GradeStudent | src/services/teacher_evaluation_services.py:43-76 | For each student:<br>- The name comes from `student_name`.<br>- There are exactly `n` evaluations, labelled `Q1`..`Qn` in order.<br>- Question `q` uses answer column `q+1`, reference `q`, instruction `q` and the shared rubric.<br>- The question score is the Prometheus score, and the feedback comes from the same call.<br>- BERTScore is kept per question on the single pair.<br>- The grade is the mean of the question scores. |
| TeacherEvaluation.GradeRow | src/services/teacher_evaluation_services.py:43-70 | The loop over questions yields exactly `GradeStudent`, with a judge call and then a BERTScore call per question. When the rubric lacks a field or the instructions run short, it raises, and the result records the calls made before that. |
| TeacherEvaluation.GradeStudents | src/services/teacher_evaluation_services.py:27-76 | A sheet that fails validation gets its 400 error and no scorer call. Otherwise:<br>- It succeeds exactly when the walk cannot raise.<br>- On success there is one result per row, in row order, and every question of every row is scored in order.<br>- A walk that raises does so on the first student, after that student's earlier questions. |
| TeacherEvaluation.ExportColumns | src/services/teacher_evaluation_services.py:82-88 | The export header has two columns plus two per question. |
| TeacherEvaluation.ExportColumnsAt | src/services/teacher_evaluation_services.py:82-86 | The export columns by position: `student_name` at 0, `final_grade` at 1, then for each question `q` its score column at `2+2q` and its feedback column at `3+2q`. |
| TeacherEvaluation.LabelsWithSuffixDiffer | src/services/teacher_evaluation_services.py:85-86 | `Qa<suffix>` equals `Qb<suffix'>` only for the same question and the same suffix. |
| TeacherEvaluation.NewColumnsFresh | src/services/teacher_evaluation_services.py:85-86 | The two columns of question `m` are new with respect to the columns of all earlier questions and the two fixed columns, and differ from each other. |
| TeacherEvaluation.ExportColumnsDistinct | src/services/teacher_evaluation_services.py:82-88 | No export column name repeats, so no key of the row dict is ever overwritten. |
| TeacherEvaluation.PutQuestionsLayout | src/services/teacher_evaluation_services.py:83-87 | Inserting the questions' keys one by one into the row dict appends them in question order. |
| TeacherEvaluation.ExportRowLayout | src/services/teacher_evaluation_services.py:82-88 | An export row has the keys `student_name`, `final_grade`, then `Qn final_score` and `Qn prometheus_feedback` per question, in order. They hold the name, the grade, and each question's score and feedback. |
| TeacherEvaluation.ExportRowKeysAt | src/services/teacher_evaluation_services.py:82-86 | An export row has `2 + 2n` entries. Position 0 holds `student_name` and position 1 holds `final_grade`. For each question `q`, position `2+2q` holds its score column and position `3+2q` its feedback column. |
| TeacherEvaluation.FlattenResults | src/services/teacher_evaluation_services.py:80-88 | There is one export row per result, in order. Each is the row the dict assignments build. |
| TeacherEvaluation.ProcessTeacherEvaluation | src/services/teacher_evaluation_services.py:11-88 | Same errors and scorer calls as the walk. On success there is one export row per student, in order, and every row has exactly the export columns. |
| TeacherEvaluation.FinalGradeInRubricRange | src/services/teacher_evaluation_services.py:70 | Suppose the judge scores within 1..5. Then a grade lies in `[0, 5]`, and in `[1, 5]` when every judge call succeeds. |
| TeacherEvaluation.ExportIgnoresBertScore | src/services/teacher_evaluation_services.py:53-56 | Two runs whose scorers differ only in BERTScore export the same row: BERTScore never reaches the grade or the export. |
| CountResponses.Counter.constructor | src/services/count_responses_services.py:26 | The result starts with `main_flow` 0, no conditions and `total_count` 0. |
| CountResponses.Counter.CountInActions | src/services/count_responses_services.py:28-60 | It returns `FlowOf(actions)` and adds `Tally(actions)` to `total_count`. It changes nothing else. |
| CountResponses.CountGenerativeResponses | src/services/count_responses_services.py:62-65 | `conditions` stays empty. Without `beginDialog.actions`, `main_flow` and `total_count` stay 0. Otherwise they are the flow and tally of those actions. |
| CountResponses.GroupFlowsKeys | src/services/count_responses_services.py:40-59 | A group's conditions add exactly their own ids to the flows map. |
| CountResponses.GroupFlowsLastWriter | src/services/count_responses_services.py:40-59 | The last condition of a group carrying an id decides the entry under that id: its generative count and nested flows. |
| CountResponses.GroupFlowsUntouched | src/services/count_responses_services.py:38-59 | A key that no condition of the group carries keeps its earlier entry, such as the group's `{}` marker. |
| CountResponses.GroupFlowsValues | src/services/count_responses_services.py:38-59 | After a group, every entry is either its earlier entry or the entry of one of the group's conditions with that id. |
| CountResponses.LevelFlowsKeys | src/services/count_responses_services.py:36-59 | The keys of a level's flows are exactly the ids of its groups and of their conditions. |
| CountResponses.LevelFlowsEmpty | src/services/count_responses_services.py:36-38 | A level's flows are empty exactly when the level has no condition group. |
| CountResponses.FlowOfShape | src/services/count_responses_services.py:29-60 | The helper returns a bare integer exactly when the level has no condition group, and that integer is the level's generative count. Otherwise it returns the flows. |
| CountResponses.LevelFlowsValues | src/services/count_responses_services.py:36-59 | Every value in a level's flows is `{}` or the `{count, nested_flows}` of a condition of one of its groups that carries that key. |
| CountResponses.NestedFlowsKeys | src/services/count_responses_services.py:50-54 | `nested_flows` is keyed by exactly the ids of the condition groups among a condition's actions. |
| CountResponses.TallyCountsLevel | src/services/count_responses_services.py:32-34 | A level's own generative actions are added to `total_count` even when the level returns its flows. |
| CountResponses.TallyAtMostOccurrences | src/services/count_responses_services.py:32-54 | `total_count` never exceeds the number of generative nodes anywhere in the tree. |
| CountResponses.LevelFlowsLastWriter | src/services/count_responses_services.py:36-59 | Across a whole level, the entry under an id is the one assigned last in traversal order. That is a group's `{}` or a condition's `{count, nested_flows}`, whichever came later, so a later group can overwrite an earlier condition and the reverse. |
| CountResponses.NestedFlowsLastWriter | src/services/count_responses_services.py:50-54 | Under an id, `nested_flows` holds the flow the recursive call returns for the `conditions` of the last nested group carrying that id. |
| CountResponses.LevelIgnoresOwnActions | src/services/count_responses_services.py:29-60 | The flow and the tally of a level depend only on its nodes' kinds, ids and conditions. The nodes' own `actions` are never visited. |
| CountResponses.NestedConditionActionsUncounted | src/services/count_responses_services.py:50-54 | Replacing the `actions` of the conditions of groups nested in a condition by anything changes neither that condition's count, nor its nested flows, nor what it adds to `total_count`. |
| CountResponses.UncountedNestedAnswerExample | src/services/count_responses_services.py:50-54 | On a concrete two-level tree, the tally is 0 while the tree holds one generative action. |

## Left out

- Reading and writing the workbook (`pd.read_excel`, `ExcelWriter`) is I/O and is not modelled. The sheet is given as column names and rows, and the export as ordered key/value rows. The 400 error for an unreadable file is part of that I/O and is not modelled.
- Sheet cells are modelled as text. Numeric or empty cells of the data frame, and their conversions, are not modelled.
- TeacherEvaluation.GradeStudent: the mean over no questions is the real `0.0`, where the code yields the integer `0`.
- YAML decoding and `yaml.safe_load` are a foreign library. The document arrives as a parsed `Dialog` tree.
- The code reads only some fields of the document:
  - the document's `beginDialog`, and the `actions` of that value;
  - in every list it walks as actions, each node's `kind`, and for a condition group its `id` and `conditions`;
  - for each condition of such a group, its `id` and `actions`;
  - for each node among those actions, its `kind`, and for a nested condition group its `id` and `conditions`, which are then walked as actions.
- The dialog tree does not model these inputs, which make the code raise:
  - a document that is `None`, a number or a boolean, because the `beginDialog` test fails;
  - a document that is a list or a string containing `beginDialog`, because `data["beginDialog"]` then fails;
  - a `beginDialog` value that is `null`, a number or a boolean, because the `"actions"` test at line 62 fails;
  - a `beginDialog` value that is not a mapping but contains `"actions"`, such as the string `"actions"` or a list holding it;
  - an `actions` or `conditions` field the code reads whose value is not a list: `null`, a number, a boolean, a non-empty string or a non-empty mapping (walking a string or a mapping yields strings, which have no `get`);
  - a node that is not a mapping, inside a list the code walks;
  - an id that cannot be a dictionary key, such as a list, on a condition group the code visits, on one of its conditions, or on a nested condition group.
- The dialog tree does not model some inputs that the code accepts without raising:
  - A document that is a list or a string that does not contain `beginDialog`: the `beginDialog` test is false there, and the all-zero result is returned.
  - A `beginDialog` value that is a string or a list not containing `"actions"`: the `actions` test is false there, and the all-zero result is returned.
  - An `actions` or `conditions` field the code reads whose value is an empty string or an empty mapping: walking it visits nothing, so it behaves as the empty list the model gives it.
  - Any value in a field the code does not read, such as `actions: null` on a top-level action or on a nested condition group, a non-mapping node in a list the code never walks, or an unhashable id on a node whose id the code does not read, such as a top-level action that is not a condition group. The model gives these fields lists and optional strings, and `LevelIgnoresOwnActions` and `NestedConditionActionsUncounted` show the result does not depend on the unread lists.
  - A `kind` that is not a string: such a node is neither counted nor treated as a group, exactly like a node whose `kind` is another string or is missing, so nothing is lost.
  - An id that is not a string, such as `7` or `true`. Ids are `None` or strings in the model, so these keys are lost, and with them Python's merging of equal keys of different types (`1`, `1.0` and `True` are one key).
- The flows maps and `nested_flows` are modelled as maps. The insertion order of the dictionaries, which only affects the order of keys in the JSON output, is not modelled.
- The scorers themselves are parameters of the model:
  - the hosted completion call and Python's `float`;
  - `bert_score.score` and its tensor means;
  - the Prometheus judge and `SCORE_RUBRIC_TEMPLATE.format`.

  Scores are reals, so rounding and NaN are not modelled.
- The scorers are modelled as deterministic: each is a function of its arguments, so identical calls return identical results. For example, two identical sheet rows always get identical student results. A sampling language-model judge or completion does not guarantee that.
- The module-level construction of the Prometheus judge is process start-up and is not modelled. The judge is passed in as part of `Scorers`.
- The error messages printed in the `except` branches are console output and are not modelled.
- The HTTP routers, application set-up, settings, database code and request schemas are plumbing with no logic, and are not part of this model.
