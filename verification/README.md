# Grading-feedback flow of the ITS integration, in Dafny

This project models the grading service's integration with the Intelligent
Tutoring System (ITS), `backend/grading-service/src/services/its/api-wrapper.ts`.
It covers three operations:

- **`generateParserString`** posts source code to the ITS parser and serialises
  the answer.
- **`generateErrorFeedback`** grades one student submission. It looks up the
  reference solution for (question, normalised language). It reuses the
  reference's cached parser string or computes it and writes it back. It takes
  the reference's first declared function as the target and parses the student
  code. It rejects code that lacks the target function. It then takes the
  question's first test case, calls the ITS feedback endpoint with
  `args = "[" + input + "]"`, stores the result and returns the feedback.
- **`saveSubmissionWithFeedbacks`** replaces a resubmission. It deletes the
  first submission found for (question, student), creates the new one, then
  creates one feedback row per feedback item.

The model is a functional state machine:

- The database is an immutable `Db.Store`. Each table is a sequence in store
  order, and `findFirst` is "the first matching row" (`Seqs.FindFirst`).
- The two ITS endpoints and the JSON round trip are function values in
  `Its.Services`. The model fixes how they are called and what is done with
  their answers, not what they compute.
- Every step returns the new store, the effects it issued in order, and a
  `Result`. The effects are `ParseCall`, `UpdateRef`, `FeedbackCall`,
  `DeleteSub`, `CreateSub` and `CreateFeedback`.
- A failing run keeps whatever it wrote before it failed, because the source
  runs plain sequential statements. For example, a reference write-back stays
  after a later failure.

Modules, one file each:

| module | file | role |
|---|---|---|
| `Wrappers` | wrappers.dfy | `Option`, `Result` |
| `Seqs` | seqs.dfy | `FindFirst`, `Filter`, and lemmas about them |
| `Entities` | entities.dfy | rows, parse results, requests, errors, effects, `where` filters |
| `Db` | db.dfy | the store, its invariant, and `update` / `delete` (cascading) / `create` / `createMany` |
| `Its` | its.dfy | remote services, `generateParserString`, target function, function-name gate |
| `SubmissionStore` | submission_store.dfy | `saveSubmissionWithFeedbacks` and the replace-on-resubmit lemmas |
| `FeedbackFlow` | feedback_flow.dfy | `generateErrorFeedback`, its stages, and the pipeline lemmas |

The model follows the code as written, with one departure listed under
"## Left out" (`Its.CheckFunction`). Points of the code that the model keeps:

- A parser failure is rethrown unchanged (`RemoteFailure`). The test at line 42
  compares an error object with a string, so it never holds.
- The test case used is the first one `findFirst` returns for the question.
- The replace runs as separate statements: delete, create, createMany.
- A student parse that lacks the target function throws `CodeFunctionName`.

## Model

All source paths are under `backend/grading-service/src/services/its/`.

| member | source | states |
|---|---|---|
| Entities.NormalizeLanguage | backend/grading-service/src/services/its/api-wrapper.ts:60 | `"py"` is stored as `"python"`, every other language unchanged; the result is never `"py"` |
| Seqs.FindFirst | backend/grading-service/src/services/its/api-wrapper.ts:57-62 | `findFirst`: the index returned matches and no earlier row matches; None exactly when no row matches |
| FeedbackFlow.FindReference | backend/grading-service/src/services/its/api-wrapper.ts:57-62 | the reference row found has the question id and the normalised language; none found iff no row has both |
| FeedbackFlow.FindTestCase | backend/grading-service/src/services/its/api-wrapper.ts:104-108 | the test case found belongs to the question; none found iff the question has no test case |
| Its.GenerateParserString | backend/grading-service/src/services/its/api-wrapper.ts:29-48 | exactly one parser call with (language, code); succeeds iff the parser answers; a failure is the parser's own error rethrown; with a faithful JSON codec the string reads back as the parser's answer and is non-empty |
| Its.FirstFunction | backend/grading-service/src/services/its/api-wrapper.ts:88-90 | the target is the first key of `fncs`, a declared function; absent (`undefined`) exactly when `fncs` is empty |
| Its.TargetFunction | backend/grading-service/src/services/its/api-wrapper.ts:87-90 | a parser string that does not read back as a parse result throws (MalformedParserString); otherwise the target is the first declared function |
| Its.Lookup | backend/grading-service/src/services/its/api-wrapper.ts:99 | `fncs[name]` yields metadata declared under that name; undefined exactly when no entry has that name |
| Its.ContainsFunction | backend/grading-service/src/services/its/api-wrapper.ts:98-101 | the gate opens only for a present target declared with truthy metadata, and (keys being distinct) always opens then |
| Its.CheckFunction | backend/grading-service/src/services/its/api-wrapper.ts:98-101 | the student string must read back; the step succeeds iff the gate opens, with the target's name, and otherwise throws CodeFunctionName |
| Its.ContainsFunctionAsWritten | backend/grading-service/src/services/its/api-wrapper.ts:99 | the gate as written: agrees with the corrected gate for a present target, and for an undefined target tests the key "undefined" |
| Its.UndefinedTargetSlipsThrough | backend/grading-service/src/services/its/api-wrapper.ts:88-101 | a reference with no functions and a student declaring only `undefined`: the written gate opens, the corrected one does not |
| Db.UpdateReferenceParser | backend/grading-service/src/services/its/api-wrapper.ts:77-84 | the row with the id gets the new `codeParser`; every other row is unchanged |
| Db.DeleteSubmission | backend/grading-service/src/services/its/api-wrapper.ts:175-181 | no submission with the id remains and every other submission remains; the feedback rows of that submission go too (cascade), and every other feedback row remains |
| Db.CreateSubmission | backend/grading-service/src/services/its/api-wrapper.ts:183-191 | appends one submission with the given fields under a fresh id; nothing else changes |
| Db.CreateFeedbacks | backend/grading-service/src/services/its/api-wrapper.ts:194-202 | appends the rows; nothing else changes |
| Db.DeleteKeepsWellFormed | backend/grading-service/src/services/its/api-wrapper.ts:175-181 | deleting keeps submission ids distinct and all ids below the next fresh id |
| Db.CreateKeepsWellFormed | backend/grading-service/src/services/its/api-wrapper.ts:183-191 | the created id is fresh, so ids stay distinct |
| SubmissionStore.FeedbackRows | backend/grading-service/src/services/its/api-wrapper.ts:195-201 | one row per item, in order, each pointing at the submission, with `line = lineNumber` and `hints = hintStrings` |
| SubmissionStore.SaveSubmissionWithFeedbacks | backend/grading-service/src/services/its/api-wrapper.ts:159-203 | the new submission has the normalised language, the student code and the parser string, and is last in the table; the effects are delete-first-match (if any), create, createMany, in that order |
| SubmissionStore.SaveKeepsWellFormed | backend/grading-service/src/services/its/api-wrapper.ts:159-203 | replace-on-resubmit keeps the store invariant |
| SubmissionStore.AfterDeleteClearsKey | backend/grading-service/src/services/its/api-wrapper.ts:167-181 | with one submission per pair before, none for the pair remains after the delete |
| SubmissionStore.SaveKeepsOneSubmissionPerKey | backend/grading-service/src/services/its/api-wrapper.ts:167-191 | at most one submission per (questionId, studentId) is preserved, and the pair's only submission afterwards is the new one |
| SubmissionStore.SaveKeepsUnmatched | backend/grading-service/src/services/its/api-wrapper.ts:167-181 | only the first submission `findFirst` returns for the pair is deleted: every other submission (a second one for the same pair included) and every feedback row not of the deleted submission stays |
| SubmissionStore.SaveLeavesOtherKeys | backend/grading-service/src/services/its/api-wrapper.ts:167-191 | the submissions of every other pair are exactly the same, in the same order |
| SubmissionStore.SaveFeedbackRows | backend/grading-service/src/services/its/api-wrapper.ts:193-202 | the new submission's rows are exactly one per item, in order; other pairs' rows are untouched; the replaced submission has no rows left |
| SubmissionStore.ResubmitReplaces | backend/grading-service/src/services/its/api-wrapper.ts:159-203 | two saves for one pair: the second deletes the first's submission; only the second remains for the pair, with only its own feedback rows |
| FeedbackFlow.ReferenceParserString | backend/grading-service/src/services/its/api-wrapper.ts:68-85 | a non-empty cached string is returned with no effect; otherwise one parse of the reference code then a write-back of that same string to the same id, or the parser's error with nothing written |
| FeedbackFlow.GenerateErrorFeedback | backend/grading-service/src/services/its/api-wrapper.ts:57-66 | no reference row for (question, normalised language): NotExistingReferencedSolution, with no effect and the store untouched |
| FeedbackFlow.RequestFeedbackEffects | backend/grading-service/src/services/its/api-wrapper.ts:103-126 | the feedback step fails with NotExistingTestCase iff there is no test case, issuing nothing; it never parses or writes the reference; every request it sends is built from the first test case |
| FeedbackFlow.RequestFeedbackSuccess | backend/grading-service/src/services/its/api-wrapper.ts:118-140 | on success the service answered exactly the returned list, and the store is the replace-on-resubmit of it |
| FeedbackFlow.RequestFeedbackFailure | backend/grading-service/src/services/its/api-wrapper.ts:103-148 | a failing feedback step leaves the store as it was and persists nothing |
| FeedbackFlow.GradeEffects | backend/grading-service/src/services/its/api-wrapper.ts:87-101 | after the reference step: no reference write; an unreadable reference string throws before any call; otherwise the student parse is issued first and is the only parse |
| FeedbackFlow.GradeOutcome | backend/grading-service/src/services/its/api-wrapper.ts:87-126 | CodeFunctionName iff the student parse lacks the target; NotExistingTestCase iff the gate passed and there is no test case; early failures call no feedback service; requests are well formed |
| FeedbackFlow.GradeSuccess | backend/grading-service/src/services/its/api-wrapper.ts:118-140 | on success: student parse, then the feedback call that answered the returned list, then the replace-on-resubmit effects |
| FeedbackFlow.GradeFailure | backend/grading-service/src/services/its/api-wrapper.ts:87-148 | a failing grading step leaves the store as it was and persists nothing |
| FeedbackFlow.FailedRunPersistsNothing | backend/grading-service/src/services/its/api-wrapper.ts:118-148 | a run that throws has created or deleted no submission and no feedback row |
| FeedbackFlow.CacheHitSkipsReferenceParse | backend/grading-service/src/services/its/api-wrapper.ts:68-96 | cache hit: the reference rows are unchanged, no write-back happens, and the only parse is the student's, issued first; every feedback request carries the cached string |
| FeedbackFlow.CacheMissParsesOnceThenWritesBack | backend/grading-service/src/services/its/api-wrapper.ts:70-96 | cache miss: the reference is parsed once (effect 0) with the raw language; its string is written back to the same id (effect 1) before the student parse (effect 2) and is the string sent; a parse failure ends the run with the parser's error and nothing written |
| FeedbackFlow.EarlyFailuresSkipFeedbackCall | backend/grading-service/src/services/its/api-wrapper.ts:57-126 | every failure other than the feedback call's own happens before any feedback call |
| FeedbackFlow.FunctionNameGate | backend/grading-service/src/services/its/api-wrapper.ts:88-101 | with the reference string and the student parse in hand: CodeFunctionName iff the student lacks the reference's first-declared function; then no feedback call and no submission or feedback write (a reference write-back done earlier stays) |
| FeedbackFlow.MissingTestCaseAborts | backend/grading-service/src/services/its/api-wrapper.ts:103-112 | NotExistingTestCase iff the gate passed and the question has no test case; then no feedback call and no submission write, while the reference write-back stays |
| FeedbackFlow.FeedbackRequestsAreWellFormed | backend/grading-service/src/services/its/api-wrapper.ts:114-126 | every request sent carries the raw language, `inputs = "[]"`, the target function, the student's parser string, `args = "[" + first test input + "]"` and the run's reference string |
| FeedbackFlow.SuccessfulRunReplacesSubmission | backend/grading-service/src/services/its/api-wrapper.ts:118-140 | a successful run returns the service's answer unchanged; the pair's only submission is the new one with its parser string; its rows mirror the items; other pairs' submissions and their feedback rows are untouched |
| FeedbackFlow.RunKeepsStoreInvariants | backend/grading-service/src/services/its/api-wrapper.ts:50-149 | every run, whatever its outcome, keeps the store invariant and at most one submission per pair |
| FeedbackFlow.SecondRunHitsCache | backend/grading-service/src/services/its/api-wrapper.ts:68-85 | after a write-back, a later run for the same question and normalised language finds the same row with that string, and neither parses nor writes the reference again |

## Findings

| source | as written | input that shows it | evidently intended | confidence | as-written member | corrected member |
|---|---|---|---|---|---|---|
| backend/grading-service/src/services/its/api-wrapper.ts:88-101 | when the reference declares no function, `targetFunction` is `undefined` and `fncs[targetFunction]` reads the student's property named "undefined" | a reference parsed as `{"fncs":{}}` and a student whose only function is named `undefined` (`Its.UndefinedTargetSlipsThrough`): the gate opens | with no target function the gate rejects | low, not executed | Its.ContainsFunctionAsWritten | Its.ContainsFunction |

## Left out

- The axios client, its headers, the request-logging interceptor and `dotenv` (lines 11-27) are configuration and I/O. The endpoints are the function values in `Its.Services`.
- JSON text is not modelled. `JSON.stringify` and `JSON.parse(...).fncs` are the `stringify` and `parseJson` values. Lemmas that need the round trip ask for `Its.FaithfulCodec`: a parse result reads back as itself, and its text is never empty.
- The parser response is taken to always have a `fncs` object. A stored string that does not read back as one throws `MalformedParserString`. This stands for the `SyntaxError` or `TypeError` that JavaScript would rethrow.
- The feedback response is taken to be a list of `{ lineNumber, hintStrings }`.
- Logging the remote error payload (line 143) is output only.
- Database failures are not modelled: every store operation succeeds. A non-Axios error inside the try at lines 118-148 would therefore never arise here.
- FeedbackFlow.FailedRunPersistsNothing: holds only because every store operation succeeds in the model. In the source the save runs inside the try at lines 118-148. A `create` (line 183) or `createMany` (line 194) that throws after the `delete` at line 176 propagates through line 147 with the old submission already gone. So does a `response.data` that is not an array, whose `.map` throws at line 195.
- Transactions and concurrent resubmissions are not modelled. The source runs sequential, non-atomic statements, and the model is sequential.
- Cascade deletion of a submission's feedback rows is an assumption about the schema. `Db.DeleteSubmission` makes it explicit.
- Feedback rows have no id of their own, because nothing reads one. Submission ids come from a counter in the store, standing for "a fresh id".
- `findFirst` without `orderBy` is modelled as the first row in sequence order.
- Database reads are not recorded as effects.
- Its.ContainsFunction: does not model JavaScript's inherited object properties. A target named like an `Object.prototype` member (`toString`, `constructor`, …) makes `fncs[target]` truthy for any student. The model looks only at declared functions.
- Its.ContainsFunction: JSON object keys are unique, so `fncs` is assumed to have distinct names where the "always opens" direction is stated.
- Its.CheckFunction: uses the corrected gate `Its.ContainsFunction`, not the gate as written at line 99. With no target function the model rejects, where the code reads the key "undefined" (see "## Findings"; the as-written gate is `Its.ContainsFunctionAsWritten`).
- Db.UpdateReferenceParser: reference-solution ids are not required to be distinct in the store, so the model rewrites every row carrying the id. `update({ where: { id } })` writes the one row with that primary key. The two agree whenever ids are unique, as the schema's primary key guarantees.
- The `ITSApi` export object (lines 151-154) has no behaviour.
- The other files of the repository are outside this model: the user controller, the authentication middleware, the assignment tests and the frontend pages.
