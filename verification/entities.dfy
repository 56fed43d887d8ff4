/**
 The rows, parse results, requests and errors of the grading service's ITS
 integration (backend/grading-service/src/services/its/api-wrapper.ts).
 */
module Entities {
  import opened Wrappers

  /** A reference solution row; `codeParser` is the cached parser string (nullable). */
  datatype ReferenceSolution = ReferenceSolution(
    id: nat,
    questionId: string,
    language: string,
    code: string,
    codeParser: Option<string>)

  /** A test case row; `input` is the text of the argument list without brackets. */
  datatype TestCase = TestCase(id: nat, questionId: string, input: string)

  /** A submission row, keyed in practice by (questionId, studentId). */
  datatype Submission = Submission(
    id: nat,
    questionId: string,
    studentId: int,
    language: string,
    code: string,
    codeParser: string)

  /** A feedback row attached to one submission. */
  datatype Feedback = Feedback(submissionId: nat, line: int, hints: seq<string>)

  /**
   The metadata the parser attaches to a declared function. Only its JavaScript
   truthiness is observable here: the parser emits an object (truthy); `FalsyMeta`
   stands for `null`, `false`, `0` or `""`.
   */
  datatype FnMeta = ObjectMeta | FalsyMeta

  datatype FnEntry = FnEntry(name: string, meta: FnMeta)

  /** A parse result: its `fncs` object as (name, metadata) pairs in key order. */
  datatype ParseRep = ParseRep(fncs: seq<FnEntry>)

  /** One item of the feedback service's response. */
  datatype ErrorFeedback = ErrorFeedback(lineNumber: int, hintStrings: seq<string>)

  /** The body posted to the feedback endpoint. */
  datatype FeedbackRequest = FeedbackRequest(
    language: string,
    referenceSolution: string,
    studentSolution: string,
    inputs: string,
    functionName: string,
    args: string)

  /** A failure reported by the HTTP client; its content is opaque to the flow. */
  datatype AxiosError = AxiosError(detail: string)

  /** What a run of the flow can throw. */
  datatype Error =
    | NotExistingReferencedSolution
      /** An HTTP failure of the parser endpoint, rethrown unchanged. */
    | RemoteFailure(cause: AxiosError)
      /** `JSON.parse` or `Object.keys` throwing on a parser string that is not a parse result. */
    | MalformedParserString
    | CodeFunctionName
    | NotExistingTestCase
    | ITSPostFeedback

  /** The externally visible actions of a run, in the order they are issued. */
  datatype Effect =
    | ParseCall(language: string, sourceCode: string)
    | UpdateRef(refId: nat, codeParser: string)
    | FeedbackCall(request: FeedbackRequest)
    | DeleteSub(subId: nat)
    | CreateSub(submission: Submission)
    | CreateFeedback(rows: seq<Feedback>)

  /** The language name stored with rows: `"py"` is spelled `"python"`. */
  function NormalizeLanguage(language: string): (r: string)
    ensures r != "py"
    ensures language != "py" ==> r == language
    ensures language == "py" ==> r == "python"
  {
    if language == "py" then "python" else language
  }

  function SubmissionKey(s: Submission): (string, int) {
    (s.questionId, s.studentId)
  }

  function SubmissionId(s: Submission): nat {
    s.id
  }

  function EntryName(e: FnEntry): string {
    e.name
  }

  /** The `where` filter of the reference-solution lookup. */
  function ReferenceMatcher(questionId: string, language: string): ReferenceSolution -> bool {
    (r: ReferenceSolution) => r.questionId == questionId && r.language == language
  }

  /** The `where` filter of the test-case lookup. */
  function TestCaseMatcher(questionId: string): TestCase -> bool {
    (t: TestCase) => t.questionId == questionId
  }

  /** The `where` filter of the existing-submission lookup. */
  function SubmissionMatcher(questionId: string, studentId: int): Submission -> bool {
    (s: Submission) => s.questionId == questionId && s.studentId == studentId
  }

  /** Submissions of any other (questionId, studentId) pair. */
  function OtherSubmission(questionId: string, studentId: int): Submission -> bool {
    (s: Submission) => !(s.questionId == questionId && s.studentId == studentId)
  }

  function SubmissionIdIsNot(id: nat): Submission -> bool {
    (s: Submission) => s.id != id
  }

  function FeedbackOf(submissionId: nat): Feedback -> bool {
    (f: Feedback) => f.submissionId == submissionId
  }

  function FeedbackNotOf(submissionId: nat): Feedback -> bool {
    (f: Feedback) => f.submissionId != submissionId
  }

  function NameIs(name: string): FnEntry -> bool {
    (e: FnEntry) => e.name == name
  }
}
