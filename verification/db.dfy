/**
 The database as an abstract store: each table is a sequence in store order,
 `findFirst` is the first matching row, `create` appends, and `delete` removes a
 submission together with its feedback rows (the schema's cascade, assumed).
 */
module Db {
  import opened Wrappers
  import opened Seqs
  import opened Entities

  datatype Store = Store(
    referenceSolutions: seq<ReferenceSolution>,
    testCases: seq<TestCase>,
    submissions: seq<Submission>,
    feedbacks: seq<Feedback>,
    nextSubmissionId: nat)

  /**
   Submission ids are distinct and below the id the store hands out next, and
   every feedback row refers to an id already handed out.
   */
  ghost predicate WellFormed(st: Store) {
    && Distinct(st.submissions, SubmissionId)
    && (forall i :: 0 <= i < |st.submissions| ==> st.submissions[i].id < st.nextSubmissionId)
    && (forall i :: 0 <= i < |st.feedbacks| ==> st.feedbacks[i].submissionId < st.nextSubmissionId)
  }

  /** At most one submission per (questionId, studentId). */
  ghost predicate OneSubmissionPerKey(subs: seq<Submission>) {
    Distinct(subs, SubmissionKey)
  }

  /** `referenceSolution.update({ where: { id }, data: { codeParser } })`. */
  function UpdateReferenceParser(refs: seq<ReferenceSolution>, id: nat, parser: string): (r: seq<ReferenceSolution>)
    ensures |r| == |refs|
    ensures forall i :: 0 <= i < |refs| && refs[i].id == id ==> r[i] == refs[i].(codeParser := Some(parser))
    ensures forall i :: 0 <= i < |refs| && refs[i].id != id ==> r[i] == refs[i]
  {
    seq(|refs|, i requires 0 <= i < |refs| =>
      if refs[i].id == id then refs[i].(codeParser := Some(parser)) else refs[i])
  }

  /** `submission.delete({ where: { id } })`, cascading to the submission's feedback rows. */
  function DeleteSubmission(st: Store, id: nat): (r: Store)
    ensures r.referenceSolutions == st.referenceSolutions && r.testCases == st.testCases
    ensures r.nextSubmissionId == st.nextSubmissionId
    ensures forall i :: 0 <= i < |r.submissions| ==> r.submissions[i].id != id && r.submissions[i] in st.submissions
    ensures forall i :: 0 <= i < |st.submissions| && st.submissions[i].id != id ==> st.submissions[i] in r.submissions
    ensures forall i :: 0 <= i < |r.feedbacks| ==> r.feedbacks[i].submissionId != id && r.feedbacks[i] in st.feedbacks
    ensures forall i :: 0 <= i < |st.feedbacks| && st.feedbacks[i].submissionId != id ==> st.feedbacks[i] in r.feedbacks
  {
    st.(submissions := Filter(st.submissions, SubmissionIdIsNot(id)),
        feedbacks := Filter(st.feedbacks, FeedbackNotOf(id)))
  }

  /** `submission.create(...)`: appends a row under a fresh id and returns it. */
  function CreateSubmission(st: Store, questionId: string, studentId: int, language: string,
                            code: string, codeParser: string): (r: (Store, Submission))
    ensures r.1 == Submission(st.nextSubmissionId, questionId, studentId, language, code, codeParser)
    ensures r.0.submissions == st.submissions + [r.1]
    ensures r.0.nextSubmissionId > r.1.id
    ensures r.0.referenceSolutions == st.referenceSolutions && r.0.testCases == st.testCases
    ensures r.0.feedbacks == st.feedbacks
  {
    var sub := Submission(st.nextSubmissionId, questionId, studentId, language, code, codeParser);
    (st.(submissions := st.submissions + [sub], nextSubmissionId := st.nextSubmissionId + 1), sub)
  }

  /** `feedback.createMany({ data: rows })`. */
  function CreateFeedbacks(st: Store, rows: seq<Feedback>): (r: Store)
    ensures r.feedbacks == st.feedbacks + rows
    ensures r.submissions == st.submissions && r.nextSubmissionId == st.nextSubmissionId
    ensures r.referenceSolutions == st.referenceSolutions && r.testCases == st.testCases
  {
    st.(feedbacks := st.feedbacks + rows)
  }

  /** Deleting keeps the store well formed. */
  lemma DeleteKeepsWellFormed(st: Store, id: nat)
    requires WellFormed(st)
    ensures WellFormed(DeleteSubmission(st, id))
  {
    FilterDistinct(st.submissions, SubmissionIdIsNot(id), SubmissionId);
    var r := DeleteSubmission(st, id);
    forall i | 0 <= i < |r.submissions|
      ensures r.submissions[i].id < r.nextSubmissionId
    {
      var k :| 0 <= k < |st.submissions| && st.submissions[k] == r.submissions[i];
    }
    forall i | 0 <= i < |r.feedbacks|
      ensures r.feedbacks[i].submissionId < r.nextSubmissionId
    {
      var k :| 0 <= k < |st.feedbacks| && st.feedbacks[k] == r.feedbacks[i];
    }
  }

  /** Creating a submission keeps the store well formed: the new id is fresh. */
  lemma CreateKeepsWellFormed(st: Store, questionId: string, studentId: int, language: string,
                              code: string, codeParser: string)
    requires WellFormed(st)
    ensures WellFormed(CreateSubmission(st, questionId, studentId, language, code, codeParser).0)
  {
    var (r, sub) := CreateSubmission(st, questionId, studentId, language, code, codeParser);
    forall y | y in st.submissions
      ensures SubmissionId(y) != SubmissionId(sub)
    {
      var k :| 0 <= k < |st.submissions| && st.submissions[k] == y;
    }
    DistinctAppend(st.submissions, sub, SubmissionId);
  }
}
