/**
 `saveSubmissionWithFeedbacks`: replace-on-resubmit. The first submission found
 for (questionId, studentId) is deleted, a new one is created, then one feedback
 row per feedback item. The statements run one after another, not in a
 transaction.
 */
module SubmissionStore {
  import opened Wrappers
  import opened Seqs
  import opened Entities
  import opened Db

  datatype Saved = Saved(store: Store, effects: seq<Effect>, submission: Submission)

  /** The rows `feedbacks.map(...)` produces for the new submission. */
  function FeedbackRows(items: seq<ErrorFeedback>, submissionId: nat): (rows: seq<Feedback>)
    ensures |rows| == |items|
    ensures forall i :: 0 <= i < |items| ==>
              rows[i] == Feedback(submissionId, items[i].lineNumber, items[i].hintStrings)
  {
    seq(|items|, i requires 0 <= i < |items| =>
      Feedback(submissionId, items[i].lineNumber, items[i].hintStrings))
  }

  /** The store after the delete step, before the new submission is created. */
  function AfterDelete(st: Store, questionId: string, studentId: int): (r: Store)
    ensures r.nextSubmissionId == st.nextSubmissionId
  {
    var found := FindFirst(st.submissions, SubmissionMatcher(questionId, studentId));
    if found.Some? then DeleteSubmission(st, st.submissions[found.value].id) else st
  }

  function SaveSubmissionWithFeedbacks(st: Store, questionId: string, studentId: int, language: string,
                                       studentCode: string, parserString: string,
                                       feedbacks: seq<ErrorFeedback>): (r: Saved)
    ensures r.submission == Submission(st.nextSubmissionId, questionId, studentId,
                                       NormalizeLanguage(language), studentCode, parserString)
    ensures r.store.referenceSolutions == st.referenceSolutions && r.store.testCases == st.testCases
    ensures |r.store.submissions| > 0 && r.store.submissions[|r.store.submissions| - 1] == r.submission
    ensures r.store.nextSubmissionId == st.nextSubmissionId + 1
    ensures FindFirst(st.submissions, SubmissionMatcher(questionId, studentId)).None? ==>
              && r.effects == [CreateSub(r.submission), CreateFeedback(FeedbackRows(feedbacks, r.submission.id))]
              && r.store.submissions == st.submissions + [r.submission]
    ensures FindFirst(st.submissions, SubmissionMatcher(questionId, studentId)).Some? ==>
              r.effects == [DeleteSub(st.submissions[FindFirst(st.submissions, SubmissionMatcher(questionId, studentId)).value].id),
                            CreateSub(r.submission), CreateFeedback(FeedbackRows(feedbacks, r.submission.id))]
  {
    var found := FindFirst(st.submissions, SubmissionMatcher(questionId, studentId));
    var deleted := if found.Some? then [DeleteSub(st.submissions[found.value].id)] else [];
    var st1 := AfterDelete(st, questionId, studentId);
    var (st2, sub) := CreateSubmission(st1, questionId, studentId, NormalizeLanguage(language),
                                       studentCode, parserString);
    var rows := FeedbackRows(feedbacks, sub.id);
    Saved(CreateFeedbacks(st2, rows), deleted + [CreateSub(sub), CreateFeedback(rows)], sub)
  }

  lemma SaveUnfolds(st: Store, questionId: string, studentId: int, language: string,
                    studentCode: string, parserString: string, feedbacks: seq<ErrorFeedback>)
    ensures var r := SaveSubmissionWithFeedbacks(st, questionId, studentId, language, studentCode, parserString, feedbacks);
            var st1 := AfterDelete(st, questionId, studentId);
            && r.store.submissions == st1.submissions + [r.submission]
            && r.store.feedbacks == st1.feedbacks + FeedbackRows(feedbacks, r.submission.id)
  {
  }

  /**
   Only the first submission found for the pair is deleted: every other
   submission, including a second one for the same pair, stays, and so do the
   feedback rows of every submission that is not deleted.
   */
  lemma SaveKeepsUnmatched(st: Store, questionId: string, studentId: int, language: string,
                           studentCode: string, parserString: string, feedbacks: seq<ErrorFeedback>)
    ensures var r := SaveSubmissionWithFeedbacks(st, questionId, studentId, language, studentCode, parserString, feedbacks);
            var found := FindFirst(st.submissions, SubmissionMatcher(questionId, studentId));
            && (forall k :: 0 <= k < |st.submissions|
                            && (found.None? || st.submissions[k].id != st.submissions[found.value].id) ==>
                  st.submissions[k] in r.store.submissions)
            && (forall k :: 0 <= k < |st.feedbacks|
                            && (found.None? || st.feedbacks[k].submissionId != st.submissions[found.value].id) ==>
                  st.feedbacks[k] in r.store.feedbacks)
  {
    SaveUnfolds(st, questionId, studentId, language, studentCode, parserString, feedbacks);
  }

  /** A save issues only persistence effects: a delete, a create and a createMany. */
  lemma SaveEffectKinds(st: Store, questionId: string, studentId: int, language: string,
                        studentCode: string, parserString: string, feedbacks: seq<ErrorFeedback>)
    ensures var r := SaveSubmissionWithFeedbacks(st, questionId, studentId, language, studentCode, parserString, feedbacks);
            forall e | e in r.effects :: e.DeleteSub? || e.CreateSub? || e.CreateFeedback?
  {
  }

  /** Replacing keeps the store well formed. */
  lemma SaveKeepsWellFormed(st: Store, questionId: string, studentId: int, language: string,
                            studentCode: string, parserString: string, feedbacks: seq<ErrorFeedback>)
    requires WellFormed(st)
    ensures WellFormed(SaveSubmissionWithFeedbacks(st, questionId, studentId, language, studentCode,
                                                   parserString, feedbacks).store)
  {
    var r := SaveSubmissionWithFeedbacks(st, questionId, studentId, language, studentCode, parserString, feedbacks);
    var st1 := AfterDelete(st, questionId, studentId);
    var found := FindFirst(st.submissions, SubmissionMatcher(questionId, studentId));
    if found.Some? {
      DeleteKeepsWellFormed(st, st.submissions[found.value].id);
    }
    assert WellFormed(st1);
    CreateKeepsWellFormed(st1, questionId, studentId, NormalizeLanguage(language), studentCode, parserString);
    SaveUnfolds(st, questionId, studentId, language, studentCode, parserString, feedbacks);
    var rows := FeedbackRows(feedbacks, r.submission.id);
    forall i | 0 <= i < |r.store.feedbacks|
      ensures r.store.feedbacks[i].submissionId < r.store.nextSubmissionId
    {
      if i >= |st1.feedbacks| {
        assert r.store.feedbacks[i] == rows[i - |st1.feedbacks|];
      }
    }
  }

  /** Without the first match, no submission of the key remains (given one per key before). */
  lemma AfterDeleteClearsKey(st: Store, questionId: string, studentId: int)
    requires WellFormed(st) && OneSubmissionPerKey(st.submissions)
    ensures forall k :: 0 <= k < |AfterDelete(st, questionId, studentId).submissions| ==>
              !SubmissionMatcher(questionId, studentId)(AfterDelete(st, questionId, studentId).submissions[k])
  {
    var st1 := AfterDelete(st, questionId, studentId);
    var found := FindFirst(st.submissions, SubmissionMatcher(questionId, studentId));
    if found.Some? {
      var i := found.value;
      forall k | 0 <= k < |st1.submissions|
        ensures !SubmissionMatcher(questionId, studentId)(st1.submissions[k])
      {
        var y := st1.submissions[k];
        var m :| 0 <= m < |st.submissions| && st.submissions[m] == y;
        assert y.id != st.submissions[i].id;
        assert m != i;
        assert SubmissionKey(y) != SubmissionKey(st.submissions[i]);
      }
    }
  }

  /**
   Replace-on-resubmit keeps at most one submission per (questionId, studentId),
   and afterwards the one for this pair is the new submission.
   */
  lemma SaveKeepsOneSubmissionPerKey(st: Store, questionId: string, studentId: int, language: string,
                                     studentCode: string, parserString: string, feedbacks: seq<ErrorFeedback>)
    requires WellFormed(st) && OneSubmissionPerKey(st.submissions)
    ensures var r := SaveSubmissionWithFeedbacks(st, questionId, studentId, language, studentCode, parserString, feedbacks);
            && OneSubmissionPerKey(r.store.submissions)
            && forall k :: 0 <= k < |r.store.submissions| && SubmissionMatcher(questionId, studentId)(r.store.submissions[k]) ==>
                 r.store.submissions[k] == r.submission
  {
    var r := SaveSubmissionWithFeedbacks(st, questionId, studentId, language, studentCode, parserString, feedbacks);
    var st1 := AfterDelete(st, questionId, studentId);
    var found := FindFirst(st.submissions, SubmissionMatcher(questionId, studentId));
    if found.Some? {
      FilterDistinct(st.submissions, SubmissionIdIsNot(st.submissions[found.value].id), SubmissionKey);
    }
    assert Distinct(st1.submissions, SubmissionKey);
    AfterDeleteClearsKey(st, questionId, studentId);
    SaveUnfolds(st, questionId, studentId, language, studentCode, parserString, feedbacks);
    forall y | y in st1.submissions
      ensures SubmissionKey(y) != SubmissionKey(r.submission)
    {
      var k :| 0 <= k < |st1.submissions| && st1.submissions[k] == y;
    }
    DistinctAppend(st1.submissions, r.submission, SubmissionKey);
  }

  /** Submissions of every other (questionId, studentId) pair are untouched, in order. */
  lemma SaveLeavesOtherKeys(st: Store, questionId: string, studentId: int, language: string,
                            studentCode: string, parserString: string, feedbacks: seq<ErrorFeedback>)
    requires WellFormed(st)
    ensures var r := SaveSubmissionWithFeedbacks(st, questionId, studentId, language, studentCode, parserString, feedbacks);
            Filter(r.store.submissions, OtherSubmission(questionId, studentId))
              == Filter(st.submissions, OtherSubmission(questionId, studentId))
  {
    var r := SaveSubmissionWithFeedbacks(st, questionId, studentId, language, studentCode, parserString, feedbacks);
    var st1 := AfterDelete(st, questionId, studentId);
    var other := OtherSubmission(questionId, studentId);
    SaveUnfolds(st, questionId, studentId, language, studentCode, parserString, feedbacks);
    FilterConcat(st1.submissions, [r.submission], other);
    FilterDropsAll([r.submission], other);
    var found := FindFirst(st.submissions, SubmissionMatcher(questionId, studentId));
    if found.Some? {
      var i := found.value;
      var x := st.submissions[i].id;
      forall y | y in st.submissions && other(y)
        ensures SubmissionIdIsNot(x)(y)
      {
        var k :| 0 <= k < |st.submissions| && st.submissions[k] == y;
        assert k != i;
      }
      FilterAbsorbs(st.submissions, SubmissionIdIsNot(x), other);
    }
  }

  /**
   The feedback rows of the new submission are exactly one row per item, in
   order; rows of submissions of other pairs are untouched; and the replaced
   submission has no rows left (the cascade).
   */
  lemma SaveFeedbackRows(st: Store, questionId: string, studentId: int, language: string,
                         studentCode: string, parserString: string, feedbacks: seq<ErrorFeedback>)
    requires WellFormed(st)
    ensures var r := SaveSubmissionWithFeedbacks(st, questionId, studentId, language, studentCode, parserString, feedbacks);
            && Filter(r.store.feedbacks, FeedbackOf(r.submission.id)) == FeedbackRows(feedbacks, r.submission.id)
            && (forall k :: 0 <= k < |st.submissions| && OtherSubmission(questionId, studentId)(st.submissions[k]) ==>
                  Filter(r.store.feedbacks, FeedbackOf(st.submissions[k].id))
                    == Filter(st.feedbacks, FeedbackOf(st.submissions[k].id)))
            && (forall k :: FindFirst(st.submissions, SubmissionMatcher(questionId, studentId)) == Some(k) ==>
                  Filter(r.store.feedbacks, FeedbackOf(st.submissions[k].id)) == [])
  {
    SaveRowsOfNew(st, questionId, studentId, language, studentCode, parserString, feedbacks);
    SaveRowsOfOthers(st, questionId, studentId, language, studentCode, parserString, feedbacks);
    SaveRowsOfReplaced(st, questionId, studentId, language, studentCode, parserString, feedbacks);
  }

  /** The new submission's rows are exactly the items, in order: no older row carries its id. */
  lemma SaveRowsOfNew(st: Store, questionId: string, studentId: int, language: string,
                      studentCode: string, parserString: string, feedbacks: seq<ErrorFeedback>)
    requires WellFormed(st)
    ensures var r := SaveSubmissionWithFeedbacks(st, questionId, studentId, language, studentCode, parserString, feedbacks);
            Filter(r.store.feedbacks, FeedbackOf(r.submission.id)) == FeedbackRows(feedbacks, r.submission.id)
  {
    var r := SaveSubmissionWithFeedbacks(st, questionId, studentId, language, studentCode, parserString, feedbacks);
    var st1 := AfterDelete(st, questionId, studentId);
    var newId := r.submission.id;
    var rows := FeedbackRows(feedbacks, newId);
    SaveUnfolds(st, questionId, studentId, language, studentCode, parserString, feedbacks);
    var found := FindFirst(st.submissions, SubmissionMatcher(questionId, studentId));
    assert forall i :: 0 <= i < |st1.feedbacks| ==> st1.feedbacks[i] in st.feedbacks by {
      if found.Some? {
        forall i | 0 <= i < |st1.feedbacks| ensures st1.feedbacks[i] in st.feedbacks {}
      }
    }
    FilterConcat(st1.feedbacks, rows, FeedbackOf(newId));
    forall i | 0 <= i < |st1.feedbacks|
      ensures !FeedbackOf(newId)(st1.feedbacks[i])
    {
      var m :| 0 <= m < |st.feedbacks| && st.feedbacks[m] == st1.feedbacks[i];
    }
    FilterDropsAll(st1.feedbacks, FeedbackOf(newId));
    FilterKeepsAll(rows, FeedbackOf(newId));
  }

  /** Rows of every other pair's submission are the same before and after. */
  lemma SaveRowsOfOthers(st: Store, questionId: string, studentId: int, language: string,
                         studentCode: string, parserString: string, feedbacks: seq<ErrorFeedback>)
    requires WellFormed(st)
    ensures var r := SaveSubmissionWithFeedbacks(st, questionId, studentId, language, studentCode, parserString, feedbacks);
            forall k :: 0 <= k < |st.submissions| && OtherSubmission(questionId, studentId)(st.submissions[k]) ==>
              Filter(r.store.feedbacks, FeedbackOf(st.submissions[k].id))
                == Filter(st.feedbacks, FeedbackOf(st.submissions[k].id))
  {
    var r := SaveSubmissionWithFeedbacks(st, questionId, studentId, language, studentCode, parserString, feedbacks);
    var st1 := AfterDelete(st, questionId, studentId);
    var rows := FeedbackRows(feedbacks, r.submission.id);
    SaveUnfolds(st, questionId, studentId, language, studentCode, parserString, feedbacks);
    var found := FindFirst(st.submissions, SubmissionMatcher(questionId, studentId));
    forall k | 0 <= k < |st.submissions| && OtherSubmission(questionId, studentId)(st.submissions[k])
      ensures Filter(r.store.feedbacks, FeedbackOf(st.submissions[k].id))
                == Filter(st.feedbacks, FeedbackOf(st.submissions[k].id))
    {
      var y := st.submissions[k].id;
      FilterConcat(st1.feedbacks, rows, FeedbackOf(y));
      FilterDropsAll(rows, FeedbackOf(y));
      if found.Some? {
        var x := st.submissions[found.value].id;
        assert k != found.value;
        FilterAbsorbs(st.feedbacks, FeedbackNotOf(x), FeedbackOf(y));
      }
    }
  }

  /** The replaced submission keeps no rows. */
  lemma SaveRowsOfReplaced(st: Store, questionId: string, studentId: int, language: string,
                           studentCode: string, parserString: string, feedbacks: seq<ErrorFeedback>)
    requires WellFormed(st)
    ensures var r := SaveSubmissionWithFeedbacks(st, questionId, studentId, language, studentCode, parserString, feedbacks);
            forall k :: FindFirst(st.submissions, SubmissionMatcher(questionId, studentId)) == Some(k) ==>
              Filter(r.store.feedbacks, FeedbackOf(st.submissions[k].id)) == []
  {
    var r := SaveSubmissionWithFeedbacks(st, questionId, studentId, language, studentCode, parserString, feedbacks);
    var st1 := AfterDelete(st, questionId, studentId);
    var rows := FeedbackRows(feedbacks, r.submission.id);
    SaveUnfolds(st, questionId, studentId, language, studentCode, parserString, feedbacks);
    var found := FindFirst(st.submissions, SubmissionMatcher(questionId, studentId));
    if found.Some? {
      var x := st.submissions[found.value].id;
      FilterConcat(st1.feedbacks, rows, FeedbackOf(x));
      FilterDropsAll(rows, FeedbackOf(x));
      forall i | 0 <= i < |st1.feedbacks|
        ensures !FeedbackOf(x)(st1.feedbacks[i])
      {
      }
      FilterDropsAll(st1.feedbacks, FeedbackOf(x));
    }
  }

  /**
   Two submissions in a row for the same pair: the second replaces the first.
   Exactly the second submission remains for the pair, it carries exactly the
   second call's feedback rows, and none of the first call's rows remain.
   */
  lemma ResubmitReplaces(st: Store, questionId: string, studentId: int,
                         language1: string, code1: string, parser1: string, feedbacks1: seq<ErrorFeedback>,
                         language2: string, code2: string, parser2: string, feedbacks2: seq<ErrorFeedback>)
    requires WellFormed(st) && OneSubmissionPerKey(st.submissions)
    ensures var first := SaveSubmissionWithFeedbacks(st, questionId, studentId, language1, code1, parser1, feedbacks1);
            var second := SaveSubmissionWithFeedbacks(first.store, questionId, studentId, language2, code2, parser2, feedbacks2);
            && second.effects[0] == DeleteSub(first.submission.id)
            && second.submission in second.store.submissions
            && (forall k :: (0 <= k < |second.store.submissions|
                             && SubmissionMatcher(questionId, studentId)(second.store.submissions[k])) ==>
                  second.store.submissions[k] == second.submission)
            && Filter(second.store.feedbacks, FeedbackOf(second.submission.id)) == FeedbackRows(feedbacks2, second.submission.id)
            && Filter(second.store.feedbacks, FeedbackOf(first.submission.id)) == []
  {
    var first := SaveSubmissionWithFeedbacks(st, questionId, studentId, language1, code1, parser1, feedbacks1);
    SaveKeepsWellFormed(st, questionId, studentId, language1, code1, parser1, feedbacks1);
    SaveKeepsOneSubmissionPerKey(st, questionId, studentId, language1, code1, parser1, feedbacks1);
    var subs := first.store.submissions;
    var last := |subs| - 1;
    assert SubmissionMatcher(questionId, studentId)(subs[last]);
    var found := FindFirst(subs, SubmissionMatcher(questionId, studentId));
    assert found.Some? && subs[found.value] == first.submission;
    SaveKeepsOneSubmissionPerKey(first.store, questionId, studentId, language2, code2, parser2, feedbacks2);
    SaveFeedbackRows(first.store, questionId, studentId, language2, code2, parser2, feedbacks2);
  }
}
