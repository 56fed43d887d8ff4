/**
 `generateErrorFeedback`: the grading-feedback pipeline. Every step is a pure
 function of the store; a run returns the new store, the effects it issued in
 order, and either the feedback list or the error it threw. A failing run keeps
 whatever it wrote before failing (the statements are not transactional).
 */
module FeedbackFlow {
  import opened Wrappers
  import opened Seqs
  import opened Entities
  import opened Db
  import opened Its
  import opened SubmissionStore

  datatype Run<T> = Run(store: Store, effects: seq<Effect>, result: Result<T, Error>)

  /** `if (!referencedSolution.codeParser)` fails for a non-empty string only. */
  predicate CacheHit(codeParser: Option<string>) {
    codeParser.Some? && codeParser.value != ""
  }

  ghost predicate NoReferenceUpdate(effects: seq<Effect>) {
    forall e | e in effects :: !e.UpdateRef?
  }

  ghost predicate NoFeedbackCall(effects: seq<Effect>) {
    forall e | e in effects :: !e.FeedbackCall?
  }

  ghost predicate NoPersistence(effects: seq<Effect>) {
    forall e | e in effects :: !e.DeleteSub? && !e.CreateSub? && !e.CreateFeedback?
  }

  /** The reference solution the run grades against: first match on (questionId, normalised language). */
  function FindReference(st: Store, questionId: string, language: string): (r: Option<nat>)
    ensures r.Some? ==> r.value < |st.referenceSolutions|
    ensures r.Some? ==> st.referenceSolutions[r.value].questionId == questionId
                        && st.referenceSolutions[r.value].language == NormalizeLanguage(language)
    ensures r.None? <==> forall j :: 0 <= j < |st.referenceSolutions| ==>
              !(st.referenceSolutions[j].questionId == questionId
                && st.referenceSolutions[j].language == NormalizeLanguage(language))
  {
    FindFirst(st.referenceSolutions, ReferenceMatcher(questionId, NormalizeLanguage(language)))
  }

  /** The test case the run uses: the first one of the question. */
  function FindTestCase(st: Store, questionId: string): (r: Option<nat>)
    ensures r.Some? ==> r.value < |st.testCases| && st.testCases[r.value].questionId == questionId
    ensures r.None? <==> forall j :: 0 <= j < |st.testCases| ==> st.testCases[j].questionId != questionId
  {
    FindFirst(st.testCases, TestCaseMatcher(questionId))
  }

  /**
   The reference parser string, cache-or-compute: a non-empty cached string is
   used as it is; otherwise the reference code is parsed once (with the raw
   language) and the result is written back to the same row.
   */
  function ReferenceParserString(its: Services, st: Store, language: string, ref: ReferenceSolution): (r: Run<string>)
    ensures CacheHit(ref.codeParser) ==> r == Run(st, [], Success(ref.codeParser.value))
    ensures !CacheHit(ref.codeParser) && its.parser(language, ref.code).Failure? ==>
              r == Run(st, [ParseCall(language, ref.code)], Failure(RemoteFailure(its.parser(language, ref.code).error)))
    ensures !CacheHit(ref.codeParser) && its.parser(language, ref.code).Success? ==>
              var s := its.stringify(its.parser(language, ref.code).value);
              && r.effects == [ParseCall(language, ref.code), UpdateRef(ref.id, s)]
              && r.result == Success(s)
              && r.store == st.(referenceSolutions := UpdateReferenceParser(st.referenceSolutions, ref.id, s))
  {
    if CacheHit(ref.codeParser) then Run(st, [], Success(ref.codeParser.value))
    else
      var call := GenerateParserString(its, language, ref.code);
      match call.result
      case Failure(e) => Run(st, call.effects, Failure(e))
      case Success(s) =>
        var st' := st.(referenceSolutions := UpdateReferenceParser(st.referenceSolutions, ref.id, s));
        Run(st', call.effects + [UpdateRef(ref.id, s)], Success(s))
  }

  /**
   What a feedback request must carry: the raw language, `inputs = "[]"`, the
   first function declared by the reference parser string it sends (a function
   the student's parser string declares too), the student's parser string, and
   `args` made by bracketing the input of the question's first test case.
   */
  ghost predicate RequestFor(its: Services, st: Store, language: string, studentCode: string,
                             questionId: string, req: FeedbackRequest) {
    && req.language == language
    && req.inputs == "[]"
    && TargetFunction(its, req.referenceSolution) == Success(Some(req.functionName))
    && its.parser(language, studentCode).Success?
    && req.studentSolution == its.stringify(its.parser(language, studentCode).value)
    && its.parseJson(req.studentSolution).Some?
    && ContainsFunction(its.parseJson(req.studentSolution).value.fncs, Some(req.functionName))
    && FindTestCase(st, questionId).Some?
    && req.args == "[" + st.testCases[FindTestCase(st, questionId).value].input + "]"
  }

  /** The feedback request built from the question's first test case. */
  function FeedbackRequestOf(st: Store, language: string, questionId: string, refString: string,
                             studentString: string, functionName: string): FeedbackRequest
    requires FindTestCase(st, questionId).Some?
  {
    var testCase := st.testCases[FindTestCase(st, questionId).value];
    FeedbackRequest(language, refString, studentString, "[]", functionName, "[" + testCase.input + "]")
  }

  /**
   The pipeline after the function-name gate: the first test case of the
   question, the feedback call and, when it answers, the replace-on-resubmit write.
   */
  function RequestFeedback(its: Services, st: Store, language: string, studentCode: string,
                           questionId: string, studentId: int, refString: string,
                           studentString: string, functionName: string): Run<seq<ErrorFeedback>>
  {
    match FindTestCase(st, questionId)
    case None => Run(st, [], Failure(NotExistingTestCase))
    case Some(_) =>
      var request := FeedbackRequestOf(st, language, questionId, refString, studentString, functionName);
      match its.feedbackError(request)
      case Failure(_) => Run(st, [FeedbackCall(request)], Failure(ITSPostFeedback))
      case Success(items) =>
        var saved := SaveSubmissionWithFeedbacks(st, questionId, studentId, language, studentCode,
                                                 studentString, items);
        Run(saved.store, [FeedbackCall(request)] + saved.effects, Success(items))
  }

  /**
   The pipeline from the target-function step on: read the target from the
   reference parser string, parse the student code (raw language), apply the
   function-name gate, then request feedback.
   */
  function GradeWithReference(its: Services, st: Store, language: string, studentCode: string,
                              questionId: string, studentId: int, refString: string): Run<seq<ErrorFeedback>>
  {
    match TargetFunction(its, refString)
    case Failure(e) => Run(st, [], Failure(e))
    case Success(target) =>
      var student := GenerateParserString(its, language, studentCode);
      match student.result
      case Failure(e) => Run(st, student.effects, Failure(e))
      case Success(studentString) =>
        match CheckFunction(its, studentString, target)
        case Failure(e) => Run(st, student.effects, Failure(e))
        case Success(functionName) =>
          var rest := RequestFeedback(its, st, language, studentCode, questionId, studentId, refString,
                                      studentString, functionName);
          Run(rest.store, student.effects + rest.effects, rest.result)
  }

  /**
   `generateErrorFeedback(language, studentCode, questionId, studentId)`.
   */
  function GenerateErrorFeedback(its: Services, st: Store, language: string, studentCode: string,
                                 questionId: string, studentId: int): (o: Run<seq<ErrorFeedback>>)
    ensures FindReference(st, questionId, language).None? ==>
              o == Run(st, [], Failure(NotExistingReferencedSolution))
  {
    match FindReference(st, questionId, language)
    case None => Run(st, [], Failure(NotExistingReferencedSolution))
    case Some(i) =>
      var cached := ReferenceParserString(its, st, language, st.referenceSolutions[i]);
      match cached.result
      case Failure(e) => Run(cached.store, cached.effects, Failure(e))
      case Success(refString) =>
        var rest := GradeWithReference(its, cached.store, language, studentCode, questionId, studentId, refString);
        Run(rest.store, cached.effects + rest.effects, rest.result)
  }

  /** Which effects the feedback step issues and what it returns. */
  lemma RequestFeedbackEffects(its: Services, st: Store, language: string, studentCode: string,
                               questionId: string, studentId: int, refString: string,
                               studentString: string, functionName: string)
    ensures var o := RequestFeedback(its, st, language, studentCode, questionId, studentId, refString,
                                     studentString, functionName);
            && o.store.referenceSolutions == st.referenceSolutions && o.store.testCases == st.testCases
            && (o.result == Failure(NotExistingTestCase) <==> FindTestCase(st, questionId).None?)
            && (o.result.Failure? ==> o.result.error == NotExistingTestCase || o.result.error == ITSPostFeedback)
            && (o.result.Failure? && o.result.error != ITSPostFeedback ==> o.effects == [])
            && (forall e | e in o.effects :: !e.ParseCall? && !e.UpdateRef?)
            && (forall e | e in o.effects && e.FeedbackCall? ::
                  e.request == FeedbackRequestOf(st, language, questionId, refString, studentString, functionName))
  {
    match FindTestCase(st, questionId)
    case None =>
    case Some(_) =>
      var request := FeedbackRequestOf(st, language, questionId, refString, studentString, functionName);
      match its.feedbackError(request)
      case Failure(_) =>
      case Success(items) =>
        var saved := SaveSubmissionWithFeedbacks(st, questionId, studentId, language, studentCode,
                                                 studentString, items);
        SaveEffectKinds(st, questionId, studentId, language, studentCode, studentString, items);
        var o := RequestFeedback(its, st, language, studentCode, questionId, studentId, refString,
                                 studentString, functionName);
        assert o.effects == [FeedbackCall(request)] + saved.effects;
  }

  /** A feedback step that succeeds returns the service's answer and replaces the submission. */
  lemma RequestFeedbackSuccess(its: Services, st: Store, language: string, studentCode: string,
                               questionId: string, studentId: int, refString: string,
                               studentString: string, functionName: string)
    ensures var o := RequestFeedback(its, st, language, studentCode, questionId, studentId, refString,
                                     studentString, functionName);
            o.result.Success? ==>
              && FindTestCase(st, questionId).Some?
              && var request := FeedbackRequestOf(st, language, questionId, refString, studentString, functionName);
                 var saved := SaveSubmissionWithFeedbacks(st, questionId, studentId, language, studentCode,
                                                          studentString, o.result.value);
                 && its.feedbackError(request) == Success(o.result.value)
                 && o.store == saved.store
                 && o.effects == [FeedbackCall(request)] + saved.effects
  {
  }

  lemma RequestFeedbackFailure(its: Services, st: Store, language: string, studentCode: string,
                                questionId: string, studentId: int, refString: string,
                                studentString: string, functionName: string)
    ensures var o := RequestFeedback(its, st, language, studentCode, questionId, studentId, refString,
                                     studentString, functionName);
            o.result.Failure? ==> o.store == st && NoPersistence(o.effects)
  {
  }

  /** The student parse passes the function-name gate for the reference parser string. */
  ghost predicate GatePasses(its: Services, language: string, studentCode: string, refString: string) {
    && TargetFunction(its, refString).Success?
    && its.parser(language, studentCode).Success?
    && CheckFunction(its, its.stringify(its.parser(language, studentCode).value),
                     TargetFunction(its, refString).value).Success?
  }

  /** The grading step parses the student code at most once, first, and never touches the reference. */
  lemma GradeEffects(its: Services, st: Store, language: string, studentCode: string,
                     questionId: string, studentId: int, refString: string)
    ensures var o := GradeWithReference(its, st, language, studentCode, questionId, studentId, refString);
            && o.store.referenceSolutions == st.referenceSolutions && o.store.testCases == st.testCases
            && NoReferenceUpdate(o.effects)
            && (TargetFunction(its, refString).Failure? ==> o == Run(st, [], Failure(MalformedParserString)))
            && (TargetFunction(its, refString).Success? ==>
                  |o.effects| > 0 && o.effects[0] == ParseCall(language, studentCode))
            && (forall k :: 0 <= k < |o.effects| && o.effects[k].ParseCall? ==> k == 0)
  {
    match TargetFunction(its, refString)
    case Failure(_) =>
    case Success(target) =>
      var student := GenerateParserString(its, language, studentCode);
      match student.result
      case Failure(_) =>
      case Success(studentString) =>
        match CheckFunction(its, studentString, target)
        case Failure(_) =>
        case Success(functionName) =>
          var rest := RequestFeedback(its, st, language, studentCode, questionId, studentId, refString,
                                      studentString, functionName);
          RequestFeedbackEffects(its, st, language, studentCode, questionId, studentId, refString,
                                 studentString, functionName);
          var o := GradeWithReference(its, st, language, studentCode, questionId, studentId, refString);
          assert o.effects == [ParseCall(language, studentCode)] + rest.effects;
          forall k | 0 < k < |o.effects|
            ensures !o.effects[k].ParseCall?
          {
            assert o.effects[k] == rest.effects[k - 1];
          }
  }

  /**
   How the grading step ends: the gate decides CodeFunctionName, the test case
   decides NotExistingTestCase, and every feedback request it sends is well formed.
   */
  lemma GradeOutcome(its: Services, st: Store, language: string, studentCode: string,
                     questionId: string, studentId: int, refString: string)
    ensures var o := GradeWithReference(its, st, language, studentCode, questionId, studentId, refString);
            && (o.result == Failure(CodeFunctionName) <==>
                  && TargetFunction(its, refString).Success?
                  && its.parser(language, studentCode).Success?
                  && var studentString := its.stringify(its.parser(language, studentCode).value);
                     && its.parseJson(studentString).Some?
                     && !ContainsFunction(its.parseJson(studentString).value.fncs, TargetFunction(its, refString).value))
            && (o.result == Failure(NotExistingTestCase) <==>
                  GatePasses(its, language, studentCode, refString) && FindTestCase(st, questionId).None?)
            && (o.result.Failure? && o.result.error != ITSPostFeedback ==> NoFeedbackCall(o.effects))
            && (forall e | e in o.effects && e.FeedbackCall? ::
                  RequestFor(its, st, language, studentCode, questionId, e.request)
                  && e.request.referenceSolution == refString)
  {
    match TargetFunction(its, refString)
    case Failure(_) =>
    case Success(target) =>
      var student := GenerateParserString(its, language, studentCode);
      match student.result
      case Failure(_) =>
      case Success(studentString) =>
        match CheckFunction(its, studentString, target)
        case Failure(_) =>
        case Success(functionName) =>
          RequestFeedbackEffects(its, st, language, studentCode, questionId, studentId, refString,
                                 studentString, functionName);
  }

  /** Every feedback request the grading step sends is well formed and carries its reference string. */
  lemma GradeRequests(its: Services, st: Store, language: string, studentCode: string,
                      questionId: string, studentId: int, refString: string)
    ensures var o := GradeWithReference(its, st, language, studentCode, questionId, studentId, refString);
            forall e | e in o.effects && e.FeedbackCall? ::
              RequestFor(its, st, language, studentCode, questionId, e.request)
              && e.request.referenceSolution == refString
  {
    GradeOutcome(its, st, language, studentCode, questionId, studentId, refString);
  }

  /** A grading step that succeeds returns the service's answer and replaces the submission. */
  lemma GradeSuccess(its: Services, st: Store, language: string, studentCode: string,
                     questionId: string, studentId: int, refString: string)
    ensures var o := GradeWithReference(its, st, language, studentCode, questionId, studentId, refString);
            o.result.Success? ==>
              && its.parser(language, studentCode).Success?
              && |o.effects| > 1 && o.effects[1].FeedbackCall?
              && its.feedbackError(o.effects[1].request) == Success(o.result.value)
              && var saved := SaveSubmissionWithFeedbacks(st, questionId, studentId, language, studentCode,
                                                          its.stringify(its.parser(language, studentCode).value),
                                                          o.result.value);
                 && o.store == saved.store
                 && o.effects == [ParseCall(language, studentCode), o.effects[1]] + saved.effects
  {
    GradeSuccessAnswer(its, st, language, studentCode, questionId, studentId, refString);
    GradeSuccessSaves(its, st, language, studentCode, questionId, studentId, refString);
  }

  /** A successful grading step parsed the student code, then called the feedback service, which answered the result. */
  lemma GradeSuccessAnswer(its: Services, st: Store, language: string, studentCode: string,
                           questionId: string, studentId: int, refString: string)
    ensures var o := GradeWithReference(its, st, language, studentCode, questionId, studentId, refString);
            o.result.Success? ==>
              && its.parser(language, studentCode).Success?
              && |o.effects| > 1 && o.effects[0] == ParseCall(language, studentCode) && o.effects[1].FeedbackCall?
              && its.feedbackError(o.effects[1].request) == Success(o.result.value)

  {
    match TargetFunction(its, refString)
    case Failure(_) =>
    case Success(target) =>
      var student := GenerateParserString(its, language, studentCode);
      match student.result
      case Failure(_) =>
      case Success(studentString) =>
        match CheckFunction(its, studentString, target)
        case Failure(_) =>
        case Success(functionName) =>
          RequestFeedbackSuccess(its, st, language, studentCode, questionId, studentId, refString,
                                 studentString, functionName);
  }

  /** A successful grading step ends with the replace-on-resubmit of the answer. */
  lemma GradeSuccessSaves(its: Services, st: Store, language: string, studentCode: string,
                          questionId: string, studentId: int, refString: string)
    ensures var o := GradeWithReference(its, st, language, studentCode, questionId, studentId, refString);
            o.result.Success? ==>
              && its.parser(language, studentCode).Success?
              && |o.effects| > 1
              && var saved := SaveSubmissionWithFeedbacks(st, questionId, studentId, language, studentCode,
                                                          its.stringify(its.parser(language, studentCode).value),
                                                          o.result.value);
                 && o.store == saved.store
                 && o.effects[2..] == saved.effects

  {
    match TargetFunction(its, refString)
    case Failure(_) =>
    case Success(target) =>
      var student := GenerateParserString(its, language, studentCode);
      match student.result
      case Failure(_) =>
      case Success(studentString) =>
        match CheckFunction(its, studentString, target)
        case Failure(_) =>
        case Success(functionName) =>
          var rest := RequestFeedback(its, st, language, studentCode, questionId, studentId, refString,
                                      studentString, functionName);
          RequestFeedbackSuccess(its, st, language, studentCode, questionId, studentId, refString,
                                 studentString, functionName);
          if rest.result.Success? {
            var saved := SaveSubmissionWithFeedbacks(st, questionId, studentId, language, studentCode,
                                                     studentString, rest.result.value);
            var o := GradeWithReference(its, st, language, studentCode, questionId, studentId, refString);
            assert o.store == rest.store == saved.store;
            assert o.effects == [ParseCall(language, studentCode), rest.effects[0]] + saved.effects;
          }
  }

  lemma GradeFailure(its: Services, st: Store, language: string, studentCode: string,
                     questionId: string, studentId: int, refString: string)
    ensures var o := GradeWithReference(its, st, language, studentCode, questionId, studentId, refString);
            o.result.Failure? ==> o.store == st && NoPersistence(o.effects)
  {
    match TargetFunction(its, refString)
    case Failure(_) =>
    case Success(target) =>
      var student := GenerateParserString(its, language, studentCode);
      match student.result
      case Failure(_) =>
      case Success(studentString) =>
        match CheckFunction(its, studentString, target)
        case Failure(_) =>
        case Success(functionName) =>
          RequestFeedbackFailure(its, st, language, studentCode, questionId, studentId, refString,
                                 studentString, functionName);
  }

  /** The reference parser string a run grades against, when the cache step yields one. */
  function ReferenceStringOf(its: Services, st: Store, language: string, questionId: string): Option<string>
  {
    match FindReference(st, questionId, language)
    case None => None
    case Some(i) =>
      var cached := ReferenceParserString(its, st, language, st.referenceSolutions[i]);
      if cached.result.Success? then Some(cached.result.value) else None
  }

  /** A run that found its reference row: the cache step's trace, then the grading step's. */
  lemma RunUnfolds(its: Services, st: Store, language: string, studentCode: string,
                   questionId: string, studentId: int)
    requires FindReference(st, questionId, language).Some?
    ensures var cached := ReferenceParserString(its, st, language,
                                                st.referenceSolutions[FindReference(st, questionId, language).value]);
            var o := GenerateErrorFeedback(its, st, language, studentCode, questionId, studentId);
            && (cached.result.Failure? ==> o == Run(cached.store, cached.effects, Failure(cached.result.error)))
            && (cached.result.Success? ==>
                  var rest := GradeWithReference(its, cached.store, language, studentCode, questionId, studentId,
                                                 cached.result.value);
                  o == Run(rest.store, cached.effects + rest.effects, rest.result))
  {
  }

  /** A run that fails writes no submission and no feedback row. */
  lemma FailedRunPersistsNothing(its: Services, st: Store, language: string, studentCode: string,
                                 questionId: string, studentId: int)
    ensures var o := GenerateErrorFeedback(its, st, language, studentCode, questionId, studentId);
            o.result.Failure? ==>
              && o.store.submissions == st.submissions && o.store.feedbacks == st.feedbacks
              && o.store.nextSubmissionId == st.nextSubmissionId
              && NoPersistence(o.effects)
  {
    match FindReference(st, questionId, language)
    case None =>
    case Some(i) =>
      var cached := ReferenceParserString(its, st, language, st.referenceSolutions[i]);
      RunUnfolds(its, st, language, studentCode, questionId, studentId);
      if cached.result.Success? {
        GradeFailure(its, cached.store, language, studentCode, questionId, studentId, cached.result.value);
      }
  }

  /**
   Cache hit: a non-empty cached parser string is sent as it is. The reference
   code is not parsed and the reference row is not written; the only parse is
   the student's, issued first.
   */
  lemma CacheHitSkipsReferenceParse(its: Services, st: Store, language: string, studentCode: string,
                                    questionId: string, studentId: int)
    requires FindReference(st, questionId, language).Some?
    requires CacheHit(st.referenceSolutions[FindReference(st, questionId, language).value].codeParser)
    ensures var o := GenerateErrorFeedback(its, st, language, studentCode, questionId, studentId);
            var cp := st.referenceSolutions[FindReference(st, questionId, language).value].codeParser.value;
            && o.store.referenceSolutions == st.referenceSolutions
            && NoReferenceUpdate(o.effects)
            && (forall k :: 0 <= k < |o.effects| && o.effects[k].ParseCall? ==>
                  k == 0 && o.effects[k] == ParseCall(language, studentCode))
            && (forall e | e in o.effects && e.FeedbackCall? :: e.request.referenceSolution == cp)
  {
    var i := FindReference(st, questionId, language).value;
    var cp := st.referenceSolutions[i].codeParser.value;
    var rest := GradeWithReference(its, st, language, studentCode, questionId, studentId, cp);
    GradeEffects(its, st, language, studentCode, questionId, studentId, cp);
    GradeOutcome(its, st, language, studentCode, questionId, studentId, cp);
    assert GenerateErrorFeedback(its, st, language, studentCode, questionId, studentId).effects == [] + rest.effects;
  }

  /**
   Cache miss: the reference code is parsed exactly once, first, with the raw
   language; a successful parse is written back to the same reference row
   before the student code is parsed, and that string is what the feedback
   request carries. A failed parse ends the run with the parser's error.
   */
  lemma CacheMissParsesOnceThenWritesBack(its: Services, st: Store, language: string, studentCode: string,
                                          questionId: string, studentId: int)
    requires FindReference(st, questionId, language).Some?
    requires !CacheHit(st.referenceSolutions[FindReference(st, questionId, language).value].codeParser)
    ensures var o := GenerateErrorFeedback(its, st, language, studentCode, questionId, studentId);
            var ref := st.referenceSolutions[FindReference(st, questionId, language).value];
            && |o.effects| > 0 && o.effects[0] == ParseCall(language, ref.code)
            && (forall k :: 0 <= k < |o.effects| && o.effects[k].UpdateRef? ==> k == 1)
            && (forall k :: 0 <= k < |o.effects| && o.effects[k].ParseCall? ==> k == 0 || k == 2)
            && (its.parser(language, ref.code).Failure? ==>
                  o == Run(st, [ParseCall(language, ref.code)],
                           Failure(RemoteFailure(its.parser(language, ref.code).error))))
            && (its.parser(language, ref.code).Success? ==>
                  var s := its.stringify(its.parser(language, ref.code).value);
                  && |o.effects| > 1 && o.effects[1] == UpdateRef(ref.id, s)
                  && o.store.referenceSolutions == UpdateReferenceParser(st.referenceSolutions, ref.id, s)
                  && (|o.effects| > 2 ==> o.effects[2] == ParseCall(language, studentCode))
                  && (forall e | e in o.effects && e.FeedbackCall? :: e.request.referenceSolution == s))
  {
    var i := FindReference(st, questionId, language).value;
    var ref := st.referenceSolutions[i];
    var cached := ReferenceParserString(its, st, language, ref);
    if its.parser(language, ref.code).Success? {
      var s := cached.result.value;
      var rest := GradeWithReference(its, cached.store, language, studentCode, questionId, studentId, s);
      GradeEffects(its, cached.store, language, studentCode, questionId, studentId, s);
      GradeOutcome(its, cached.store, language, studentCode, questionId, studentId, s);
      RunUnfolds(its, st, language, studentCode, questionId, studentId);
      var o := GenerateErrorFeedback(its, st, language, studentCode, questionId, studentId);
      assert o.effects == [ParseCall(language, ref.code), UpdateRef(ref.id, s)] + rest.effects;
      WriteBackPrefix(ParseCall(language, ref.code), UpdateRef(ref.id, s), rest.effects);
    }
  }

  /**
   A trace that opens with the reference parse and its write-back, followed by
   a grading trace that writes no reference and parses only first, has its only
   write-back at position 1 and its parses at positions 0 and 2.
   */
  lemma WriteBackPrefix(parse: Effect, update: Effect, rest: seq<Effect>)
    requires parse.ParseCall? && update.UpdateRef?
    requires NoReferenceUpdate(rest)
    requires forall k :: 0 <= k < |rest| && rest[k].ParseCall? ==> k == 0
    ensures var es := [parse, update] + rest;
            && (forall k :: 0 <= k < |es| && es[k].UpdateRef? ==> k == 1)
            && (forall k :: 0 <= k < |es| && es[k].ParseCall? ==> k == 0 || k == 2)
  {
    var es := [parse, update] + rest;
    forall k | 2 <= k < |es|
      ensures es[k] == rest[k - 2] && !es[k].UpdateRef?
    {
      assert rest[k - 2] in rest;
    }
  }

  /** Every failure other than the feedback call's own leaves the feedback service uncalled. */
  lemma EarlyFailuresSkipFeedbackCall(its: Services, st: Store, language: string, studentCode: string,
                                      questionId: string, studentId: int)
    ensures var o := GenerateErrorFeedback(its, st, language, studentCode, questionId, studentId);
            o.result.Failure? && o.result.error != ITSPostFeedback ==> NoFeedbackCall(o.effects)
  {
    match FindReference(st, questionId, language)
    case None =>
    case Some(i) =>
      var cached := ReferenceParserString(its, st, language, st.referenceSolutions[i]);
      if cached.result.Success? {
        GradeOutcome(its, cached.store, language, studentCode, questionId, studentId, cached.result.value);
      }
  }

  /**
   The function-name gate: with the reference parser string in hand and the
   student code parsed, the run fails with CodeFunctionName exactly when the
   student's parse lacks the reference's first-declared function; it then calls
   no feedback service and writes no submission.
   */
  lemma FunctionNameGate(its: Services, st: Store, language: string, studentCode: string,
                         questionId: string, studentId: int)
    requires FaithfulCodec(its)
    requires ReferenceStringOf(its, st, language, questionId).Some?
    requires TargetFunction(its, ReferenceStringOf(its, st, language, questionId).value).Success?
    requires its.parser(language, studentCode).Success?
    ensures var o := GenerateErrorFeedback(its, st, language, studentCode, questionId, studentId);
            var target := TargetFunction(its, ReferenceStringOf(its, st, language, questionId).value).value;
            && (o.result == Failure(CodeFunctionName) <==>
                  !ContainsFunction(its.parser(language, studentCode).value.fncs, target))
            && (o.result == Failure(CodeFunctionName) ==>
                  NoFeedbackCall(o.effects) && NoPersistence(o.effects)
                  && o.store.submissions == st.submissions && o.store.feedbacks == st.feedbacks)
  {
    var i := FindReference(st, questionId, language).value;
    var cached := ReferenceParserString(its, st, language, st.referenceSolutions[i]);
    GradeOutcome(its, cached.store, language, studentCode, questionId, studentId, cached.result.value);
    FailedRunPersistsNothing(its, st, language, studentCode, questionId, studentId);
    EarlyFailuresSkipFeedbackCall(its, st, language, studentCode, questionId, studentId);
  }

  /**
   A missing test case: the run fails with NotExistingTestCase exactly when the
   gate passed and the question has no test case; no feedback call and no
   submission write happen, but a reference write-back done earlier stays.
   */
  lemma MissingTestCaseAborts(its: Services, st: Store, language: string, studentCode: string,
                              questionId: string, studentId: int)
    ensures var o := GenerateErrorFeedback(its, st, language, studentCode, questionId, studentId);
            && (o.result == Failure(NotExistingTestCase) <==>
                  && ReferenceStringOf(its, st, language, questionId).Some?
                  && GatePasses(its, language, studentCode, ReferenceStringOf(its, st, language, questionId).value)
                  && FindTestCase(st, questionId).None?)
            && (o.result == Failure(NotExistingTestCase) ==>
                  && NoFeedbackCall(o.effects) && NoPersistence(o.effects)
                  && o.store.submissions == st.submissions && o.store.feedbacks == st.feedbacks
                  && o.store.referenceSolutions
                       == ReferenceParserString(its, st, language,
                            st.referenceSolutions[FindReference(st, questionId, language).value]).store.referenceSolutions)
  {
    FailedRunPersistsNothing(its, st, language, studentCode, questionId, studentId);
    EarlyFailuresSkipFeedbackCall(its, st, language, studentCode, questionId, studentId);
    match FindReference(st, questionId, language)
    case None =>
    case Some(i) =>
      var cached := ReferenceParserString(its, st, language, st.referenceSolutions[i]);
      if cached.result.Success? {
        GradeOutcome(its, cached.store, language, studentCode, questionId, studentId, cached.result.value);
        GradeEffects(its, cached.store, language, studentCode, questionId, studentId, cached.result.value);
      }
  }

  /**
   Every feedback request a run sends carries the raw language, `inputs = "[]"`,
   the target function, the student's parser string, `args` = "[" + the first
   test case's input + "]", and the reference parser string the run graded with.
   */
  lemma FeedbackRequestsAreWellFormed(its: Services, st: Store, language: string, studentCode: string,
                                      questionId: string, studentId: int)
    ensures var o := GenerateErrorFeedback(its, st, language, studentCode, questionId, studentId);
            forall e | e in o.effects && e.FeedbackCall? ::
              && RequestFor(its, st, language, studentCode, questionId, e.request)
              && ReferenceStringOf(its, st, language, questionId) == Some(e.request.referenceSolution)
  {
    if FindReference(st, questionId, language).Some? {
      var i := FindReference(st, questionId, language).value;
      var cached := ReferenceParserString(its, st, language, st.referenceSolutions[i]);
      RunUnfolds(its, st, language, studentCode, questionId, studentId);
      if cached.result.Success? {
        var refString := cached.result.value;
        var rest := GradeWithReference(its, cached.store, language, studentCode, questionId, studentId, refString);
        GradeRequests(its, cached.store, language, studentCode, questionId, studentId, refString);
        assert ReferenceStringOf(its, st, language, questionId) == Some(refString);
        assert NoFeedbackCall(cached.effects);
        var o := GenerateErrorFeedback(its, st, language, studentCode, questionId, studentId);
        forall e | e in o.effects && e.FeedbackCall?
          ensures RequestFor(its, st, language, studentCode, questionId, e.request)
          ensures ReferenceStringOf(its, st, language, questionId) == Some(e.request.referenceSolution)
        {
          assert e in rest.effects;
          RequestForFollowsTestCases(its, cached.store, st, language, studentCode, questionId, e.request);
        }
      }
    }
  }

  /** Whether a request fits a run depends on the store only through its test cases. */
  lemma RequestForFollowsTestCases(its: Services, st: Store, st': Store, language: string, studentCode: string,
                                   questionId: string, req: FeedbackRequest)
    requires st.testCases == st'.testCases
    ensures RequestFor(its, st, language, studentCode, questionId, req)
            == RequestFor(its, st', language, studentCode, questionId, req)
  {
    assert FindTestCase(st, questionId) == FindTestCase(st', questionId);
  }

  /**
   A successful run returns exactly what the feedback service answered, and
   replaces the student's submission: the only submission for (questionId,
   studentId) is a new one with the normalised language, the student code and
   the student's parser string; it carries one feedback row per item, in order;
   submissions of other pairs are untouched.
   */
  lemma SuccessfulRunReplacesSubmission(its: Services, st: Store, language: string, studentCode: string,
                                        questionId: string, studentId: int)
    requires WellFormed(st) && OneSubmissionPerKey(st.submissions)
    ensures var o := GenerateErrorFeedback(its, st, language, studentCode, questionId, studentId);
            o.result.Success? ==>
              && its.parser(language, studentCode).Success?
              && (exists e :: e in o.effects && e.FeedbackCall? && its.feedbackError(e.request) == Success(o.result.value))
              && var sub := Submission(st.nextSubmissionId, questionId, studentId, NormalizeLanguage(language),
                                       studentCode, its.stringify(its.parser(language, studentCode).value));
                 && sub in o.store.submissions
                 && (forall k :: (0 <= k < |o.store.submissions|
                                  && SubmissionMatcher(questionId, studentId)(o.store.submissions[k])) ==>
                       o.store.submissions[k] == sub)
                 && Filter(o.store.feedbacks, FeedbackOf(sub.id)) == FeedbackRows(o.result.value, sub.id)
                 && Filter(o.store.submissions, OtherSubmission(questionId, studentId))
                      == Filter(st.submissions, OtherSubmission(questionId, studentId))
                 && (forall k :: 0 <= k < |st.submissions| && OtherSubmission(questionId, studentId)(st.submissions[k]) ==>
                       Filter(o.store.feedbacks, FeedbackOf(st.submissions[k].id))
                         == Filter(st.feedbacks, FeedbackOf(st.submissions[k].id)))
  {
    var o := GenerateErrorFeedback(its, st, language, studentCode, questionId, studentId);
    if o.result.Success? {
      var i := FindReference(st, questionId, language).value;
      var cached := ReferenceParserString(its, st, language, st.referenceSolutions[i]);
      var refString := cached.result.value;
      var rest := GradeWithReference(its, cached.store, language, studentCode, questionId, studentId, refString);
      GradeSuccess(its, cached.store, language, studentCode, questionId, studentId, refString);
      assert rest.effects[1] in o.effects;
      var c := cached.store;
      assert WellFormed(c) && OneSubmissionPerKey(c.submissions);
      var studentString := its.stringify(its.parser(language, studentCode).value);
      SaveKeepsOneSubmissionPerKey(c, questionId, studentId, language, studentCode, studentString, o.result.value);
      SaveFeedbackRows(c, questionId, studentId, language, studentCode, studentString, o.result.value);
      SaveLeavesOtherKeys(c, questionId, studentId, language, studentCode, studentString, o.result.value);
    }
  }

  /** Every run, whatever its outcome, keeps the store well formed and one submission per pair. */
  lemma RunKeepsStoreInvariants(its: Services, st: Store, language: string, studentCode: string,
                                questionId: string, studentId: int)
    requires WellFormed(st)
    ensures var o := GenerateErrorFeedback(its, st, language, studentCode, questionId, studentId);
            && WellFormed(o.store)
            && (OneSubmissionPerKey(st.submissions) ==> OneSubmissionPerKey(o.store.submissions))
  {
    var o := GenerateErrorFeedback(its, st, language, studentCode, questionId, studentId);
    FailedRunPersistsNothing(its, st, language, studentCode, questionId, studentId);
    if o.result.Success? {
      var i := FindReference(st, questionId, language).value;
      var cached := ReferenceParserString(its, st, language, st.referenceSolutions[i]);
      var refString := cached.result.value;
      GradeSuccess(its, cached.store, language, studentCode, questionId, studentId, refString);
      var c := cached.store;
      var studentString := its.stringify(its.parser(language, studentCode).value);
      SaveKeepsWellFormed(c, questionId, studentId, language, studentCode, studentString, o.result.value);
      if OneSubmissionPerKey(st.submissions) {
        SaveKeepsOneSubmissionPerKey(c, questionId, studentId, language, studentCode, studentString, o.result.value);
      }
    }
  }

  /**
   The write-back makes the cache stick: after a run that parsed the reference
   and wrote it back, a later run for the same question and (normalised)
   language finds the same reference row, now holding that string, and does
   not parse or write the reference again.
   */
  lemma SecondRunHitsCache(its: Services, st: Store, language: string, studentCode: string,
                           questionId: string, studentId: int,
                           language2: string, studentCode2: string, studentId2: int)
    requires FaithfulCodec(its)
    requires NormalizeLanguage(language2) == NormalizeLanguage(language)
    requires FindReference(st, questionId, language).Some?
    requires !CacheHit(st.referenceSolutions[FindReference(st, questionId, language).value].codeParser)
    requires its.parser(language, st.referenceSolutions[FindReference(st, questionId, language).value].code).Success?
    ensures var i := FindReference(st, questionId, language).value;
            var ref := st.referenceSolutions[i];
            var s := its.stringify(its.parser(language, ref.code).value);
            var o1 := GenerateErrorFeedback(its, st, language, studentCode, questionId, studentId);
            var o2 := GenerateErrorFeedback(its, o1.store, language2, studentCode2, questionId, studentId2);
            && FindReference(o1.store, questionId, language2) == Some(i)
            && o1.store.referenceSolutions[i] == ref.(codeParser := Some(s))
            && NoReferenceUpdate(o2.effects)
            && o2.store.referenceSolutions == o1.store.referenceSolutions
            && (forall k :: 0 <= k < |o2.effects| && o2.effects[k].ParseCall? ==>
                  k == 0 && o2.effects[k] == ParseCall(language2, studentCode2))
            && (forall e | e in o2.effects && e.FeedbackCall? :: e.request.referenceSolution == s)
  {
    var i := FindReference(st, questionId, language).value;
    var ref := st.referenceSolutions[i];
    var s := its.stringify(its.parser(language, ref.code).value);
    var o1 := GenerateErrorFeedback(its, st, language, studentCode, questionId, studentId);
    CacheMissParsesOnceThenWritesBack(its, st, language, studentCode, questionId, studentId);
    var refs := st.referenceSolutions;
    var refs' := o1.store.referenceSolutions;
    assert refs' == UpdateReferenceParser(refs, ref.id, s);
    var matcher := ReferenceMatcher(questionId, NormalizeLanguage(language));
    forall j | 0 <= j < |refs|
      ensures matcher(refs[j]) == matcher(refs'[j])
    {
    }
    FindFirstAgrees(refs, refs', matcher);
    assert FindReference(o1.store, questionId, language2) == Some(i);
    assert s != "";
    CacheHitSkipsReferenceParse(its, o1.store, language2, studentCode2, questionId, studentId2);
  }
}
