/**
 The two remote ITS endpoints and the JSON round trip the flow puts parse
 results through. The endpoints and the codec are function values: the model
 fixes how they are called and what is done with their answers, not what they
 compute.
 */
module Its {
  import opened Wrappers
  import opened Seqs
  import opened Entities

  datatype Services = Services(
    /** POST /cs3213/parser with (language, source_code). */
    parser: (string, string) -> Result<ParseRep, AxiosError>,
    /** POST /cs3213/feedback_error. */
    feedbackError: FeedbackRequest -> Result<seq<ErrorFeedback>, AxiosError>,
    /** `JSON.stringify` of a parse result. */
    stringify: ParseRep -> string,
    /** `JSON.parse(...).fncs`, None when the text is not a parse result. */
    parseJson: string -> Option<ParseRep>)

  /** JSON text of a parse result reads back as that result, and is never empty. */
  ghost predicate FaithfulCodec(its: Services) {
    forall p :: its.parseJson(its.stringify(p)) == Some(p) && its.stringify(p) != ""
  }

  /** A call that issued some effects and produced a value or an error. */
  datatype Call<T> = Call(effects: seq<Effect>, result: Result<T, Error>)

  /**
   `generateParserString`: one parser call; its answer serialised. A failure is
   rethrown as it is (the source's test `error === typeof axios.AxiosError`
   compares an error with a string and never holds).
   */
  function GenerateParserString(its: Services, language: string, sourceCode: string): (r: Call<string>)
    ensures r.effects == [ParseCall(language, sourceCode)]
    ensures r.result.Success? <==> its.parser(language, sourceCode).Success?
    ensures r.result.Failure? ==> r.result.error == RemoteFailure(its.parser(language, sourceCode).error)
    ensures r.result.Success? && FaithfulCodec(its) ==>
              its.parseJson(r.result.value) == Some(its.parser(language, sourceCode).value)
              && r.result.value != ""
  {
    match its.parser(language, sourceCode)
    case Failure(e) => Call([ParseCall(language, sourceCode)], Failure(RemoteFailure(e)))
    case Success(rep) => Call([ParseCall(language, sourceCode)], Success(its.stringify(rep)))
  }

  /** `Object.keys(fncs)[0]`: the first declared function, None (`undefined`) when there is none. */
  function FirstFunction(fncs: seq<FnEntry>): (r: Option<string>)
    ensures r.None? <==> |fncs| == 0
    ensures r.Some? ==> fncs[0].name == r.value
  {
    if |fncs| == 0 then None else Some(fncs[0].name)
  }

  /** The target function named by a reference parser string. */
  function TargetFunction(its: Services, parserString: string): (r: Result<Option<string>, Error>)
    ensures r.Failure? <==> its.parseJson(parserString).None?
    ensures r.Failure? ==> r.error == MalformedParserString
    ensures r.Success? ==> r.value == FirstFunction(its.parseJson(parserString).value.fncs)
  {
    match its.parseJson(parserString)
    case None => Failure(MalformedParserString)
    case Some(rep) => Success(FirstFunction(rep.fncs))
  }

  /** Whether a JavaScript value read as `fncs[name]` is truthy. */
  function Truthy(m: Option<FnMeta>): bool {
    m.Some? && m.value.ObjectMeta?
  }

  /** `fncs[name]`: the metadata stored under `name`, if any. */
  function Lookup(fncs: seq<FnEntry>, name: string): (r: Option<FnMeta>)
    ensures r.Some? ==> exists i :: 0 <= i < |fncs| && fncs[i] == FnEntry(name, r.value)
    ensures r.None? <==> forall i :: 0 <= i < |fncs| ==> fncs[i].name != name
  {
    match FindFirst(fncs, NameIs(name))
    case None => None
    case Some(i) => Some(fncs[i].meta)
  }

  /**
   The function-name gate: the student's parse declares the target function with
   truthy metadata. With no target (the reference declares no function) the gate
   is closed.
   */
  function ContainsFunction(fncs: seq<FnEntry>, target: Option<string>): (r: bool)
    ensures r ==> target.Some? && exists i :: 0 <= i < |fncs| && fncs[i] == FnEntry(target.value, ObjectMeta)
    ensures (&& Distinct(fncs, EntryName)
             && target.Some?
             && exists i :: 0 <= i < |fncs| && fncs[i] == FnEntry(target.value, ObjectMeta)) ==> r
  {
    target.Some? && Truthy(Lookup(fncs, target.value))
  }

  /**
   The gate as the source writes it: `fncs[targetFunction]` with `targetFunction`
   undefined reads the property named "undefined".
   */
  function ContainsFunctionAsWritten(fncs: seq<FnEntry>, target: Option<string>): (r: bool)
    ensures target.Some? ==> r == ContainsFunction(fncs, target)
    ensures target.None? ==> r == ContainsFunction(fncs, Some("undefined"))
  {
    var key := if target.Some? then target.value else "undefined";
    Truthy(Lookup(fncs, key))
  }

  /**
   With a reference that declares no function, the gate as written lets through
   a student whose only function is named `undefined`; the corrected gate does not.
   */
  lemma UndefinedTargetSlipsThrough(student: seq<FnEntry>)
    requires student == [FnEntry("undefined", ObjectMeta)]
    ensures FirstFunction([]) == None
    ensures ContainsFunctionAsWritten(student, FirstFunction([]))
    ensures !ContainsFunction(student, FirstFunction([]))
  {
    assert student[0] == FnEntry("undefined", ObjectMeta);
  }

  /**
   The gate step: read the student's parser string, then test for the target.
   Succeeds with the target's name.
   */
  function CheckFunction(its: Services, studentString: string, target: Option<string>): (r: Result<string, Error>)
    ensures its.parseJson(studentString).None? ==> r == Failure(MalformedParserString)
    ensures r.Success? <==>
              its.parseJson(studentString).Some? && ContainsFunction(its.parseJson(studentString).value.fncs, target)
    ensures r.Success? ==> target == Some(r.value)
    ensures r.Failure? && its.parseJson(studentString).Some? ==> r.error == CodeFunctionName
  {
    match its.parseJson(studentString)
    case None => Failure(MalformedParserString)
    case Some(rep) =>
      if ContainsFunction(rep.fncs, target) then Success(target.value) else Failure(CodeFunctionName)
  }
}
