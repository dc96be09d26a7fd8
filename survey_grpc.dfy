/** The survey service's RPC handler: the survey lookup the vote service calls. */
module SurveyGrpc {
  import opened Wrappers
  import opened Int32
  import opened SurveyModel
  import opened SurveyProtos
  import SurveyLogic

  /** `r` carries the id, name and creation time of `s`, and its questions in order with ids narrowed to int32. */
  predicate Mirrors(r: SurveyResponse, s: Survey) {
    && r.id == s.id
    && r.name == s.name
    && r.createdAt == s.createdAt
    && |r.questions| == |s.questions|
    && forall k :: 0 <= k < |s.questions| ==>
         r.questions[k] == QuestionResponse(ToInt32(s.questions[k].id), s.questions[k].text)
  }

  /** A survey has exactly one response. */
  lemma MirrorsUnique(r1: SurveyResponse, r2: SurveyResponse, s: Survey)
    requires Mirrors(r1, s) && Mirrors(r2, s)
    ensures r1 == r2
  {
    assert r1.questions == r2.questions;
  }

  /** Builds the response by appending one question response per survey question. */
  method BuildSurveyResponse(s: Survey) returns (r: SurveyResponse)
    ensures Mirrors(r, s)
  {
    r := SurveyResponse(s.id, s.name, s.createdAt, []);
    for k := 0 to |s.questions|
      invariant r.id == s.id && r.name == s.name && r.createdAt == s.createdAt
      invariant |r.questions| == k
      invariant forall i :: 0 <= i < k ==>
        r.questions[i] == QuestionResponse(ToInt32(s.questions[i].id), s.questions[i].text)
    {
      var q := s.questions[k];
      r := r.(questions := r.questions + [QuestionResponse(ToInt32(q.id), q.text)]);
    }
  }

  /**
   * The failed lookup's answer: no response and the load error itself. Passing the error on is
   * all it does; `id` only feeds its log line, which is not modelled.
   */
  function HandleSurveyError(id: string, e: SurveyError): (answer: (Option<SurveyResponse>, SurveyError))
    ensures answer.0 == None
    ensures answer.1 == e
  {
    (None, e)
  }

  /** Loads the requested survey; a load error is passed on unchanged with no response. */
  method GetSurvey(service: SurveyLogic.SurveyService, request: SurveyRequest, loadFault: Option<string>)
    returns (response: Option<SurveyResponse>, err: Option<SurveyError>)
    ensures service.LoadByID(request.id, loadFault).Failure? ==>
      response == None && err == Some(service.LoadByID(request.id, loadFault).error)
    ensures service.LoadByID(request.id, loadFault).Success? ==>
      err == None && response.Some? && Mirrors(response.value, service.LoadByID(request.id, loadFault).value)
  {
    var loaded := service.LoadByID(request.id, loadFault);
    if loaded.Failure? {
      var answer := HandleSurveyError(request.id, loaded.error);
      return answer.0, Some(answer.1);
    }
    var r := BuildSurveyResponse(loaded.value);
    return Some(r), None;
  }
}
