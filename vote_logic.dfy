/**
 * The vote service: accepting a vote (structural validation, survey lookup, question
 * membership, fresh id and timestamp, one write) and reading results.
 */
module VoteLogic {
  import opened Wrappers
  import opened Validation
  import opened Int32
  import opened VoteModel
  import opened SurveyProtos
  import VoteMemory
  import ResultsReader

  /** The survey lookup RPC as a partial function: a survey, or the call's error. */
  type SurveyClient = string -> Result<SurveyResponse, string>

  /** The question id, narrowed to int32, is the id of some question of the survey. */
  predicate Listed(question: int, questions: seq<QuestionResponse>) {
    exists i :: 0 <= i < |questions| && questions[i].id == ToInt32(question)
  }

  /** The survey exists and lists the vote's question. */
  predicate Admissible(v: Vote, surveys: SurveyClient) {
    surveys(v.survey).Success? && Listed(v.question, surveys(v.survey).value.questions)
  }

  /** `isValidQuestionID`: a search with early return. */
  method IsValidQuestionId(question: int, questions: seq<QuestionResponse>) returns (found: bool)
    ensures found <==> Listed(question, questions)
  {
    var target := ToInt32(question);
    for i := 0 to |questions|
      invariant forall j :: 0 <= j < i ==> questions[j].id != target
    {
      if questions[i].id == target {
        return true;
      }
    }
    return false;
  }

  /** `validateSurveyAndQuestion`: both a failed lookup and an unknown question are a bare ErrInvalidRequest. */
  method ValidateSurveyAndQuestion(v: Vote, surveys: SurveyClient) returns (err: Option<VoteError>)
    ensures err.None? <==> Admissible(v, surveys)
    ensures err.Some? ==> err.value == InvalidRequest([])
  {
    var surv := surveys(v.survey);
    if surv.Failure? {
      return Some(InvalidRequest([]));
    }
    var ok := IsValidQuestionId(v.question, surv.value.questions);
    if !ok {
      return Some(InvalidRequest([]));
    }
    return None;
  }

  class VoteService {
    const writer: VoteMemory.Repository
    const surveys: SurveyClient

    constructor (w: VoteMemory.Repository, cli: SurveyClient)
      ensures writer == w && surveys == cli
    {
      writer, surveys := w, cli;
    }

    /**
     * `Insert`: `freshId` and `now` stand for the generated UUID and the current Unix time.
     * The writer is called once, on valid and admissible votes only, with the vote carrying
     * them, and its answer is returned unchanged. `writeFault` is the error the writer answers
     * with: the in-memory writer never fails (`None`), the broker writer can fail to encode,
     * connect or publish, and then nothing is stored.
     */
    method Insert(v: Vote, freshId: string, now: int, writeFault: Option<string>)
      returns (err: Option<VoteError>, accepted: Vote)
      requires freshId != ""
      modifies writer
      ensures !StructValid(v) ==>
        err == Some(InvalidRequest(Failures(v))) && accepted == v && writer.storage == old(writer.storage)
      ensures StructValid(v) && !Admissible(v, surveys) ==>
        err == Some(InvalidRequest([])) && accepted == v && writer.storage == old(writer.storage)
      ensures StructValid(v) && Admissible(v, surveys) ==>
        accepted == v.(id := freshId, timestamp := now)
      ensures StructValid(v) && Admissible(v, surveys) && writeFault.Some? ==>
        err == Some(Failed(writeFault.value)) && writer.storage == old(writer.storage)
      ensures StructValid(v) && Admissible(v, surveys) && writeFault.None? ==>
        err == None && writer.storage == VoteMemory.Written(old(writer.storage), accepted)
    {
      accepted := v;
      if !Validation.Valid(Fields(v)) {
        return Some(InvalidRequest(Failures(v))), accepted;
      }
      err := ValidateSurveyAndQuestion(v, surveys);
      if err.Some? {
        return;
      }
      accepted := accepted.(id := freshId, timestamp := now);
      if writeFault.Some? {
        return Some(Failed(writeFault.value)), accepted;
      }
      err := writer.Insert(accepted);
    }

    /** `GetResults` hands the request to the results repository and returns its answer. */
    method GetResults(surveyId: string, answer: ResultsReader.QueryAnswer) returns (res: Results, err: Option<VoteError>)
      ensures (res, err) == ResultsReader.Read(surveyId, answer)
    {
      res, err := ResultsReader.GetResults(surveyId, answer);
    }
  }

  /** Because of the int32 narrowing, a question id 2^32 above a listed one is accepted as well. */
  lemma NarrowingAdmitsAlias(questions: seq<QuestionResponse>, q: int)
    requires 0 <= q < |questions| && questions[q].id == 1
    ensures Listed(1 + Modulus, questions)
  {
    WrapsAround(1, 1);
  }

  /** For question ids within int32 range, membership is plain equality with some listed id. */
  lemma {:induction false} ListedInRange(question: int, questions: seq<QuestionResponse>)
    requires InRange(question)
    ensures Listed(question, questions) <==> exists i :: 0 <= i < |questions| && questions[i].id == question
  {
  }
}
