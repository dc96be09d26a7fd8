/**
 * What the vote service's question check means for a survey the survey service created:
 * the questions are numbered 1..n, so a vote's question is accepted exactly when it lies in 1..n.
 */
module CrossService {
  import opened Int32
  import opened SurveyModel
  import opened SurveyProtos
  import SurveyLogic
  import SurveyGrpc
  import VoteLogic

  /** After numbering, a question id is listed exactly when its int32 narrowing lies in 1..n. */
  lemma {:induction false} ListedIffNumbered(s: Survey, r: SurveyResponse, question: int)
    requires forall k :: 0 <= k < |s.questions| ==> s.questions[k].id == k + 1
    requires |s.questions| <= Max
    requires SurveyGrpc.Mirrors(r, s)
    ensures VoteLogic.Listed(question, r.questions) <==> 1 <= ToInt32(question) <= |s.questions|
  {
    var target := ToInt32(question);
    forall k | 0 <= k < |r.questions|
      ensures r.questions[k].id == k + 1
    {
      assert InRange(k + 1);
    }
    if 1 <= target <= |s.questions| {
      assert r.questions[target - 1].id == target;
    }
  }

  /**
   * For a survey numbered by the survey service and served by the RPC handler, a vote whose
   * question id is within int32 range names a listed question exactly when it is between 1 and n.
   */
  lemma {:induction false} InRangeQuestionAccepted(
      original: Survey, saved: Survey, r: SurveyResponse, question: int)
    requires SurveyLogic.NumberedFrom(saved.questions, original.questions)
    requires |saved.questions| <= Max
    requires SurveyGrpc.Mirrors(r, saved)
    requires InRange(question)
    ensures VoteLogic.Listed(question, r.questions) <==> 1 <= question <= |original.questions|
  {
    ListedIffNumbered(saved, r, question);
  }
}
