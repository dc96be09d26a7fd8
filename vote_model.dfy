/**
 * The vote service's data model: a vote, its structural validation tags, the aggregated
 * results a reader sees, and the errors the vote service declares.
 */
module VoteModel {
  import opened Wrappers
  import opened Validation

  /** The answer type is a free string; only the five constants below are meaningful. */
  type AnswerType = string

  const AnswerTypeOption: AnswerType := "option"
  const AnswerTypeText: AnswerType := "text"
  const AnswerTypeRating: AnswerType := "rating"
  const AnswerTypeScale: AnswerType := "scale"
  const AnswerTypeDate: AnswerType := "date"

  datatype Vote = Vote(
    id: string,
    survey: string,
    question: int,
    timestamp: int,
    answerType: AnswerType,
    optionId: Option<int>,
    optionIds: seq<int>,
    textAnswer: Option<string>,
    ratingValue: Option<int>,
    scaleValue: Option<int>,
    dateAnswer: Option<int>,
    userId: string)

  /** The tagged fields of a vote, in declaration order; every other field carries no tag. */
  function Fields(v: Vote): seq<Field> {
    [ Field("Survey", Text(v.survey), [Required]),
      Field("Question", Number(v.question), [Required, Min(1)]),
      Field("AnswerType", Text(v.answerType), [Required]) ]
  }

  function Failures(v: Vote): seq<FieldError> {
    Check(Fields(v))
  }

  predicate StructValid(v: Vote) {
    Validation.Valid(Fields(v))
  }

  /** What the three tags amount to: a survey id, a question id of at least 1, and some answer type. */
  lemma {:induction false} StructValidIff(v: Vote)
    ensures StructValid(v) <==> v.survey != "" && v.question >= 1 && v.answerType != ""
  {
    FailuresSpelledOut(v);
  }

  /** Each failing field is reported with the tag it broke; a question id of 0 breaks `required`, a negative one `min`. */
  lemma {:induction false} FailuresName(v: Vote)
    ensures v.survey == "" <==> FieldError("Survey", Required) in Failures(v)
    ensures v.question == 0 <==> FieldError("Question", Required) in Failures(v)
    ensures v.question < 0 <==> FieldError("Question", Min(1)) in Failures(v)
    ensures v.answerType == "" <==> FieldError("AnswerType", Required) in Failures(v)
  {
    FailuresSpelledOut(v);
  }

  /** The validator's report for a vote, field by field. */
  lemma {:induction false} FailuresSpelledOut(v: Vote)
    ensures Failures(v) ==
      (if v.survey == "" then [FieldError("Survey", Required)] else []) +
      (if v.question == 0 then [FieldError("Question", Required)]
       else if v.question < 1 then [FieldError("Question", Min(1))] else []) +
      (if v.answerType == "" then [FieldError("AnswerType", Required)] else [])
  {
    var fs := Fields(v);
    CheckThree(fs[0], fs[1], fs[2]);
    assert fs == [fs[0], fs[1], fs[2]];
    assert [Required, Min(1)][1..] == [Min(1)] && [Min(1)][1..] == [] && [Required][1..] == [];
    assert Report(fs[0]) == if v.survey == "" then [FieldError("Survey", Required)] else [];
    assert FirstBroken(Number(v.question), [Min(1)]) == if v.question < 1 then Some(Min(1)) else None;
    assert FirstBroken(Number(v.question), [Required, Min(1)]) ==
      if v.question == 0 then Some(Required) else if v.question < 1 then Some(Min(1)) else None;
    assert Report(fs[1]) == if v.question == 0 then [FieldError("Question", Required)]
      else if v.question < 1 then [FieldError("Question", Min(1))] else [];
    assert Report(fs[2]) == if v.answerType == "" then [FieldError("AnswerType", Required)] else [];
  }

  /** The answer type is only checked for presence: a value outside the five constants passes. */
  lemma UnknownAnswerTypePasses(v: Vote)
    requires v.survey != "" && v.question >= 1
    requires v.answerType != ""
    requires v.answerType !in {AnswerTypeOption, AnswerTypeText, AnswerTypeRating, AnswerTypeScale, AnswerTypeDate}
    ensures StructValid(v)
  {
    StructValidIff(v);
  }

  /** The id, timestamp, answer payload and user id play no part in structural validation. */
  lemma {:induction false} UntaggedFieldsIgnored(v: Vote, w: Vote)
    requires v.survey == w.survey && v.question == w.question && v.answerType == w.answerType
    ensures Failures(v) == Failures(w)
  {
    assert Fields(v) == Fields(w);
  }

  // ----- aggregated results -----

  datatype OptionResult = OptionResult(optionId: int, count: int)

  datatype TextAnswerResult = TextAnswerResult(answer: string, count: int)

  /** Per-question results; the floating-point averages and percentages are not modelled. */
  datatype QuestionResults = QuestionResults(
    question: int,
    totalVotes: int,
    optionResults: seq<OptionResult>,
    textAnswers: seq<TextAnswerResult>,
    ratingCounts: map<int, int>,
    scaleCounts: map<int, int>,
    dateDistribution: map<string, int>)

  datatype Results = Results(survey: string, results: seq<QuestionResults>, updatedAt: int)

  /** The zero value `Results{}`. */
  const EmptyResults: Results := Results("", [], 0)

  // ----- errors declared by the vote service -----

  /**
   * `InvalidRequest(detail)` is `ErrInvalidRequest`, wrapped around the validator's failures
   * when `detail` is non-empty; `Failed` is any error passed through from a collaborator.
   */
  datatype VoteError = InvalidRequest(detail: seq<FieldError>) | ResultsNotFound | Failed(message: string)
}
