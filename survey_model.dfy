/** The survey service's data model, its validation tags and the errors it declares. */
module SurveyModel {
  import opened Wrappers
  import opened Validation

  datatype Question = Question(id: int, text: string)

  /**
   * A survey. `questionsNil` tells a nil `Questions` slice (the key absent or `null` in the
   * decoded body) from an empty one; it only matters when `questions` is empty.
   */
  datatype Survey = Survey(id: string, name: string, questions: seq<Question>, questionsNil: bool, createdAt: int)

  /** The validator's view of `Questions`. */
  function QuestionsValue(s: Survey): Value {
    List(s.questionsNil && s.questions == [], |s.questions|)
  }

  /**
   * The tagged fields of a survey. `Questions` carries no `dive` tag, so the validator checks
   * the list itself and never the questions in it.
   */
  function Fields(s: Survey): seq<Field> {
    [ Field("Name", Text(s.name), [Required]),
      Field("Questions", QuestionsValue(s), [Required, Min(2)]) ]
  }

  /** The tag on a question, checked only when a question is validated on its own. */
  function QuestionFields(q: Question): seq<Field> {
    [Field("Text", Text(q.text), [Required])]
  }

  function Failures(s: Survey): seq<FieldError> {
    Check(Fields(s))
  }

  predicate StructValid(s: Survey) {
    Validation.Valid(Fields(s))
  }

  /**
   * The failures, in field order: an empty name breaks `required`; a nil question list breaks
   * `required`, and a non-nil one with fewer than two questions breaks `min`.
   */
  lemma {:induction false} FailuresSpelledOut(s: Survey)
    ensures Failures(s) ==
      (if s.name == "" then [FieldError("Name", Required)] else [])
      + (if s.questionsNil && s.questions == [] then [FieldError("Questions", Required)]
         else if |s.questions| < 2 then [FieldError("Questions", Min(2))]
         else [])
  {
    var fs := Fields(s);
    CheckTwo(fs[0], fs[1]);
    assert fs == [fs[0], fs[1]];
    assert [Required, Min(2)][1..] == [Min(2)] && [Min(2)][1..] == [] && [Required][1..] == [];
    assert FirstBroken(QuestionsValue(s), [Min(2)]) == if |s.questions| < 2 then Some(Min(2)) else None;
    assert Report(fs[0]) == if s.name == "" then [FieldError("Name", Required)] else [];
  }

  /** A survey passes validation exactly when it has a name and at least two questions; its id and creation time are not looked at. */
  lemma {:induction false} StructValidIff(s: Survey)
    ensures StructValid(s) <==> s.name != "" && |s.questions| >= 2
  {
    FailuresSpelledOut(s);
  }

  /** An empty question list that was sent as `[]` is reported under `min`, not `required`. */
  lemma {:induction false} EmptyListBreaksMin(name: string)
    requires name != ""
    ensures Failures(Survey("", name, [], false, 0)) == [FieldError("Questions", Min(2))]
    ensures Failures(Survey("", name, [], true, 0)) == [FieldError("Questions", Required)]
  {
    FailuresSpelledOut(Survey("", name, [], false, 0));
    FailuresSpelledOut(Survey("", name, [], true, 0));
  }

  /** The question texts never affect survey validation. */
  lemma {:induction false} QuestionTextsIgnored(s: Survey, t: Survey)
    requires s.name == t.name && |s.questions| == |t.questions| && s.questionsNil == t.questionsNil
    ensures Failures(s) == Failures(t)
  {
    FailuresSpelledOut(s);
    FailuresSpelledOut(t);
  }

  /**
   * A named survey with at least two questions passes even when a question has no text: the
   * `required` tag on a question's text is never reached.
   */
  lemma {:induction false} EmptyQuestionTextPasses(s: Survey, i: int)
    requires s.name != "" && |s.questions| >= 2
    requires 0 <= i < |s.questions| && s.questions[i].text == ""
    ensures StructValid(s)
    ensures !Validation.Valid(QuestionFields(s.questions[i]))
  {
    StructValidIff(s);
    assert [Required][1..] == [];
    assert Check(QuestionFields(s.questions[i])) == Report(QuestionFields(s.questions[i])[0]);
  }

  /**
   * The survey service's errors. `InvalidRequest(detail)` is `ErrInvalidRequest`, wrapped
   * around the validator's failures when `detail` is non-empty. `QuestionConditionalLogic`
   * and `Other` come from operations outside this model and carry their own text.
   */
  datatype SurveyError =
    | NotFound
    | InvalidRequest(detail: seq<FieldError>)
    | QuestionConditionalLogic(message: string)
    | Other(message: string)

  /**
   * `err.Error()`. An invalid-input error is `ErrInvalidRequest`'s text, followed by the
   * validator's message when it wraps one.
   */
  function ErrorText(e: SurveyError): (text: string)
    ensures e.NotFound? ==> text == "Survey not found"
    ensures e.InvalidRequest? ==>
      |text| >= |"Invalid survey input"| && text[..|"Invalid survey input"|] == "Invalid survey input"
    ensures e.InvalidRequest? && e.detail != [] ==>
      text == "Invalid survey input: " + Describe("Survey", e.detail) && |text| > |"Invalid survey input: "|
  {
    match e
    case NotFound => "Survey not found"
    case InvalidRequest(detail) =>
      if detail == [] then "Invalid survey input" else "Invalid survey input: " + Describe("Survey", detail)
    case QuestionConditionalLogic(message) => message
    case Other(message) => message
  }
}
