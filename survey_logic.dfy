/** The survey service: validation, identity, creation time and question numbering before storage. */
module SurveyLogic {
  import opened Wrappers
  import opened Validation
  import opened SurveyModel
  import SurveyMemory

  /** Question `k` of a numbered list is question `k` of `qs` with id `k + 1`. */
  predicate NumberedFrom(numbered: seq<Question>, qs: seq<Question>) {
    && |numbered| == |qs|
    && forall k :: 0 <= k < |qs| ==> numbered[k] == qs[k].(id := k + 1)
  }

  /** Gives the questions the ids 1, 2, ... in list order. */
  method NumberQuestions(qs: seq<Question>) returns (numbered: seq<Question>)
    ensures NumberedFrom(numbered, qs)
  {
    numbered := qs;
    for k := 0 to |qs|
      invariant |numbered| == |qs|
      invariant forall i :: 0 <= i < k ==> numbered[i] == qs[i].(id := i + 1)
      invariant forall i :: k <= i < |qs| ==> numbered[i] == qs[i]
    {
      numbered := numbered[k := numbered[k].(id := k + 1)];
    }
  }

  /** Numbering keeps the texts and makes the ids exactly 1..n, each used once. */
  lemma NumberingIds(numbered: seq<Question>, qs: seq<Question>)
    requires NumberedFrom(numbered, qs)
    ensures forall k :: 0 <= k < |qs| ==> numbered[k].text == qs[k].text
    ensures forall k :: 0 <= k < |qs| ==> 1 <= numbered[k].id <= |qs|
    ensures forall i, j :: 0 <= i < j < |qs| ==> numbered[i].id < numbered[j].id
  {
  }

  class SurveyService {
    const repository: SurveyMemory.Repository

    constructor (repository: SurveyMemory.Repository)
      ensures this.repository == repository
    {
      this.repository := repository;
    }

    /**
     * Validates `s`; if it passes, stores it with the generated id `freshId`, the creation time
     * `now` and its questions numbered, and returns the stored survey. A survey that fails
     * validation is returned unchanged and the repository is not called. The repository's
     * answer is returned unchanged: `writeFault` is the error it answers with (the in-memory
     * repository never fails; the database one can), and then nothing is stored.
     */
    method Insert(s: Survey, freshId: string, now: int, writeFault: Option<string>)
      returns (err: Option<SurveyError>, saved: Survey)
      requires freshId != ""
      requires repository.Valid()
      modifies repository
      ensures repository.Valid()
      ensures !StructValid(s) ==>
        && err == Some(InvalidRequest(Failures(s)))
        && saved == s
        && repository.storage == old(repository.storage)
      ensures StructValid(s) ==>
        && saved.id == freshId
        && saved.name == s.name
        && saved.createdAt == now
        && NumberedFrom(saved.questions, s.questions)
      ensures StructValid(s) && writeFault.Some? ==>
        err == Some(Other(writeFault.value)) && repository.storage == old(repository.storage)
      ensures StructValid(s) && writeFault.None? ==>
        err == None && repository.storage == old(repository.storage)[freshId := saved]
    {
      if Failures(s) != [] {
        return Some(InvalidRequest(Failures(s))), s;
      }
      var numbered := NumberQuestions(s.questions);
      saved := s.(id := freshId, createdAt := now, questions := numbered);
      if writeFault.Some? {
        return Some(Other(writeFault.value)), saved;
      }
      err := repository.Insert(saved);
    }

    /**
     * The repository's answer for `id`, unchanged. `loadFault` is an error other than a missing
     * document that the repository answers with (the in-memory one never does; the database one
     * can); a missing survey is the repository's `NotFound`.
     */
    function LoadByID(id: string, loadFault: Option<string>): (r: Result<Survey, SurveyError>)
      reads repository
      ensures loadFault.Some? ==> r == Failure(Other(loadFault.value))
      ensures loadFault.None? ==> (r.Success? <==> id in repository.storage)
      ensures loadFault.None? && r.Success? ==> r.value == repository.storage[id]
      ensures loadFault.None? && r.Failure? ==> r.error == NotFound
    {
      if loadFault.Some? then Failure(Other(loadFault.value)) else repository.LoadByID(id)
    }

    /**
     * The repository's listing, unchanged: every stored survey once, newest first. `loadFault`
     * is the error the repository answers with (the in-memory one never fails; the database one
     * can), and then no survey is returned.
     */
    method Load(loadFault: Option<string>) returns (surveys: seq<Survey>, err: Option<SurveyError>)
      requires repository.Valid()
      ensures loadFault.Some? ==> err == Some(Other(loadFault.value)) && surveys == []
      ensures loadFault.None? ==> err == None
      ensures loadFault.None? ==> |surveys| == |repository.storage|
      ensures loadFault.None? ==>
        forall id :: id in repository.storage ==> multiset(surveys)[repository.storage[id]] == 1
      ensures loadFault.None? ==> forall i :: 0 <= i < |surveys| ==> surveys[i] in repository.storage.Values
      ensures loadFault.None? ==> SurveyMemory.NewestFirst(surveys)
    {
      if loadFault.Some? {
        return [], Some(Other(loadFault.value));
      }
      surveys, err := repository.Load();
    }
  }
}
