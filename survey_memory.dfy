/** The survey service's in-memory repository: a map from survey id to survey. */
module SurveyMemory {
  import opened Wrappers
  import opened SurveyModel

  /** Newest first: creation times never increase along the sequence. */
  predicate NewestFirst(s: seq<Survey>) {
    forall i, j :: 0 <= i < j < |s| ==> s[i].createdAt >= s[j].createdAt
  }

  /** Exchanges two elements of `a`. */
  method Swap(a: array<Survey>, p: int, q: int)
    requires 0 <= p < a.Length && 0 <= q < a.Length
    modifies a
    ensures a[..] == old(a[..])[p := old(a[q])][q := old(a[p])]
    ensures multiset(a[..]) == old(multiset(a[..]))
  {
    a[p], a[q] := a[q], a[p];
  }

  /** Moves `a[i]` left past every older survey, so that `a[..i + 1]` is newest first. */
  method InsertNewest(a: array<Survey>, i: int)
    requires 0 <= i < a.Length
    requires NewestFirst(a[..i])
    modifies a
    ensures NewestFirst(a[..i + 1])
    ensures multiset(a[..]) == old(multiset(a[..]))
  {
    var j := i;
    while j > 0 && a[j - 1].createdAt < a[j].createdAt
      invariant 0 <= j <= i
      invariant multiset(a[..]) == old(multiset(a[..]))
      invariant forall p, q :: 0 <= p < q <= i && p != j && q != j ==> a[p].createdAt >= a[q].createdAt
      invariant forall q :: j < q <= i ==> a[j].createdAt > a[q].createdAt
    {
      Swap(a, j - 1, j);
      j := j - 1;
    }
  }

  /** Sorts `a` in place so that the newest survey comes first, keeping every element. */
  method SortNewestFirst(a: array<Survey>)
    modifies a
    ensures NewestFirst(a[..])
    ensures multiset(a[..]) == old(multiset(a[..]))
  {
    var i := 0;
    while i < a.Length
      invariant 0 <= i <= a.Length
      invariant NewestFirst(a[..i])
      invariant multiset(a[..]) == old(multiset(a[..]))
    {
      InsertNewest(a, i);
      i := i + 1;
    }
    assert a[..] == a[..a.Length];
  }

  class Repository {
    var storage: map<string, Survey>

    /** Every survey is stored under its own id. */
    ghost predicate Valid()
      reads this
    {
      forall id :: id in storage ==> storage[id].id == id
    }

    constructor ()
      ensures Valid()
      ensures storage == map[]
    {
      storage := map[];
    }

    /** Stores `s` under its id, replacing any survey stored there; never fails. */
    method Insert(s: Survey) returns (err: Option<SurveyError>)
      requires Valid()
      modifies this
      ensures Valid()
      ensures err == None
      ensures storage == old(storage)[s.id := s]
      ensures LoadByID(s.id) == Success(s)
      ensures forall id :: id != s.id ==> LoadByID(id) == old(LoadByID(id))
    {
      storage := storage[s.id := s];
      err := None;
    }

    /** The survey stored under `id`, or `NotFound`. */
    function LoadByID(id: string): (r: Result<Survey, SurveyError>)
      reads this
      ensures r.Success? <==> id in storage
      ensures r.Success? ==> r.value == storage[id]
      ensures r.Failure? ==> r.error == NotFound
    {
      if id in storage then Success(storage[id]) else Failure(NotFound)
    }

    /** Every stored survey, each exactly once, in no particular order. */
    method Collect() returns (collected: seq<Survey>)
      requires Valid()
      ensures |collected| == |storage|
      ensures forall id :: id in storage ==> multiset(collected)[storage[id]] == 1
      ensures forall i :: 0 <= i < |collected| ==> collected[i] in storage.Values
    {
      collected := [];
      var left := storage.Keys;
      while left != {}
        invariant left <= storage.Keys
        invariant |collected| + |left| == |storage|
        invariant forall id :: id in storage && id !in left ==> multiset(collected)[storage[id]] == 1
        invariant forall id :: id in left ==> multiset(collected)[storage[id]] == 0
        invariant forall i :: 0 <= i < |collected| ==> collected[i] in storage.Values
        decreases |left|
      {
        var id :| id in left;
        collected := collected + [storage[id]];
        left := left - {id};
      }
    }

    /** All stored surveys, each exactly once, newest first; never fails. */
    method Load() returns (surveys: seq<Survey>, err: Option<SurveyError>)
      requires Valid()
      ensures err == None
      ensures |surveys| == |storage|
      ensures forall id :: id in storage ==> multiset(surveys)[storage[id]] == 1
      ensures forall i :: 0 <= i < |surveys| ==> surveys[i] in storage.Values
      ensures NewestFirst(surveys)
    {
      var collected := Collect();
      var a := new Survey[|collected|](i requires 0 <= i < |collected| => collected[i]);
      assert a[..] == collected;
      SortNewestFirst(a);
      surveys := a[..];
      assert forall i :: 0 <= i < |surveys| ==> surveys[i] in multiset(collected);
      err := None;
    }
  }
}
