/**
 * The serializer registry each service's middleware keeps: serializers by content type,
 * with the JSON serializer answering for any content type nobody registered. The survey and
 * vote services carry the same code over their own serializer types, hence the type parameter.
 */
module Middleware {
  import opened Wrappers

  const JsonContentType := "application/json"

  /** `getSerializer` over a given registry. */
  function Lookup<S>(serializers: map<string, S>, contentType: string): (r: Option<S>)
    ensures contentType in serializers ==> r == Some(serializers[contentType])
    ensures contentType !in serializers && JsonContentType in serializers ==>
      r == Some(serializers[JsonContentType])
    ensures r.None? <==> contentType !in serializers && JsonContentType !in serializers
  {
    if contentType in serializers then Some(serializers[contentType])
    else if JsonContentType in serializers then Some(serializers[JsonContentType])
    else None
  }

  class Registry<S> {
    var serializers: map<string, S>

    /** JSON is always registered. */
    ghost predicate Valid()
      reads this
    {
      JsonContentType in serializers
    }

    /** `init`: registers the JSON serializer and nothing else. */
    constructor Init(json: S)
      ensures Valid()
      ensures serializers == map[JsonContentType := json]
    {
      serializers := map[JsonContentType := json];
    }

    /** `registerSerializer`: sets the entry for `contentType`, replacing an earlier one. */
    method Register(contentType: string, s: S)
      requires Valid()
      modifies this
      ensures Valid()
      ensures serializers == old(serializers)[contentType := s]
      ensures Get(contentType) == Some(s)
    {
      serializers := serializers[contentType := s];
    }

    /** `getSerializer`: never empty-handed once JSON is registered. */
    function Get(contentType: string): (r: Option<S>)
      requires Valid()
      reads this
      ensures r.Some?
      ensures r == Lookup(serializers, contentType)
    {
      Lookup(serializers, contentType)
    }
  }

  /** A registered serializer is found under its content type. */
  lemma RegisteredIsFound<S>(serializers: map<string, S>, contentType: string, s: S)
    ensures Lookup(serializers[contentType := s], contentType) == Some(s)
  {
  }

  /**
   * Registering one content type changes the lookup of no other content type, except that
   * re-registering JSON changes the fallback for every unregistered one.
   */
  lemma RegisterChangesOnlyThatKey<S>(serializers: map<string, S>, contentType: string, s: S, other: string)
    requires other != contentType
    requires other in serializers || contentType != JsonContentType
    ensures Lookup(serializers[contentType := s], other) == Lookup(serializers, other)
  {
  }

  /** After `init` and any registrations, every content type gets a serializer. */
  lemma {:induction false} AlwaysFound<S>(json: S, registered: seq<(string, S)>, contentType: string)
    ensures Lookup(Registrations(map[JsonContentType := json], registered), contentType).Some?
  {
    RegistrationsKeepKeys(map[JsonContentType := json], registered);
  }

  /** The registry after registering each pair in turn. */
  function Registrations<S>(serializers: map<string, S>, registered: seq<(string, S)>): (m: map<string, S>)
    decreases |registered|
  {
    if registered == [] then serializers
    else Registrations(serializers[registered[0].0 := registered[0].1], registered[1..])
  }

  lemma {:induction false} RegistrationsKeepKeys<S>(serializers: map<string, S>, registered: seq<(string, S)>)
    ensures serializers.Keys <= Registrations(serializers, registered).Keys
    decreases |registered|
  {
    if registered != [] {
      RegistrationsKeepKeys(serializers[registered[0].0 := registered[0].1], registered[1..]);
    }
  }
}
