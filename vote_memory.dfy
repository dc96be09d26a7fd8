/** The in-memory vote writer: a map from vote id to the last vote written under that id. */
module VoteMemory {
  import opened Wrappers
  import opened VoteModel

  /** The storage after writing `v`. */
  function Written(storage: map<string, Vote>, v: Vote): map<string, Vote> {
    storage[v.id := v]
  }

  class Repository {
    var storage: map<string, Vote>

    constructor ()
      ensures storage == map[]
    {
      storage := map[];
    }

    /** Stores `v` under its id, replacing any earlier vote there; never fails. */
    method Insert(v: Vote) returns (err: Option<VoteError>)
      modifies this
      ensures err == None
      ensures storage == Written(old(storage), v)
      ensures v.id in storage && storage[v.id] == v
      ensures forall id :: id != v.id ==> (id in storage <==> id in old(storage))
      ensures forall id :: id != v.id && id in storage ==> storage[id] == old(storage)[id]
    {
      storage := storage[v.id := v];
      err := None;
    }
  }

  /** A write adds at most one entry, and none when the id is already present. */
  lemma {:induction false} WrittenSize(storage: map<string, Vote>, v: Vote)
    ensures |Written(storage, v)| == if v.id in storage then |storage| else |storage| + 1
  {
    var w := Written(storage, v);
    if v.id in storage {
      assert w.Keys == storage.Keys;
    } else {
      assert w.Keys == storage.Keys + {v.id};
    }
  }

  /** Writing two votes with the same id leaves only the second. */
  lemma SameIdOverwrites(storage: map<string, Vote>, a: Vote, b: Vote)
    requires a.id == b.id
    ensures Written(Written(storage, a), b) == Written(storage, b)
    ensures Written(Written(storage, a), b)[b.id] == b
  {
  }
}
