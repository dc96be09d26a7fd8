/**
 * The worker's processing loop: for each vote received from the queue, store it in the
 * votes log, and only if that succeeded update its counter; an error is logged and the loop
 * moves on to the next vote.
 */
module WorkerMain {
  import opened Wrappers
  import opened VoteModel
  import opened WorkerStorage
  import WorkerQueue

  /** The database's answers while one vote is processed. */
  datatype Faults = Faults(insert: Option<string>, lookup: Option<string>, write: Option<string>)

  predicate Clean(f: Faults) {
    f.insert.None? && f.lookup.None? && f.write.None?
  }

  /** What the loop logs for one vote. */
  datatype Outcome = AddedToResults | NotStored(err: string) | NotAddedToResults(err: string)

  /** One iteration: Insert, then UpdateResults only when Insert succeeded. */
  function Processed(t: Tables, v: Vote, f: Faults, now: int): Tables {
    var stored := Inserted(t, v, f.insert);
    if f.insert.Some? then stored else Updated(stored, v, f.lookup, f.write, now)
  }

  function ProcessedAll(t: Tables, vs: seq<Vote>, fs: seq<Faults>, nows: seq<int>): Tables
    requires |fs| == |vs| && |nows| == |vs|
    decreases |vs|
  {
    if vs == [] then t
    else ProcessedAll(Processed(t, vs[0], fs[0], nows[0]), vs[1..], fs[1..], nows[1..])
  }

  function OutcomeOf(f: Faults): Outcome {
    if f.insert.Some? then NotStored(f.insert.value)
    else if f.lookup.Some? then NotAddedToResults(f.lookup.value)
    else if f.write.Some? then NotAddedToResults(f.write.value)
    else AddedToResults
  }

  /** The loop at vote-worker-service/main.go over the votes `vs` received in order. */
  method Run(stg: PostgresVoteStorage, vs: seq<Vote>, fs: seq<Faults>, nows: seq<int>) returns (outcomes: seq<Outcome>)
    requires |fs| == |vs| && |nows| == |vs|
    modifies stg
    ensures stg.State() == ProcessedAll(old(stg.State()), vs, fs, nows)
    ensures |outcomes| == |vs| && forall i :: 0 <= i < |vs| ==> outcomes[i] == OutcomeOf(fs[i])
  {
    outcomes := [];
    var i := 0;
    while i < |vs|
      invariant 0 <= i <= |vs| && |outcomes| == i
      invariant ProcessedAll(stg.State(), vs[i..], fs[i..], nows[i..]) == ProcessedAll(old(stg.State()), vs, fs, nows)
      invariant forall j :: 0 <= j < i ==> outcomes[j] == OutcomeOf(fs[j])
    {
      assert vs[i..][1..] == vs[i + 1..] && fs[i..][1..] == fs[i + 1..] && nows[i..][1..] == nows[i + 1..];
      var v := vs[i];
      var err := stg.Insert(v, fs[i].insert);
      if err.Some? {
        outcomes := outcomes + [NotStored(err.value)];
        i := i + 1;
        continue;
      }
      err := stg.UpdateResults(v, fs[i].lookup, fs[i].write, nows[i]);
      if err.Some? {
        outcomes := outcomes + [NotAddedToResults(err.value)];
        i := i + 1;
        continue;
      }
      outcomes := outcomes + [AddedToResults];
      i := i + 1;
    }
  }

  /**
   * The two goroutines of the worker together: the consumer forwards the decodable
   * deliveries, and the loop processes exactly those votes, in delivery order.
   */
  method ConsumeAndStore(msgs: seq<WorkerQueue.Delivery>, decode: WorkerQueue.Decoder, stg: PostgresVoteStorage, fs: seq<Faults>, nows: seq<int>)
    returns (outcomes: seq<Outcome>)
    requires |fs| == |WorkerQueue.Forwarded(msgs, decode)| && |nows| == |fs|
    modifies stg
    ensures stg.State() == ProcessedAll(old(stg.State()), WorkerQueue.Forwarded(msgs, decode), fs, nows)
    ensures |outcomes| == |fs| && forall i :: 0 <= i < |fs| ==> outcomes[i] == OutcomeOf(fs[i])
  {
    var vs := WorkerQueue.Consume(msgs, decode);
    outcomes := Run(stg, vs, fs, nows);
  }

  // ----- counting -----

  /** Votes for `k` whose Insert succeeded. */
  function StoredCount(vs: seq<Vote>, fs: seq<Faults>, k: Key): nat
    requires |fs| == |vs|
  {
    if vs == [] then 0
    else (if KeyOf(vs[0]) == k && fs[0].insert.None? then 1 else 0) + StoredCount(vs[1..], fs[1..], k)
  }

  /** Votes for `k` whose Insert and UpdateResults both succeeded. */
  function TalliedCount(vs: seq<Vote>, fs: seq<Faults>, k: Key): nat
    requires |fs| == |vs|
  {
    if vs == [] then 0
    else (if KeyOf(vs[0]) == k && Clean(fs[0]) then 1 else 0) + TalliedCount(vs[1..], fs[1..], k)
  }

  /** Votes for `k`. */
  function CountFor(vs: seq<Vote>, k: Key): nat {
    if vs == [] then 0 else (if KeyOf(vs[0]) == k then 1 else 0) + CountFor(vs[1..], k)
  }

  /** Every stored vote adds one log row for its key. */
  lemma {:induction false} LogGrowth(t: Tables, vs: seq<Vote>, fs: seq<Faults>, nows: seq<int>, k: Key)
    requires |fs| == |vs| && |nows| == |vs|
    ensures Logged(ProcessedAll(t, vs, fs, nows).votes, k) == Logged(t.votes, k) + StoredCount(vs, fs, k)
    decreases |vs|
  {
    if vs != [] {
      var t1 := Processed(t, vs[0], fs[0], nows[0]);
      InsertedLogs(t, vs[0], fs[0].insert, k);
      LogGrowth(t1, vs[1..], fs[1..], nows[1..], k);
    }
  }

  /** Every vote whose two storage calls succeeded adds one to its counter; nothing else does. */
  lemma {:induction false} TallyGrowth(t: Tables, vs: seq<Vote>, fs: seq<Faults>, nows: seq<int>, k: Key)
    requires |fs| == |vs| && |nows| == |vs|
    ensures Tally(ProcessedAll(t, vs, fs, nows).results, k) == Tally(t.results, k) + TalliedCount(vs, fs, k)
    decreases |vs|
  {
    if vs != [] {
      var t1 := Processed(t, vs[0], fs[0], nows[0]);
      UpdatedCounts(Inserted(t, vs[0], fs[0].insert), vs[0], fs[0].lookup, fs[0].write, nows[0], k);
      TallyGrowth(t1, vs[1..], fs[1..], nows[1..], k);
    }
  }

  lemma {:induction false} TalliedAtMostStored(vs: seq<Vote>, fs: seq<Faults>, k: Key)
    requires |fs| == |vs|
    ensures TalliedCount(vs, fs, k) <= StoredCount(vs, fs, k) <= CountFor(vs, k)
  {
    if vs != [] {
      TalliedAtMostStored(vs[1..], fs[1..], k);
    }
  }

  lemma {:induction false} CleanCounts(vs: seq<Vote>, fs: seq<Faults>, k: Key)
    requires |fs| == |vs| && forall i :: 0 <= i < |fs| ==> Clean(fs[i])
    ensures TalliedCount(vs, fs, k) == StoredCount(vs, fs, k) == CountFor(vs, k)
  {
    if vs != [] {
      CleanCounts(vs[1..], fs[1..], k);
    }
  }

  /**
   * Whatever fails, a counter never gets ahead of the votes log: the gap between them
   * grows by one for each vote that was stored but not counted, and never shrinks.
   */
  lemma NeverOvercounts(t: Tables, vs: seq<Vote>, fs: seq<Faults>, nows: seq<int>, k: Key)
    requires |fs| == |vs| && |nows| == |vs|
    ensures var after := ProcessedAll(t, vs, fs, nows);
      Logged(after.votes, k) - Tally(after.results, k)
        == Logged(t.votes, k) - Tally(t.results, k) + (StoredCount(vs, fs, k) - TalliedCount(vs, fs, k))
    ensures Tally(t.results, k) <= Logged(t.votes, k) ==>
      Tally(ProcessedAll(t, vs, fs, nows).results, k) <= Logged(ProcessedAll(t, vs, fs, nows).votes, k)
  {
    LogGrowth(t, vs, fs, nows, k);
    TallyGrowth(t, vs, fs, nows, k);
    TalliedAtMostStored(vs, fs, k);
  }

  /**
   * When no storage call fails, every vote adds its row to the log, in order, and one to its
   * counter: a counter that matched the log still matches it.
   */
  lemma {:induction false} CleanRunKeepsTalliesExact(t: Tables, vs: seq<Vote>, fs: seq<Faults>, nows: seq<int>, k: Key)
    requires |fs| == |vs| && |nows| == |vs|
    requires forall i :: 0 <= i < |fs| ==> Clean(fs[i])
    ensures Tally(ProcessedAll(t, vs, fs, nows).results, k) == Tally(t.results, k) + CountFor(vs, k)
    ensures Logged(ProcessedAll(t, vs, fs, nows).votes, k) == Logged(t.votes, k) + CountFor(vs, k)
    ensures Tally(t.results, k) == Logged(t.votes, k) ==>
      Tally(ProcessedAll(t, vs, fs, nows).results, k) == Logged(ProcessedAll(t, vs, fs, nows).votes, k)
  {
    LogGrowth(t, vs, fs, nows, k);
    TallyGrowth(t, vs, fs, nows, k);
    CleanCounts(vs, fs, k);
  }

  /** When no storage call fails, the votes log grows by exactly the votes' rows, in processing order. */
  lemma {:induction false} CleanRunAppendsLog(t: Tables, vs: seq<Vote>, fs: seq<Faults>, nows: seq<int>)
    requires |fs| == |vs| && |nows| == |vs|
    requires forall i :: 0 <= i < |fs| ==> Clean(fs[i])
    ensures |ProcessedAll(t, vs, fs, nows).votes| == |t.votes| + |vs|
    ensures forall i :: 0 <= i < |vs| ==> ProcessedAll(t, vs, fs, nows).votes[|t.votes| + i] == RowOf(vs[i])
    ensures ProcessedAll(t, vs, fs, nows).votes[..|t.votes|] == t.votes
    decreases |vs|
  {
    if vs != [] {
      var t1 := Processed(t, vs[0], fs[0], nows[0]);
      assert t1.votes == t.votes + [RowOf(vs[0])];
      CleanRunAppendsLog(t1, vs[1..], fs[1..], nows[1..]);
      var after := ProcessedAll(t, vs, fs, nows);
      assert after == ProcessedAll(t1, vs[1..], fs[1..], nows[1..]);
      forall i | 0 <= i < |vs|
        ensures after.votes[|t.votes| + i] == RowOf(vs[i])
      {
        if i > 0 {
          assert after.votes[|t1.votes| + (i - 1)] == RowOf(vs[1..][i - 1]);
        } else {
          assert after.votes[..|t1.votes|] == t1.votes;
        }
      }
      assert after.votes[..|t1.votes|][..|t.votes|] == after.votes[..|t.votes|];
    }
  }
}
