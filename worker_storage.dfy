/**
 * The vote worker's Postgres storage, as two tables: the votes log (one row per stored
 * vote) and the results table (a vote counter and a last-update time per survey question).
 * Database errors are inputs: `Some(message)` means the statement failed.
 */
module WorkerStorage {
  import opened Wrappers
  import opened VoteModel

  datatype Key = Key(survey: string, question: int)

  datatype VoteRow = VoteRow(id: string, survey: string, question: int, created: int)

  datatype ResultRow = ResultRow(votes: int, lastUpdate: int)

  datatype Tables = Tables(votes: seq<VoteRow>, results: map<Key, ResultRow>)

  function KeyOf(v: Vote): Key {
    Key(v.survey, v.question)
  }

  /** The row `INSERT INTO votes(id, survey, question, created)` writes for `v`. */
  function RowOf(v: Vote): VoteRow {
    VoteRow(v.id, v.survey, v.question, v.timestamp)
  }

  /** The counter for `k`; a missing row counts as 0. */
  function Tally(results: map<Key, ResultRow>, k: Key): int {
    if k in results then results[k].votes else 0
  }

  /** How many rows of the votes log belong to `k`. */
  function Logged(votes: seq<VoteRow>, k: Key): nat {
    if votes == [] then 0
    else Logged(votes[..|votes| - 1], k) + (if Key(votes[|votes| - 1].survey, votes[|votes| - 1].question) == k then 1 else 0)
  }

  /** The tables after `Insert(v)`, where `fault` is the database's answer. */
  function Inserted(t: Tables, v: Vote, fault: Option<string>): Tables {
    if fault.None? then t.(votes := t.votes + [RowOf(v)]) else t
  }

  /**
   * The tables after `UpdateResults(v)`: `lookupFault` is an error of the SELECT other than
   * "no rows", `writeFault` the answer to the UPDATE or INSERT that follows it.
   */
  function Updated(t: Tables, v: Vote, lookupFault: Option<string>, writeFault: Option<string>, now: int): Tables {
    var k := KeyOf(v);
    if lookupFault.Some? || writeFault.Some? then t
    else if k in t.results then t.(results := t.results[k := ResultRow(t.results[k].votes + 1, now)])
    else t.(results := t.results[k := ResultRow(1, now)])
  }

  class PostgresVoteStorage {
    var votes: seq<VoteRow>
    var results: map<Key, ResultRow>

    function State(): Tables
      reads this
    {
      Tables(votes, results)
    }

    constructor (initial: Tables)
      ensures State() == initial
    {
      votes, results := initial.votes, initial.results;
    }

    /** `Insert`: one row in the votes log, nothing in the results table. */
    method Insert(v: Vote, fault: Option<string>) returns (err: Option<string>)
      modifies this
      ensures err == fault
      ensures State() == Inserted(old(State()), v, fault)
      ensures results == old(results)
    {
      if fault.None? {
        votes := votes + [RowOf(v)];
      }
      err := fault;
    }

    /** `UpdateResults`: read the counter, then increment it or create it. */
    method UpdateResults(v: Vote, lookupFault: Option<string>, writeFault: Option<string>, now: int) returns (err: Option<string>)
      modifies this
      ensures err == if lookupFault.Some? then lookupFault else writeFault
      ensures State() == Updated(old(State()), v, lookupFault, writeFault, now)
      ensures votes == old(votes)
    {
      if lookupFault.Some? {
        return lookupFault;
      }
      if KeyOf(v) in results {
        err := IncrementResults(v, writeFault, now);
      } else {
        err := InitializeResults(v, writeFault, now);
      }
    }

    /** `incrementResults`: votes + 1 and last_update = now on the row of the vote's key. */
    method IncrementResults(v: Vote, fault: Option<string>, now: int) returns (err: Option<string>)
      requires KeyOf(v) in results
      modifies this
      ensures err == fault
      ensures votes == old(votes)
      ensures fault.None? ==> results == old(results)[KeyOf(v) := ResultRow(old(results)[KeyOf(v)].votes + 1, now)]
      ensures fault.Some? ==> results == old(results)
    {
      if fault.None? {
        var k := KeyOf(v);
        results := results[k := ResultRow(results[k].votes + 1, now)];
      }
      err := fault;
    }

    /** `initializeResults`: a new row with votes = 1 and last_update = now. */
    method InitializeResults(v: Vote, fault: Option<string>, now: int) returns (err: Option<string>)
      requires KeyOf(v) !in results
      modifies this
      ensures err == fault
      ensures votes == old(votes)
      ensures fault.None? ==> results == old(results)[KeyOf(v) := ResultRow(1, now)]
      ensures fault.Some? ==> results == old(results)
    {
      if fault.None? {
        results := results[KeyOf(v) := ResultRow(1, now)];
      }
      err := fault;
    }
  }

  /** A stored vote adds one row for its own key and none for any other. */
  lemma {:induction false} InsertedLogs(t: Tables, v: Vote, fault: Option<string>, k: Key)
    ensures Inserted(t, v, fault).results == t.results
    ensures Logged(Inserted(t, v, fault).votes, k) == Logged(t.votes, k) + (if fault.None? && KeyOf(v) == k then 1 else 0)
  {
    if fault.None? {
      var vs := t.votes + [RowOf(v)];
      assert vs[..|vs| - 1] == t.votes;
    }
  }

  /**
   * A successful update adds exactly one to the vote's counter, creating it at 1 if it was
   * missing, and stamps it with the processing time, not the vote's own timestamp. A failed
   * one changes nothing. No other counter and no log row changes either way.
   */
  lemma UpdatedCounts(t: Tables, v: Vote, lookupFault: Option<string>, writeFault: Option<string>, now: int, k: Key)
    ensures var u := Updated(t, v, lookupFault, writeFault, now);
      && u.votes == t.votes
      && Tally(u.results, k) == Tally(t.results, k) + (if lookupFault.None? && writeFault.None? && KeyOf(v) == k then 1 else 0)
      && (lookupFault.None? && writeFault.None? ==> KeyOf(v) in u.results && u.results[KeyOf(v)].lastUpdate == now)
      && (k != KeyOf(v) ==> (k in u.results <==> k in t.results) && (k in t.results ==> u.results[k] == t.results[k]))
  {
  }

  /** `n` successful updates for one key, starting without a row, leave the counter at `n`. */
  lemma {:induction false} RepeatedUpdates(t: Tables, v: Vote, n: nat, now: int)
    requires KeyOf(v) !in t.results
    ensures Tally(UpdatedTimes(t, v, n, now).results, KeyOf(v)) == n
  {
    if n > 0 {
      RepeatedUpdates(t, v, n - 1, now);
      UpdatedCounts(UpdatedTimes(t, v, n - 1, now), v, None, None, now, KeyOf(v));
    }
  }

  /** The tables after `n` successful updates for the same vote. */
  function UpdatedTimes(t: Tables, v: Vote, n: nat, now: int): Tables {
    if n == 0 then t else Updated(UpdatedTimes(t, v, n - 1, now), v, None, None, now)
  }
}
