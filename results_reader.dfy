/**
 * The Postgres results reader of the vote service: it folds the rows of the results table
 * for one survey into per-question totals and the latest update time.
 */
module ResultsReader {
  import opened Wrappers
  import opened VoteModel

  /** One row `(question, votes, last_update)` of the query. */
  datatype Row = Row(question: int, votes: int, lastUpdate: int)

  /** What the driver yields for one row: scanned values, or a scan error. */
  datatype RowRead = Scanned(row: Row) | ScanFailed(message: string)

  /** The database's answer to the query: an error, or the rows and the iteration error left at the end. */
  datatype QueryAnswer = QueryFailed(message: string) | Answered(fetched: seq<RowRead>, iterErr: Option<string>)

  /** The rows read before the first scan error. */
  function ScannedPrefix(fetched: seq<RowRead>): (rows: seq<Row>)
    ensures |rows| <= |fetched|
    ensures forall i :: 0 <= i < |rows| ==> fetched[i] == Scanned(rows[i])
  {
    if fetched == [] || fetched[0].ScanFailed? then []
    else [fetched[0].row] + ScannedPrefix(fetched[1..])
  }

  function FirstScanError(fetched: seq<RowRead>): (e: Option<string>)
    ensures e.None? <==> |ScannedPrefix(fetched)| == |fetched|
    ensures e.Some? ==> fetched[|ScannedPrefix(fetched)|] == ScanFailed(e.value)
  {
    if fetched == [] then None
    else if fetched[0].ScanFailed? then Some(fetched[0].message)
    else FirstScanError(fetched[1..])
  }

  /** The entry for one row: question and total copied, every breakdown empty. */
  function Summary(r: Row): QuestionResults {
    QuestionResults(r.question, r.votes, [], [], map[], map[], map[])
  }

  function Summaries(rows: seq<Row>): (qs: seq<QuestionResults>)
    ensures |qs| == |rows|
    ensures forall i :: 0 <= i < |rows| ==> qs[i] == Summary(rows[i])
  {
    if rows == [] then [] else Summaries(rows[..|rows| - 1]) + [Summary(rows[|rows| - 1])]
  }

  /** The running maximum of the last-update times, starting from 0. */
  function Latest(rows: seq<Row>): int
  {
    if rows == [] then 0
    else
      var m := Latest(rows[..|rows| - 1]);
      if m < rows[|rows| - 1].lastUpdate then rows[|rows| - 1].lastUpdate else m
  }

  /** `Latest` is the maximum of 0 and every row's last update. */
  lemma {:induction false} LatestIsMaximum(rows: seq<Row>)
    ensures Latest(rows) >= 0
    ensures forall i :: 0 <= i < |rows| ==> rows[i].lastUpdate <= Latest(rows)
    ensures Latest(rows) == 0 || exists i :: 0 <= i < |rows| && rows[i].lastUpdate == Latest(rows)
  {
    if rows != [] {
      var init := rows[..|rows| - 1];
      LatestIsMaximum(init);
      assert forall i :: 0 <= i < |init| ==> init[i] == rows[i];
    }
  }

  /** `Latest` is 0 exactly when no row has a positive last update, in particular when there are no rows. */
  lemma LatestZeroIff(rows: seq<Row>)
    ensures Latest(rows) == 0 <==> forall i :: 0 <= i < |rows| ==> rows[i].lastUpdate <= 0
  {
    LatestIsMaximum(rows);
  }

  /**
   * `processRows`: appends one entry per row and keeps the running maximum; the first scan
   * error stops it and is returned with what was built so far; otherwise the iteration error.
   */
  method ProcessRows(fetched: seq<RowRead>, iterErr: Option<string>, surveyId: string) returns (res: Results, err: Option<string>)
    ensures res.survey == surveyId
    ensures res.results == Summaries(ScannedPrefix(fetched))
    ensures res.updatedAt == Latest(ScannedPrefix(fetched))
    ensures err == if FirstScanError(fetched).Some? then FirstScanError(fetched) else iterErr
  {
    res := Results(surveyId, [], 0);
    ghost var rows := ScannedPrefix(fetched);
    ghost var scanErr := FirstScanError(fetched);
    var i := 0;
    while i < |fetched|
      invariant 0 <= i <= |rows|
      invariant res == Results(surveyId, Summaries(rows[..i]), Latest(rows[..i]))
      invariant i == |rows| ==> scanErr.Some? || i == |fetched|
    {
      if fetched[i].ScanFailed? {
        assert i == |rows| && FirstScanError(fetched) == Some(fetched[i].message);
        assert rows[..i] == rows;
        return res, Some(fetched[i].message);
      }
      var row := fetched[i].row;
      assert i < |rows| && row == rows[i];
      assert rows[..i + 1][..i] == rows[..i];
      res := res.(results := res.results + [Summary(row)]);
      if res.updatedAt < row.lastUpdate {
        res := res.(updatedAt := row.lastUpdate);
      }
      i := i + 1;
    }
    assert rows[..i] == rows;
    err := iterErr;
  }

  /** What `GetResults` answers, as a function of the database's answer. */
  function Read(surveyId: string, answer: QueryAnswer): (Results, Option<VoteError>) {
    match answer
    case QueryFailed(m) => (EmptyResults, Some(Failed(m)))
    case Answered(fetched, iterErr) =>
      var rows := ScannedPrefix(fetched);
      if FirstScanError(fetched).Some? then (EmptyResults, Some(Failed(FirstScanError(fetched).value)))
      else if iterErr.Some? then (EmptyResults, Some(Failed(iterErr.value)))
      else
        var res := Results(surveyId, Summaries(rows), Latest(rows));
        if res.updatedAt == 0 then (res, Some(ResultsNotFound)) else (res, None)
  }

  /** `GetResults` over the results table. */
  method GetResults(surveyId: string, answer: QueryAnswer) returns (res: Results, err: Option<VoteError>)
    ensures (res, err) == Read(surveyId, answer)
  {
    if answer.QueryFailed? {
      return EmptyResults, Some(Failed(answer.message));
    }
    var processed, perr := ProcessRows(answer.fetched, answer.iterErr, surveyId);
    if perr.Some? {
      return EmptyResults, Some(Failed(perr.value));
    }
    if processed.updatedAt == 0 {
      return processed, Some(ResultsNotFound);
    }
    // The final `rows.Err()` is nil here: processRows has already returned any iteration error.
    res, err := processed, None;
  }

  /** A successful read echoes the survey id and has one entry per row, in row order, with empty breakdowns. */
  lemma ReadSuccess(surveyId: string, fetched: seq<RowRead>)
    requires forall i :: 0 <= i < |fetched| ==> fetched[i].Scanned?
    ensures var (res, err) := Read(surveyId, Answered(fetched, None));
      && res.survey == surveyId
      && |res.results| == |fetched|
      && (forall i :: 0 <= i < |fetched| ==>
            && res.results[i].question == fetched[i].row.question
            && res.results[i].totalVotes == fetched[i].row.votes
            && res.results[i].optionResults == [] && res.results[i].textAnswers == []
            && res.results[i].ratingCounts == map[] && res.results[i].scaleCounts == map[]
            && res.results[i].dateDistribution == map[])
      && (forall i :: 0 <= i < |fetched| ==> fetched[i].row.lastUpdate <= res.updatedAt)
      && (err == Some(ResultsNotFound) <==> forall i :: 0 <= i < |fetched| ==> fetched[i].row.lastUpdate <= 0)
      && (err != Some(ResultsNotFound) ==> err == None)
  {
    var rows := ScannedPrefix(fetched);
    assert FirstScanError(fetched).None?;
    LatestIsMaximum(rows);
    LatestZeroIff(rows);
  }

  /** Any query, scan or iteration error yields the empty results together with that error. */
  lemma ReadFailure(surveyId: string, answer: QueryAnswer)
    requires answer.QueryFailed? || FirstScanError(answer.fetched).Some? || answer.iterErr.Some?
    ensures Read(surveyId, answer).0 == EmptyResults
    ensures Read(surveyId, answer).1.Some? && Read(surveyId, answer).1.value.Failed?
  {
  }

  /** No rows at all fetched as "results not found", whatever the survey id. */
  lemma NoRowsNotFound(surveyId: string)
    ensures Read(surveyId, Answered([], None)) == (Results(surveyId, [], 0), Some(ResultsNotFound))
  {
  }
}
