/**
 * The SQL query commands: the Tags column of the listing, the backup loop
 * and the candidate selection of the delete command.
 */
module SqlQueries {
  import opened Wrappers
  import opened Text
  import opened Seqs
  import opened Databricks
  import opened Ansi
  import opened Backup

  // ---------------------------------------------------------------------
  // The Tags column of `ListQueriesCommand`

  /**
   * The Tags cell as the source computes it: `None` stands for the
   * `ArgumentNullException` that joining a `null` array throws.  The
   * length test is made through `?.`, so a `null` array is not caught by it.
   */
  function TagsColumnAsWritten(escape: string -> string, tags: Option<seq<string>>): (r: Option<string>)
    ensures r.None? <==> tags.None?
    ensures tags.Some? && tags.value == [] ==> r == Some("")
  {
    if tags.Some? && |tags.value| == 0 then Some("")
    else if tags.None? then None
    else Some(escape(Join(",", tags.value)))
  }

  /** The Tags cell: empty without tags, otherwise the escaped tags joined by commas. */
  function TagsColumn(escape: string -> string, tags: Option<seq<string>>): (r: string)
    ensures tags.None? || tags.value == [] ==> r == ""
  {
    if tags.None? || |tags.value| == 0 then ""
    else escape(Join(",", tags.value))
  }

  /** Where the source does not throw, the corrected cell is the same. */
  lemma TagsColumnAgrees(escape: string -> string, tags: Option<seq<string>>)
    ensures TagsColumnAsWritten(escape, tags).Some? ==> TagsColumnAsWritten(escape, tags).value == TagsColumn(escape, tags)
    ensures tags.Some? ==> TagsColumnAsWritten(escape, tags) == Some(TagsColumn(escape, tags))
  {
  }

  /**
   * The cell lists the tags in their stored order: the text before escaping
   * splits at its commas back into the stored tags, when no tag holds a comma.
   */
  lemma TagsColumnStoredOrder(escape: string -> string, tags: seq<string>)
    requires tags != []
    requires forall i :: 0 <= i < |tags| ==> ',' !in tags[i]
    ensures exists text :: TagsColumn(escape, Some(tags)) == escape(text) && Split(text, ',') == tags
  {
    SplitJoin(tags, ',');
    assert TagsColumn(escape, Some(tags)) == escape(Join([','], tags));
  }

  // ---------------------------------------------------------------------
  // `BackupQueriesCommand`

  /**
   * The progress callback of the backup: one file per query, in listing
   * order, stepping a new progress task from 0 to the number of queries.
   */
  method WriteQueryBackups(queries: seq<SqlQuery>, invalid: InvalidChars) returns (writes: seq<BackupWrite>, task: ProgressTask)
    ensures |writes| == |queries|
    ensures forall i :: 0 <= i < |queries| ==>
      writes[i] == BackupWrite(BackupFileName(QueryPrefix, queries[i].name, invalid), queries[i].id)
    ensures fresh(task)
    ensures task.maxValue == |queries| && task.value == |queries|
  {
    task := new ProgressTask(100);
    task.maxValue := |queries|;
    task.value := 0;
    writes := [];
    for i := 0 to |queries|
      invariant task.maxValue == |queries| && task.value == i
      invariant |writes| == i
      invariant forall k :: 0 <= k < i ==>
        writes[k] == BackupWrite(BackupFileName(QueryPrefix, queries[k].name, invalid), queries[k].id)
    {
      var q := queries[i];
      var fileName := BackupFileName(QueryPrefix, q.name, invalid);
      writes := writes + [BackupWrite(fileName, q.id)];
      task.value := task.value + 1;
    }
  }

  /** Lists the queries as `ListQueries` does and backs each of them up. */
  method BackupQueriesCommand(
    listing: Option<seq<SqlQuery>>, rawTags: Option<string>, name: Option<string>, invalid: InvalidChars)
    returns (queries: seq<SqlQuery>, writes: seq<BackupWrite>, task: ProgressTask)
    ensures listing.None? ==> queries == []
    ensures listing.Some? ==> queries == Filter(listing.value, (q: SqlQuery) => Selected(q.tags, q.name, rawTags, name))
    ensures |writes| == |queries|
    ensures forall i :: 0 <= i < |queries| ==>
      writes[i] == BackupWrite(BackupFileName(QueryPrefix, queries[i].name, invalid), queries[i].id)
    ensures fresh(task)
    ensures task.maxValue == |queries| && task.value == |queries|
  {
    queries := ListQueries(listing, rawTags, name);
    writes, task := WriteQueryBackups(queries, invalid);
  }

  // ---------------------------------------------------------------------
  // `DeleteQueryCommand`

  /** The delete command's test: a non-empty search text inside the id or the name, ignoring case. */
  predicate DeleteMatches(q: SqlQuery, idOrName: Option<string>)
  {
    !IsNullOrEmpty(idOrName) && (ContainsIgnoreCase(q.id, idOrName.value) || ContainsIgnoreCase(q.name, idOrName.value))
  }

  /**
   * The queries the command would delete: none for an empty search text,
   * otherwise those whose id or name holds it, ignoring case.
   */
  function DeleteCandidates(queries: seq<SqlQuery>, idOrName: Option<string>): (r: seq<SqlQuery>)
    ensures IsNullOrEmpty(idOrName) ==> r == []
    ensures forall q :: q in r <==> q in queries && DeleteMatches(q, idOrName)
  {
    var matches := (q: SqlQuery) => DeleteMatches(q, idOrName);
    if IsNullOrEmpty(idOrName) then
      FilterNone(queries, matches);
      Filter(queries, matches)
    else
      Filter(queries, matches)
  }

  /** The candidates keep the listing order. */
  lemma DeleteCandidatesInOrder(queries: seq<SqlQuery>, idOrName: Option<string>)
    ensures IsSubsequence(DeleteCandidates(queries, idOrName), queries)
  {
    FilterIsSubsequence(queries, (q: SqlQuery) => DeleteMatches(q, idOrName));
  }

  /** How the command ends. */
  datatype DeleteOutcome =
    | ListingUnavailable                 // the client delivered no listing: nothing is written
    | NothingToDelete                    // no query matches: "nothing to delete"
    | Candidates(queries: seq<SqlQuery>) // the matches are listed

  /** The heading over the candidate lines. */
  function ReportHeading(count: nat): string
  {
    "Queries to delete (" + DecimalString(count) + "):"
  }

  /** One candidate line: the id as it is, then the escaped name. */
  function ReportLine(escape: string -> string, q: SqlQuery): string
  {
    q.id + ": " + escape(q.name)
  }

  /** The count in the heading reads back as the number of candidates. */
  lemma DeleteReportCount(count: nat)
    ensures var h := ReportHeading(count);
      && |h| >= 22
      && h[..19] == "Queries to delete ("
      && h[|h| - 2..] == "):"
      && (forall i :: 19 <= i < |h| - 2 ==> IsDigit(h[i]))
      && ParseNat(h[19..|h| - 2]) == count
  {
    var h := ReportHeading(count);
    assert h[19..|h| - 2] == NatDigits(count);
    ParseNatDigits(count);
  }

  /** The report: the heading, then one line per candidate in order. */
  method DeleteReport(escape: string -> string, candidates: seq<SqlQuery>) returns (lines: seq<string>)
    ensures |lines| == |candidates| + 1
    ensures lines[0] == ReportHeading(|candidates|)
    ensures forall i :: 0 <= i < |candidates| ==> lines[i + 1] == ReportLine(escape, candidates[i])
  {
    lines := [ReportHeading(|candidates|)];
    for i := 0 to |candidates|
      invariant |lines| == i + 1
      invariant lines[0] == ReportHeading(|candidates|)
      invariant forall k :: 0 <= k < i ==> lines[k + 1] == ReportLine(escape, candidates[k])
    {
      lines := lines + [ReportLine(escape, candidates[i])];
    }
  }

  /**
   * `DeleteQueryCommand`: lists what matches and stops there.  It issues no
   * delete request on any path, so `deleted` stays empty.
   */
  method DeleteQueryCommand(escape: string -> string, listing: Option<seq<SqlQuery>>, idOrName: Option<string>)
    returns (outcome: DeleteOutcome, lines: seq<string>, deleted: seq<string>)
    ensures listing.None? <==> outcome == ListingUnavailable
    ensures outcome == ListingUnavailable ==> lines == []
    ensures outcome == NothingToDelete <==>
      listing.Some? && forall q :: q in listing.value ==> !DeleteMatches(q, idOrName)
    ensures listing.Some? && IsNullOrEmpty(idOrName) ==> outcome == NothingToDelete
    ensures outcome == NothingToDelete ==> lines == ["nothing to delete"]
    ensures outcome.Candidates? ==>
      && listing.Some?
      && outcome.queries == DeleteCandidates(listing.value, idOrName)
      && outcome.queries != []
      && |lines| == |outcome.queries| + 1
      && lines[0] == ReportHeading(|outcome.queries|)
      && forall i :: 0 <= i < |outcome.queries| ==> lines[i + 1] == ReportLine(escape, outcome.queries[i])
    ensures deleted == []
  {
    deleted := [];
    if listing.None? {
      return ListingUnavailable, [], deleted;
    }
    var toDelete := DeleteCandidates(listing.value, idOrName);
    if |toDelete| == 0 {
      return NothingToDelete, ["nothing to delete"], deleted;
    }
    assert toDelete[0] in toDelete;
    outcome := Candidates(toDelete);
    lines := DeleteReport(escape, toDelete);
  }
}
