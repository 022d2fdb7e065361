/**
 * The SQL dashboard commands: the Name cell of `ListDashboardsCommand`
 * and the backup loop of `BackupDashboardCommand`.
 */
module Dashboards {
  import opened Wrappers
  import opened Text
  import opened Seqs
  import opened Databricks
  import opened Ansi
  import opened Backup

  // ---------------------------------------------------------------------
  // The Name cell of `ListDashboardsCommand`

  /** `Tags.OrderBy(t => t)`: the tags in ascending order. */
  function SortedTags(tags: seq<string>): (r: seq<string>)
    ensures multiset(r) == multiset(tags)
    ensures SortedBy(r, StringLe)
  {
    StringLeTotalPreorder();
    SortBySorted(tags, StringLe);
    SortBy(tags, StringLe)
  }

  /** The sorted tags do not depend on the order the tags are stored in. */
  lemma SortedTagsIgnoreStoredOrder(tags: seq<string>, other: seq<string>)
    requires multiset(tags) == multiset(other)
    ensures SortedTags(tags) == SortedTags(other)
  {
    StringLeAntisymmetricAll();
    StringLeTotalPreorder();
    SortedUnique(SortedTags(tags), SortedTags(other), StringLe);
  }

  /** Every tag escaped and wrapped in grey markup. */
  function Greyed(escape: string -> string, tags: seq<string>): seq<string>
  {
    seq(|tags|, i requires 0 <= i < |tags| => "[grey]" + escape(tags[i]) + "[/]")
  }

  /** The second line of the cell: the sorted, greyed tags joined by ", ". */
  function TagLine(escape: string -> string, tags: seq<string>): string
  {
    Join(", ", Greyed(escape, SortedTags(tags)))
  }

  /** The tag line shows the tags in ascending order whatever their stored order. */
  lemma TagLineIgnoresStoredOrder(escape: string -> string, tags: seq<string>, other: seq<string>)
    requires multiset(tags) == multiset(other)
    ensures TagLine(escape, tags) == TagLine(escape, other)
  {
    SortedTagsIgnoreStoredOrder(tags, other);
  }

  /** The tag line's pieces are the greyed tags, smallest first. */
  lemma TagLinePieces(escape: string -> string, tags: seq<string>)
    ensures TagLine(escape, tags) == Join(", ", Greyed(escape, SortedTags(tags)))
    ensures |Greyed(escape, SortedTags(tags))| == |tags|
    ensures forall i, j :: 0 <= i < j < |tags| ==> StringLe(SortedTags(tags)[i], SortedTags(tags)[j])
    ensures forall i :: 0 <= i < |tags| ==>
      Greyed(escape, SortedTags(tags))[i] == "[grey]" + escape(SortedTags(tags)[i]) + "[/]"
    ensures forall t :: t in tags <==> t in SortedTags(tags)
  {
    var sorted := SortedTags(tags);
    assert |sorted| == |multiset(sorted)| == |multiset(tags)| == |tags|;
    forall t ensures t in tags <==> t in sorted {
      assert t in tags <==> t in multiset(tags);
      assert t in sorted <==> t in multiset(sorted);
    }
  }

  /** The favourite star, when the dashboard is a favourite. */
  function FavouriteMark(p: Presentation, isFavourite: bool): string
  {
    if isFavourite then p.glowingStar else ""
  }

  /** The new line, three spaces and the tag line, when the dashboard has a tag array. */
  function TagsPart(p: Presentation, tags: Option<seq<string>>): string
  {
    if tags.Some? then p.newLine + "   " + TagLine(p.escape, tags.value) else ""
  }

  /** The pencil, when the dashboard is a draft. */
  function DraftMark(p: Presentation, isDraft: bool): string
  {
    if isDraft then p.pencil else ""
  }

  /** The Name cell, composed from its four parts in order. */
  function DisplayNameText(p: Presentation, dash: SqlDashboard): string
  {
    FavouriteMark(p, dash.isFavourite) + p.escape(dash.name) + TagsPart(p, dash.tags) + DraftMark(p, dash.isDraft)
  }

  /** Builds the Name cell by appending its parts one after the other, as the source does. */
  method DisplayName(p: Presentation, dash: SqlDashboard) returns (name: string)
    ensures name == DisplayNameText(p, dash)
  {
    name := "";
    if dash.isFavourite {
      name := name + p.glowingStar;
    }
    assert name == FavouriteMark(p, dash.isFavourite);
    name := name + p.escape(dash.name);
    if dash.tags.Some? {
      var tj := Join(", ", Greyed(p.escape, SortedTags(dash.tags.value)));
      name := name + (p.newLine + "   " + tj);
    }
    assert name == FavouriteMark(p, dash.isFavourite) + p.escape(dash.name) + TagsPart(p, dash.tags);
    if dash.isDraft {
      name := name + p.pencil;
    }
  }

  /** A favourite begins with the star and a draft ends with the pencil. */
  lemma DisplayNameMarkers(p: Presentation, dash: SqlDashboard)
    ensures dash.isFavourite ==> StartsWith(DisplayNameText(p, dash), p.glowingStar)
    ensures !dash.isFavourite ==> StartsWith(DisplayNameText(p, dash), p.escape(dash.name))
    ensures var text := DisplayNameText(p, dash);
      dash.isDraft ==> |p.pencil| <= |text| && text[|text| - |p.pencil|..] == p.pencil
  {
    DisplayNameLayout(p, dash);
    var text := DisplayNameText(p, dash);
    if !dash.isFavourite {
      assert text[..|p.escape(dash.name)|] == p.escape(dash.name);
    }
  }

  /**
   * Where each part sits in the cell: the star (if a favourite), then the
   * escaped name, then the tag line (if the tag array is present), then the
   * pencil (if a draft).
   */
  lemma DisplayNameLayout(p: Presentation, dash: SqlDashboard)
    ensures var text := DisplayNameText(p, dash);
      var star := FavouriteMark(p, dash.isFavourite);
      var escaped := p.escape(dash.name);
      var tagsPart := TagsPart(p, dash.tags);
      && |text| == |star| + |escaped| + |tagsPart| + |DraftMark(p, dash.isDraft)|
      && text[..|star|] == star
      && text[|star|..|star| + |escaped|] == escaped
      && text[|star| + |escaped|..|star| + |escaped| + |tagsPart|] == tagsPart
      && text[|star| + |escaped| + |tagsPart|..] == DraftMark(p, dash.isDraft)
  {
    ConcatLayout(FavouriteMark(p, dash.isFavourite), p.escape(dash.name), TagsPart(p, dash.tags), DraftMark(p, dash.isDraft));
  }

  lemma ConcatLayout(a: string, b: string, c: string, d: string)
    ensures var s := a + b + c + d;
      && |s| == |a| + |b| + |c| + |d|
      && s[..|a|] == a
      && s[|a|..|a| + |b|] == b
      && s[|a| + |b|..|a| + |b| + |c|] == c
      && s[|a| + |b| + |c|..] == d
  {
  }

  /** A dashboard without a tag array shows no tag line, and one with tags shows its sorted tags. */
  lemma DisplayNameTags(p: Presentation, dash: SqlDashboard)
    ensures dash.tags.None? ==>
      DisplayNameText(p, dash) == FavouriteMark(p, dash.isFavourite) + p.escape(dash.name) + DraftMark(p, dash.isDraft)
    ensures dash.tags.Some? ==>
      var before := FavouriteMark(p, dash.isFavourite) + p.escape(dash.name);
      var line := p.newLine + "   " + TagLine(p.escape, dash.tags.value);
      DisplayNameText(p, dash)[|before|..|before| + |line|] == line
  {
    DisplayNameLayout(p, dash);
  }

  // ---------------------------------------------------------------------
  // `BackupDashboardCommand`

  /**
   * The progress callback of the backup: one file per dashboard, in listing
   * order, stepping a new progress task from 0 to the number of dashboards.
   */
  method WriteDashboardBackups(dashboards: seq<SqlDashboard>, invalid: InvalidChars) returns (writes: seq<BackupWrite>, task: ProgressTask)
    ensures |writes| == |dashboards|
    ensures forall i :: 0 <= i < |dashboards| ==>
      writes[i] == BackupWrite(BackupFileName(DashboardPrefix, dashboards[i].name, invalid), dashboards[i].id)
    ensures fresh(task)
    ensures task.maxValue == |dashboards| && task.value == |dashboards|
  {
    task := new ProgressTask(100);
    task.maxValue := |dashboards|;
    task.value := 0;
    writes := [];
    for i := 0 to |dashboards|
      invariant task.maxValue == |dashboards| && task.value == i
      invariant |writes| == i
      invariant forall k :: 0 <= k < i ==>
        writes[k] == BackupWrite(BackupFileName(DashboardPrefix, dashboards[k].name, invalid), dashboards[k].id)
    {
      var d := dashboards[i];
      var fileName := BackupFileName(DashboardPrefix, d.name, invalid);
      writes := writes + [BackupWrite(fileName, d.id)];
      task.value := task.value + 1;
    }
  }

  /** Lists the dashboards as `ListDashboards` does and backs each of them up. */
  method BackupDashboardCommand(
    listing: Option<seq<SqlDashboard>>, rawTags: Option<string>, name: Option<string>, invalid: InvalidChars)
    returns (dashboards: seq<SqlDashboard>, writes: seq<BackupWrite>, task: ProgressTask)
    ensures listing.None? ==> dashboards == []
    ensures listing.Some? ==> dashboards == Filter(listing.value, (d: SqlDashboard) => Selected(d.tags, d.name, rawTags, name))
    ensures |writes| == |dashboards|
    ensures forall i :: 0 <= i < |dashboards| ==>
      writes[i] == BackupWrite(BackupFileName(DashboardPrefix, dashboards[i].name, invalid), dashboards[i].id)
    ensures fresh(task)
    ensures task.maxValue == |dashboards| && task.value == |dashboards|
  {
    dashboards := ListDashboards(listing, rawTags, name);
    writes, task := WriteDashboardBackups(dashboards, invalid);
  }
}
