/**
 * `Ansi`: the helpers the commands share: state colouring (`Sparkup`),
 * resolving a cluster or job from part of its id or name, starting and
 * stopping a cluster and waiting for it, and the tag/name filters applied
 * to query and dashboard listings.
 *
 * The remote client is not modelled: listings are inputs, and the states
 * the client reports while a command waits on a cluster are a finite
 * sequence of observations.
 */
module Ansi {
  import opened Wrappers
  import opened Text
  import opened Seqs
  import opened Databricks

  /**
   * What the console library contributes to the rendered text: markup
   * escaping (`EscapeMarkup`), `Environment.NewLine` and the two emoji
   * (`Emoji.Known.GlowingStar`, `Emoji.Known.Pencil`).  None of them is
   * interpreted.
   */
  datatype Presentation = Presentation(
    escape: string -> string,
    newLine: string,
    glowingStar: string,
    pencil: string)

  // ---------------------------------------------------------------------
  // Sparkup

  /** The colour table of `Sparkup`, as a lookup independent of the switch below. */
  const StateColors: map<string, string> :=
    map["RUNNING" := "green", "SUCCESS" := "green", "FAILED" := "red",
        "CANCELED" := "grey", "TERMINATED" := "grey", "None" := "grey"]

  /**
   * Marks a state up in its colour.  A `null` state renders as nothing, a
   * state in the table as `[colour]escaped[/]`, any other as just escaped.
   */
  function Sparkup(escape: string -> string, s: Option<string>): (r: string)
    ensures s.None? ==> r == ""
    ensures s.Some? && s.value in StateColors ==> r == "[" + StateColors[s.value] + "]" + escape(s.value) + "[/]"
    ensures s.Some? && s.value !in StateColors ==> r == escape(s.value)
  {
    if s.None? then ""
    else
      var color :=
        if s.value == "RUNNING" || s.value == "SUCCESS" then Some("green")
        else if s.value == "FAILED" then Some("red")
        else if s.value == "CANCELED" || s.value == "TERMINATED" || s.value == "None" then Some("grey")
        else None;
      if color.Some? then "[" + color.value + "]" + escape(s.value) + "[/]"
      else escape(s.value)
  }

  /** The states a cluster passes through while starting are uncoloured, its end states are coloured. */
  lemma SparkupLifecycle(escape: string -> string)
    ensures Sparkup(escape, Some(Running)) == "[green]" + escape(Running) + "[/]"
    ensures Sparkup(escape, Some(Terminated)) == "[grey]" + escape(Terminated) + "[/]"
    ensures Sparkup(escape, Some(Pending)) == escape(Pending)
  {
    assert Running in StateColors && StateColors[Running] == "green";
    assert Sparkup(escape, Some(Running)) == "[green]" + escape(Running) + "[/]";
    assert Terminated in StateColors && StateColors[Terminated] == "grey";
    assert Sparkup(escape, Some(Terminated)) == "[grey]" + escape(Terminated) + "[/]";
    assert Pending[0] == 'P';
    assert Pending !in StateColors;
    assert Sparkup(escape, Some(Pending)) == escape(Pending);
  }

  // ---------------------------------------------------------------------
  // Resolving a cluster or a job from part of its id or name

  /** The outcome of a lookup: no match, the one match, or how many matched. */
  datatype Resolution<T> = NotFound | Found(value: T) | Ambiguous(count: nat)

  /**
   * The zero/one/many rule shared by every lookup: `Found` exactly when one
   * candidate position matches, and then that candidate; `Ambiguous` with
   * the number of matches when two or more do.
   */
  function Resolve<T(!new)>(candidates: seq<T>, matches: T -> bool): (r: Resolution<T>)
    ensures r.NotFound? <==> forall i :: 0 <= i < |candidates| ==> !matches(candidates[i])
    ensures r.Found? <==> exists i :: SoleWitness(candidates, matches, i)
    ensures r.Found? ==> exists i :: SoleWitness(candidates, matches, i) && r.value == candidates[i]
    ensures r.Ambiguous? <==> exists i, j :: 0 <= i < j < |candidates| && matches(candidates[i]) && matches(candidates[j])
    ensures r.Ambiguous? ==> r.count >= 2 && r.count == |Filter(candidates, matches)|
  {
    FilterCount(candidates, matches);
    var hits := Filter(candidates, matches);
    if |hits| == 0 then NotFound
    else if |hits| > 1 then Ambiguous(|hits|)
    else Found(hits[0])
  }

  /** The filter in `FindCluster`: the id or the name contains `substr`, ignoring case. */
  predicate ClusterMatches(c: Cluster, substr: string)
  {
    ContainsIgnoreCase(c.id, substr) || ContainsIgnoreCase(c.name, substr)
  }

  /** Position `i` holds the only cluster matching `substr`. */
  predicate OnlyMatchingCluster(clusters: seq<Cluster>, substr: string, i: int)
  {
    0 <= i < |clusters| && ClusterMatches(clusters[i], substr)
    && forall j :: 0 <= j < |clusters| && j != i ==> !ClusterMatches(clusters[j], substr)
  }

  /**
   * `FindCluster`.  The source returns `null` for both `NotFound` and
   * `Ambiguous`; they are kept apart here because the console line differs
   * ("none." against the number of matches).
   */
  function FindCluster(clusters: seq<Cluster>, substr: string): (r: Resolution<Cluster>)
    ensures r.NotFound? <==> forall i :: 0 <= i < |clusters| ==> !ClusterMatches(clusters[i], substr)
    ensures r.Found? <==> exists i :: OnlyMatchingCluster(clusters, substr, i)
    ensures r.Found? ==> exists i :: OnlyMatchingCluster(clusters, substr, i) && r.value == clusters[i]
    ensures r.Ambiguous? <==>
      exists i, j :: 0 <= i < j < |clusters| && ClusterMatches(clusters[i], substr) && ClusterMatches(clusters[j], substr)
    ensures r.Ambiguous? ==> r.count >= 2 && r.count == |Filter(clusters, (c: Cluster) => ClusterMatches(c, substr))|
  {
    var matches := (c: Cluster) => ClusterMatches(c, substr);
    var r := Resolve(clusters, matches);
    assert forall i :: SoleWitness(clusters, matches, i) <==> OnlyMatchingCluster(clusters, substr, i);
    r
  }

  /** The filter in `FindJob`: the decimal id or the name contains `substr`, ignoring case. */
  predicate JobMatches(j: Job, substr: string)
  {
    ContainsIgnoreCase(DecimalString(j.id), substr) || ContainsIgnoreCase(j.name, substr)
  }

  predicate OnlyMatchingJob(jobs: seq<Job>, substr: string, i: int)
  {
    0 <= i < |jobs| && JobMatches(jobs[i], substr)
    && forall j :: 0 <= j < |jobs| && j != i ==> !JobMatches(jobs[j], substr)
  }

  /** `FindJob`: the same zero/one/many rule over the decimal job id and the name. */
  function FindJob(jobs: seq<Job>, substr: string): (r: Resolution<Job>)
    ensures r.NotFound? <==> forall i :: 0 <= i < |jobs| ==> !JobMatches(jobs[i], substr)
    ensures r.Found? <==> exists i :: OnlyMatchingJob(jobs, substr, i)
    ensures r.Found? ==> exists i :: OnlyMatchingJob(jobs, substr, i) && r.value == jobs[i]
    ensures r.Ambiguous? <==>
      exists i, j :: 0 <= i < j < |jobs| && JobMatches(jobs[i], substr) && JobMatches(jobs[j], substr)
    ensures r.Ambiguous? ==> r.count >= 2 && r.count == |Filter(jobs, (j: Job) => JobMatches(j, substr))|
  {
    var matches := (j: Job) => JobMatches(j, substr);
    var r := Resolve(jobs, matches);
    assert forall i :: SoleWitness(jobs, matches, i) <==> OnlyMatchingJob(jobs, substr, i);
    r
  }

  /** An empty search text matches every candidate, so it resolves only a single-element list. */
  lemma {:induction false} EmptySubstringMatchesAll(clusters: seq<Cluster>)
    ensures FindCluster(clusters, "").Found? <==> |clusters| == 1
    ensures |clusters| >= 2 ==> FindCluster(clusters, "").Ambiguous?
  {
    forall c: Cluster ensures ClusterMatches(c, "") {
      assert ToLower("") == "";
      ContainsEmpty(ToLower(c.id));
    }
    if |clusters| >= 2 {
      assert ClusterMatches(clusters[0], "") && ClusterMatches(clusters[1], "");
    }
    if |clusters| == 1 {
      assert OnlyMatchingCluster(clusters, "", 0);
    }
  }

  // ---------------------------------------------------------------------
  // Starting and stopping a cluster

  const Running := "RUNNING"
  const Pending := "PENDING"
  const Terminated := "TERMINATED"

  /** How a start or stop call ended. */
  datatype WaitOutcome =
    | NotAwaited  // called without `wait`: returns right after the request
    | Reached     // the awaited state was observed: normal return
    | Failed      // "TERMINATED" was observed while starting: the source throws
    | Exhausted   // every observation was used up without either; the source keeps polling

  /** A state that ends the wait of `StartCluster`. */
  predicate EndsStartWait(state: string)
  {
    state == Running || state == Terminated
  }

  /**
   * `StartCluster`.  A start request is sent exactly when the cluster is
   * neither running nor pending.  With `wait`, each loop turn waits a second,
   * reloads the cluster (`observed[polls]`) and stops at the first
   * "RUNNING" (normal return) or "TERMINATED" (an exception); every other
   * state goes on polling.
   */
  method StartCluster(cluster: Cluster, wait: bool, observed: seq<string>)
    returns (startRequested: bool, outcome: WaitOutcome, polls: nat)
    ensures startRequested <==> cluster.state != Running && cluster.state != Pending
    ensures polls <= |observed|
    ensures outcome == NotAwaited <==> !wait
    ensures !wait ==> polls == 0
    ensures forall k :: 0 <= k < polls - 1 ==> !EndsStartWait(observed[k])
    ensures outcome == Reached ==> 0 < polls && observed[polls - 1] == Running
    ensures outcome == Failed ==> 0 < polls && observed[polls - 1] == Terminated
    ensures outcome == Exhausted ==> polls == |observed| && forall k :: 0 <= k < |observed| ==> !EndsStartWait(observed[k])
  {
    startRequested := cluster.state != Running && cluster.state != Pending;
    outcome, polls := NotAwaited, 0;
    if wait {
      outcome := Exhausted;
      while polls < |observed|
        invariant polls <= |observed|
        invariant forall k :: 0 <= k < polls ==> !EndsStartWait(observed[k])
      {
        var state := observed[polls];
        polls := polls + 1;
        if state == Running {
          outcome := Reached;
          return;
        }
        if state == Terminated {
          outcome := Failed;
          return;
        }
      }
    }
  }

  /**
   * `StopCluster`.  A terminate request is sent exactly when the cluster is
   * not already terminated.  With `wait` it polls until the first
   * "TERMINATED"; no state makes it fail.
   */
  method StopCluster(cluster: Cluster, wait: bool, observed: seq<string>)
    returns (terminateRequested: bool, outcome: WaitOutcome, polls: nat)
    ensures terminateRequested <==> cluster.state != Terminated
    ensures polls <= |observed|
    ensures outcome == NotAwaited <==> !wait
    ensures !wait ==> polls == 0
    ensures outcome != Failed
    ensures forall k :: 0 <= k < polls - 1 ==> observed[k] != Terminated
    ensures outcome == Reached ==> 0 < polls && observed[polls - 1] == Terminated
    ensures outcome == Exhausted ==> polls == |observed| && forall k :: 0 <= k < |observed| ==> observed[k] != Terminated
  {
    terminateRequested := cluster.state != Terminated;
    outcome, polls := NotAwaited, 0;
    if wait {
      outcome := Exhausted;
      while polls < |observed|
        invariant polls <= |observed|
        invariant forall k :: 0 <= k < polls ==> observed[k] != Terminated
      {
        var state := observed[polls];
        polls := polls + 1;
        if state == Terminated {
          outcome := Reached;
          return;
        }
      }
    }
  }

  // ---------------------------------------------------------------------
  // Filtering query and dashboard listings

  /** `TrimEntries | RemoveEmptyEntries` applied to split pieces: each piece trimmed, empty ones dropped. */
  function TrimmedTokens(pieces: seq<string>): seq<string>
  {
    if pieces == [] then []
    else
      var t := Trim(pieces[0]);
      (if t != "" then [t] else []) + TrimmedTokens(pieces[1..])
  }

  /** `rawTags.Split(',', RemoveEmptyEntries | TrimEntries)`. */
  function TagTokens(rawTags: string): seq<string>
  {
    TrimmedTokens(Split(rawTags, ','))
  }

  /** The tokens are exactly the non-empty trimmed pieces. */
  lemma {:induction false} TrimmedTokensMembers(pieces: seq<string>)
    ensures forall t :: t in TrimmedTokens(pieces) <==> t != "" && exists p :: p in pieces && Trim(p) == t
  {
    if pieces != [] {
      TrimmedTokensMembers(pieces[1..]);
      assert forall p :: p in pieces <==> p == pieces[0] || p in pieces[1..];
    }
  }

  /** Every token is non-empty, holds no separator, and has no whitespace at either end. */
  lemma {:induction false} TrimmedTokensShape(pieces: seq<string>, sep: char)
    requires forall i :: 0 <= i < |pieces| ==> sep !in pieces[i]
    ensures forall t :: t in TrimmedTokens(pieces) ==>
      t != "" && sep !in t && !IsWhiteSpace(t[0]) && !IsWhiteSpace(t[|t| - 1])
  {
    if pieces != [] {
      TrimmedTokensShape(pieces[1..], sep);
      TrimSlice(pieces[0]);
      TrimKeepsCharacters(pieces[0]);
    }
  }

  /** The tokens are the non-empty trimmed comma-separated pieces; none holds a comma or edge whitespace. */
  lemma TagTokensSpec(rawTags: string)
    ensures forall t :: t in TagTokens(rawTags) <==> t != "" && exists p :: p in Split(rawTags, ',') && Trim(p) == t
    ensures forall t :: t in TagTokens(rawTags) ==> ',' !in t && !IsWhiteSpace(t[0]) && !IsWhiteSpace(t[|t| - 1])
  {
    var pieces := Split(rawTags, ',');
    TrimmedTokensMembers(pieces);
    TrimmedTokensShape(pieces, ',');
  }

  /** `tags.Contains(t, InvariantCultureIgnoreCase)`: some element equals `t` ignoring case. */
  predicate HasTag(tags: seq<string>, t: string)
  {
    exists k :: 0 <= k < |tags| && EqualsIgnoreCase(tags[k], t)
  }

  /** The `Where` of the tag filter: the tags are not `null` and hold every token. */
  predicate HasAllTags(tags: Option<seq<string>>, tokens: seq<string>)
  {
    tags.Some? && forall t :: t in tokens ==> HasTag(tags.value, t)
  }

  /** The tag filter: kept when no tag filter is given, otherwise only with non-null tags holding every token. */
  predicate PassesTagFilter(tags: Option<seq<string>>, rawTags: Option<string>)
  {
    IsNullOrEmpty(rawTags) || HasAllTags(tags, TagTokens(rawTags.value))
  }

  /** The name filter: kept when no name is given, otherwise when the name contains it ignoring case. */
  predicate PassesNameFilter(itemName: string, name: Option<string>)
  {
    IsNullOrEmpty(name) || ContainsIgnoreCase(itemName, name.value)
  }

  /** Both filters, AND-composed. */
  predicate Selected(tags: Option<seq<string>>, itemName: string, rawTags: Option<string>, name: Option<string>)
  {
    PassesTagFilter(tags, rawTags) && PassesNameFilter(itemName, name)
  }

  /**
   * The filter part of `ListQueries`: a `null` listing gives an empty list;
   * otherwise the tag filter, then the name filter, narrow it step by step.
   */
  method ListQueries(listing: Option<seq<SqlQuery>>, rawTags: Option<string>, name: Option<string>)
    returns (queries: seq<SqlQuery>)
    ensures listing.None? ==> queries == []
    ensures listing.Some? ==> queries == Filter(listing.value, (q: SqlQuery) => Selected(q.tags, q.name, rawTags, name))
    ensures listing.Some? ==> IsSubsequence(queries, listing.value)
    ensures listing.Some? && IsNullOrEmpty(rawTags) && IsNullOrEmpty(name) ==> queries == listing.value
  {
    if listing.None? {
      return [];
    }
    var all := listing.value;
    var byTags := (q: SqlQuery) => PassesTagFilter(q.tags, rawTags);
    var byName := (q: SqlQuery) => PassesNameFilter(q.name, name);
    var both := (q: SqlQuery) => Selected(q.tags, q.name, rawTags, name);
    queries := all;
    if !IsNullOrEmpty(rawTags) {
      var tokens := TagTokens(rawTags.value);
      queries := Filter(queries, (q: SqlQuery) => HasAllTags(q.tags, tokens));
      FilterExt(all, (q: SqlQuery) => HasAllTags(q.tags, tokens), byTags);
    } else {
      FilterAll(all, byTags);
    }
    ghost var tagged := queries;
    if !IsNullOrEmpty(name) {
      var n := name.value;
      queries := Filter(queries, (q: SqlQuery) => ContainsIgnoreCase(q.name, n));
      FilterExt(tagged, (q: SqlQuery) => ContainsIgnoreCase(q.name, n), byName);
    } else {
      FilterAll(tagged, byName);
    }
    TwoStageFilter(all, byTags, byName, both);
    FilterIsSubsequence(all, both);
    if IsNullOrEmpty(rawTags) && IsNullOrEmpty(name) {
      FilterAll(all, both);
    }
  }

  /** The filter part of `ListDashboards`: the same two filters over a dashboard listing. */
  method ListDashboards(listing: Option<seq<SqlDashboard>>, rawTags: Option<string>, name: Option<string>)
    returns (dashboards: seq<SqlDashboard>)
    ensures listing.None? ==> dashboards == []
    ensures listing.Some? ==> dashboards == Filter(listing.value, (d: SqlDashboard) => Selected(d.tags, d.name, rawTags, name))
    ensures listing.Some? ==> IsSubsequence(dashboards, listing.value)
    ensures listing.Some? && IsNullOrEmpty(rawTags) && IsNullOrEmpty(name) ==> dashboards == listing.value
  {
    if listing.None? {
      return [];
    }
    var all := listing.value;
    var byTags := (d: SqlDashboard) => PassesTagFilter(d.tags, rawTags);
    var byName := (d: SqlDashboard) => PassesNameFilter(d.name, name);
    var both := (d: SqlDashboard) => Selected(d.tags, d.name, rawTags, name);
    dashboards := all;
    if !IsNullOrEmpty(rawTags) {
      var tokens := TagTokens(rawTags.value);
      dashboards := Filter(dashboards, (d: SqlDashboard) => HasAllTags(d.tags, tokens));
      FilterExt(all, (d: SqlDashboard) => HasAllTags(d.tags, tokens), byTags);
    } else {
      FilterAll(all, byTags);
    }
    ghost var tagged := dashboards;
    if !IsNullOrEmpty(name) {
      var n := name.value;
      dashboards := Filter(dashboards, (d: SqlDashboard) => ContainsIgnoreCase(d.name, n));
      FilterExt(tagged, (d: SqlDashboard) => ContainsIgnoreCase(d.name, n), byName);
    } else {
      FilterAll(tagged, byName);
    }
    TwoStageFilter(all, byTags, byName, both);
    FilterIsSubsequence(all, both);
    if IsNullOrEmpty(rawTags) && IsNullOrEmpty(name) {
      FilterAll(all, both);
    }
  }

  /** An item survives the pipeline exactly when it is in the listing and passes both filters. */
  lemma SelectedMembers(items: seq<SqlQuery>, rawTags: Option<string>, name: Option<string>, q: SqlQuery)
    ensures q in Filter(items, (x: SqlQuery) => Selected(x.tags, x.name, rawTags, name))
        <==> q in items && PassesTagFilter(q.tags, rawTags) && PassesNameFilter(q.name, name)
  {
  }

  /** Filtering a filtered listing again with the same criteria changes nothing. */
  lemma SelectionIdempotent(items: seq<SqlQuery>, rawTags: Option<string>, name: Option<string>)
    ensures var keep := (q: SqlQuery) => Selected(q.tags, q.name, rawTags, name);
      Filter(Filter(items, keep), keep) == Filter(items, keep)
  {
    FilterIdempotent(items, (q: SqlQuery) => Selected(q.tags, q.name, rawTags, name));
  }

  /** The same for dashboards: kept exactly when in the listing and passing both filters. */
  lemma SelectedDashboardMembers(items: seq<SqlDashboard>, rawTags: Option<string>, name: Option<string>, d: SqlDashboard)
    ensures d in Filter(items, (x: SqlDashboard) => Selected(x.tags, x.name, rawTags, name))
        <==> d in items && PassesTagFilter(d.tags, rawTags) && PassesNameFilter(d.name, name)
  {
  }

  /** Filtering a filtered dashboard listing again with the same criteria changes nothing. */
  lemma DashboardSelectionIdempotent(items: seq<SqlDashboard>, rawTags: Option<string>, name: Option<string>)
    ensures var keep := (d: SqlDashboard) => Selected(d.tags, d.name, rawTags, name);
      Filter(Filter(items, keep), keep) == Filter(items, keep)
  {
    FilterIdempotent(items, (d: SqlDashboard) => Selected(d.tags, d.name, rawTags, name));
  }

  /** A tag filter made only of separators has no tokens, yet still drops every item whose tags are `null`. */
  lemma SeparatorsOnlyTagFilter()
    ensures TagTokens(",") == []
    ensures !PassesTagFilter(None, Some(","))
    ensures PassesTagFilter(Some([]), Some(","))
  {
    SplitFirst("", ',', "");
    SplitNoSeparator("", ',');
    assert "," == "" + [','] + "";
    assert Split(",", ',') == ["", ""];
    assert Trim("") == "";
    assert TrimmedTokens([""]) == [];
  }

  lemma SplitTwoPieces(a: string, sep: char, b: string)
    requires sep !in a && sep !in b
    ensures Split(a + [sep] + b, sep) == [a, b]
  {
    SplitFirst(a, sep, b);
    SplitNoSeparator(b, sep);
  }

  lemma ExamplePieces()
    ensures Split("team-x, urgent", ',') == ["team-x", " urgent"]
  {
    var a, b := "team-x", " urgent";
    assert "team-x, urgent" == a + [','] + b;
    SplitTwoPieces(a, ',', b);
  }

  lemma ExampleTrims()
    ensures Trim("team-x") == "team-x" && Trim(" urgent") == "urgent"
  {
    assert TrimStart(" urgent") == TrimStart("urgent");
  }

  lemma ExampleTokens()
    ensures TrimmedTokens(["team-x", " urgent"]) == ["team-x", "urgent"]
  {
    ExampleTrims();
    assert TrimmedTokens([" urgent"]) == ["urgent"];
    assert ["team-x", " urgent"][1..] == [" urgent"];
  }

  /** The tokens of the worked example "team-x, urgent". */
  lemma TagTokensExample()
    ensures TagTokens("team-x, urgent") == ["team-x", "urgent"]
  {
    ExamplePieces();
    ExampleTokens();
  }

  lemma ExampleHasTags()
    ensures HasTag(["Team-X", "Urgent", "Q3"], "team-x") && HasTag(["Team-X", "Urgent", "Q3"], "urgent")
    ensures !HasTag(["Team-X", "Q3"], "urgent")
  {
    assert ToLower("Team-X") == "team-x" == ToLower("team-x");
    assert ToLower("Urgent") == "urgent" == ToLower("urgent");
    assert ToLower("Q3")[0] != 'u' && ToLower("Team-X")[0] != 'u';
    assert EqualsIgnoreCase(["Team-X", "Urgent", "Q3"][0], "team-x");
    assert EqualsIgnoreCase(["Team-X", "Urgent", "Q3"][1], "urgent");
  }

  /** Tag tokens are trimmed and compared ignoring case, and their order does not matter. */
  lemma TagFilterExample()
    ensures PassesTagFilter(Some(["Team-X", "Urgent", "Q3"]), Some("team-x, urgent"))
    ensures !PassesTagFilter(Some(["Team-X", "Q3"]), Some("team-x, urgent"))
  {
    TagTokensExample();
    ExampleHasTags();
    assert "urgent" in ["team-x", "urgent"];
  }

  /** A substring whose first character never occurs in `s` is not in `s`. */
  lemma {:induction false} NotContainsFirstChar(s: string, sub: string)
    requires sub != [] && sub[0] !in s
    ensures !Contains(s, sub)
    decreases |s|
  {
    if s != [] {
      NotContainsFirstChar(s[1..], sub);
      if |sub| <= |s| {
        assert s[..|sub|][0] == s[0] && s[0] in s;
      }
    }
  }

  lemma ExampleFoldsClusters()
    ensures ToLower("abc1") == "abc1" && ToLower("abc2") == "abc2" && ToLower("abc") == "abc"
    ensures ToLower("prod-cluster") == "prod-cluster" && ToLower("dev-cluster") == "dev-cluster"
    ensures ToLower("prod") == "prod" && ToLower("xyz") == "xyz"
  {
  }

  lemma ExampleMatchesAbc()
    ensures ContainsIgnoreCase("abc1", "abc") && ContainsIgnoreCase("abc2", "abc")
  {
    ExampleFoldsClusters();
    assert StartsWith("abc1", "abc") && StartsWith("abc2", "abc");
  }

  lemma ExampleMatchesProd()
    ensures ContainsIgnoreCase("prod-cluster", "prod")
    ensures !ContainsIgnoreCase("abc2", "prod") && !ContainsIgnoreCase("dev-cluster", "prod")
  {
    ExampleFoldsClusters();
    assert StartsWith("prod-cluster", "prod");
    NotContainsFirstChar("abc2", "prod");
    NotContainsFirstChar("dev-cluster", "prod");
  }

  /** A text whose folded form has no `x` does not hold "xyz", ignoring case. */
  lemma MissesXyz(s: string)
    requires 'x' !in ToLower(s)
    ensures !ContainsIgnoreCase(s, "xyz")
  {
    ExampleFoldsClusters();
    NotContainsFirstChar(ToLower(s), "xyz");
  }

  /** The two clusters of the worked example. */
  function ExampleClusters(): seq<Cluster>
  {
    [Cluster("abc1", "prod-cluster", Running, "UI", true), Cluster("abc2", "dev-cluster", Running, "UI", true)]
  }

  /** "abc" is in both ids: two matches, no cluster. */
  lemma ResolveExampleAmbiguous()
    ensures FindCluster(ExampleClusters(), "abc") == Ambiguous(2)
  {
    var cs := ExampleClusters();
    ExampleMatchesAbc();
    assert ClusterMatches(cs[0], "abc") && ClusterMatches(cs[1], "abc");
    FilterAll(cs, (c: Cluster) => ClusterMatches(c, "abc"));
  }

  /** "prod" is only in the first name: that cluster is found. */
  lemma ResolveExampleFound()
    ensures FindCluster(ExampleClusters(), "prod") == Found(ExampleClusters()[0])
  {
    var cs := ExampleClusters();
    ExampleMatchesProd();
    assert OnlyMatchingCluster(cs, "prod", 0);
  }

  /** "xyz" is nowhere: nothing is found. */
  lemma ResolveExampleNotFound()
    ensures FindCluster(ExampleClusters(), "xyz") == NotFound
  {
    var cs := ExampleClusters();
    ExampleFoldsClusters();
    MissesXyz("abc1");
    MissesXyz("abc2");
    MissesXyz("prod-cluster");
    MissesXyz("dev-cluster");
    assert !ClusterMatches(cs[0], "xyz") && !ClusterMatches(cs[1], "xyz");
  }
}
