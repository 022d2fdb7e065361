/**
 * The cluster commands: the listing order of `ListClustersCommand`, the
 * exit-code and terminate decision of `StopClusterCommand`, and the guard
 * of `StartClusterCommand`.
 */
module Compute {
  import opened Wrappers
  import opened Text
  import opened Seqs
  import opened Databricks
  import opened Ansi

  // ---------------------------------------------------------------------
  // Listing order

  /** The first sort key: clusters made in the UI, then by the API, then the rest. */
  function SourceRank(source: string): (r: nat)
    ensures r <= 2
    ensures r == 0 <==> source == "UI"
    ensures r == 1 <==> source == "API"
  {
    if source == "UI" then 0
    else if source == "API" then 1
    else 2
  }

  /**
   * The order of `OrderBy(source rank).ThenBy(State).ThenBy(lower-cased
   * Name)`: the keys compared one after the other, each later key only
   * deciding between clusters tied on all earlier ones.
   */
  predicate ClusterLe(a: Cluster, b: Cluster)
  {
    || SourceRank(a.source) < SourceRank(b.source)
    || (SourceRank(a.source) == SourceRank(b.source)
        && (|| (StringLe(a.state, b.state) && a.state != b.state)
            || (a.state == b.state && StringLe(ToLower(a.name), ToLower(b.name)))))
  }

  /** Two clusters agree on all three sort keys. */
  predicate SameKeys(a: Cluster, b: Cluster)
  {
    SourceRank(a.source) == SourceRank(b.source) && a.state == b.state && ToLower(a.name) == ToLower(b.name)
  }

  lemma ClusterLeTotal(a: Cluster, b: Cluster)
    ensures ClusterLe(a, b) || ClusterLe(b, a)
  {
    StringLeTotal(a.state, b.state);
    StringLeTotal(ToLower(a.name), ToLower(b.name));
  }

  lemma ClusterLeTransitive(a: Cluster, b: Cluster, c: Cluster)
    requires ClusterLe(a, b) && ClusterLe(b, c)
    ensures ClusterLe(a, c)
  {
    if SourceRank(a.source) == SourceRank(b.source) == SourceRank(c.source) {
      if StringLe(a.state, b.state) && StringLe(b.state, c.state) {
        StringLeTransitive(a.state, b.state, c.state);
        if a.state == c.state {
          StringLeAntisymmetric(a.state, b.state);
        }
      }
      if a.state == b.state == c.state {
        StringLeTransitive(ToLower(a.name), ToLower(b.name), ToLower(c.name));
      }
    }
  }

  /** The combined order is a total preorder, so the stable sort is well behaved. */
  lemma ClusterLeTotalPreorder()
    ensures TotalPreorder(ClusterLe)
  {
    forall a, b ensures ClusterLe(a, b) || ClusterLe(b, a) {
      ClusterLeTotal(a, b);
    }
    forall a, b, c | ClusterLe(a, b) && ClusterLe(b, c) ensures ClusterLe(a, c) {
      ClusterLeTransitive(a, b, c);
    }
  }

  /** Clusters compare as equal exactly when all three keys agree. */
  lemma ClusterTiedSameKeys(a: Cluster, b: Cluster)
    ensures Tied(ClusterLe, a, b) <==> SameKeys(a, b)
  {
    StringLeReflexive();
    if Tied(ClusterLe, a, b) {
      if StringLe(a.state, b.state) && StringLe(b.state, a.state) {
        StringLeAntisymmetric(a.state, b.state);
      }
      if a.state == b.state {
        StringLeAntisymmetric(ToLower(a.name), ToLower(b.name));
      }
    }
  }

  /**
   * The ordered listing: the same clusters, UI before API before any other
   * source; within one source rank ascending by state; within one rank and
   * state ascending by lower-cased name.
   */
  function OrderClusters(clusters: seq<Cluster>): (r: seq<Cluster>)
    ensures multiset(r) == multiset(clusters)
    ensures forall i, j :: 0 <= i < j < |r| ==> SourceRank(r[i].source) <= SourceRank(r[j].source)
    ensures forall i, j :: 0 <= i < j < |r| && SourceRank(r[i].source) == SourceRank(r[j].source) ==>
      StringLe(r[i].state, r[j].state)
    ensures forall i, j :: 0 <= i < j < |r| && SourceRank(r[i].source) == SourceRank(r[j].source) && r[i].state == r[j].state ==>
      StringLe(ToLower(r[i].name), ToLower(r[j].name))
  {
    ClusterLeTotalPreorder();
    StringLeReflexive();
    SortBySorted(clusters, ClusterLe);
    SortBy(clusters, ClusterLe)
  }

  /** UI clusters come first and clusters of an unknown source come last. */
  lemma OrderClustersSources(clusters: seq<Cluster>, i: int, j: int)
    requires 0 <= i < j < |OrderClusters(clusters)|
    ensures OrderClusters(clusters)[j].source == "UI" ==> OrderClusters(clusters)[i].source == "UI"
    ensures OrderClusters(clusters)[i].source !in {"UI", "API"} ==> OrderClusters(clusters)[j].source !in {"UI", "API"}
  {
    var r := OrderClusters(clusters);
    assert SourceRank(r[i].source) <= SourceRank(r[j].source);
  }

  /**
   * Stability: clusters agreeing on every key keep their listing order, as
   * LINQ's `OrderBy`/`ThenBy` guarantee.
   */
  lemma OrderClustersStable(clusters: seq<Cluster>, k: Cluster)
    ensures Filter(OrderClusters(clusters), c => SameKeys(c, k)) == Filter(clusters, c => SameKeys(c, k))
  {
    ClusterLeTotalPreorder();
    SortByStable(clusters, ClusterLe, k);
    forall c ensures Tied(ClusterLe, c, k) == SameKeys(c, k) {
      ClusterTiedSameKeys(c, k);
    }
    FilterExt(SortBy(clusters, ClusterLe), y => Tied(ClusterLe, y, k), c => SameKeys(c, k));
    FilterExt(clusters, y => Tied(ClusterLe, y, k), c => SameKeys(c, k));
  }

  // ---------------------------------------------------------------------
  // Stopping a cluster by part of its id or name

  /** What `StopClusterCommand` does: its exit code and the id it terminates, if any. */
  datatype StopDecision = StopDecision(exitCode: int, terminate: Option<string>)

  /**
   * `StopClusterCommand`: exit 1 when no cluster matches, 2 when several do,
   * and 0 with the one match, which is terminated only if it is running.
   */
  function StopClusterCommand(clusters: seq<Cluster>, idOrName: string): (r: StopDecision)
    ensures r.exitCode in {0, 1, 2}
    ensures r.exitCode == 1 <==> forall i :: 0 <= i < |clusters| ==> !ClusterMatches(clusters[i], idOrName)
    ensures r.exitCode == 2 <==>
      exists i, j :: 0 <= i < j < |clusters| && ClusterMatches(clusters[i], idOrName) && ClusterMatches(clusters[j], idOrName)
    ensures r.exitCode == 0 <==> exists i :: OnlyMatchingCluster(clusters, idOrName, i)
    ensures r.terminate.Some? <==> exists i :: OnlyMatchingCluster(clusters, idOrName, i) && clusters[i].isRunning
    ensures r.terminate.Some? ==>
      exists i :: OnlyMatchingCluster(clusters, idOrName, i) && r.terminate.value == clusters[i].id
  {
    var matches := (c: Cluster) => ClusterMatches(c, idOrName);
    var found := Filter(clusters, matches);
    FilterCount(clusters, matches);
    assert forall i :: SoleWitness(clusters, matches, i) <==> OnlyMatchingCluster(clusters, idOrName, i);
    if |found| == 0 then StopDecision(1, None)
    else if |found| > 1 then StopDecision(2, None)
    else
      var cluster := found[0];
      assert forall i :: OnlyMatchingCluster(clusters, idOrName, i) ==> clusters[i] == cluster;
      StopDecision(0, if cluster.isRunning then Some(cluster.id) else None)
  }

  /**
   * The stop command and `FindCluster` resolve alike: exit 0 exactly when the
   * lookup finds a cluster, which is the one stopped if it runs.
   */
  lemma StopAgreesWithFindCluster(clusters: seq<Cluster>, idOrName: string)
    ensures StopClusterCommand(clusters, idOrName).exitCode == 0 <==> FindCluster(clusters, idOrName).Found?
    ensures StopClusterCommand(clusters, idOrName).exitCode == 1 <==> FindCluster(clusters, idOrName).NotFound?
    ensures StopClusterCommand(clusters, idOrName).exitCode == 2 <==> FindCluster(clusters, idOrName).Ambiguous?
    ensures FindCluster(clusters, idOrName).Found? ==>
      var c := FindCluster(clusters, idOrName).value;
      StopClusterCommand(clusters, idOrName).terminate == if c.isRunning then Some(c.id) else None
  {
    if FindCluster(clusters, idOrName).Found? {
      var c := FindCluster(clusters, idOrName).value;
      var i :| OnlyMatchingCluster(clusters, idOrName, i) && c == clusters[i];
      var d := StopClusterCommand(clusters, idOrName);
      if d.terminate.Some? {
        var k :| OnlyMatchingCluster(clusters, idOrName, k) && d.terminate.value == clusters[k].id;
        assert k == i;
      }
    }
  }

  // ---------------------------------------------------------------------
  // Starting a cluster by part of its id or name

  /**
   * `StartClusterCommand`: looks the cluster up and starts it only when the
   * lookup found exactly one.
   */
  method StartClusterCommand(clusters: seq<Cluster>, idOrName: string, wait: bool, observed: seq<string>)
    returns (found: bool, startRequested: bool, outcome: WaitOutcome, polls: nat)
    ensures found <==> FindCluster(clusters, idOrName).Found?
    ensures !found ==> !startRequested && outcome == NotAwaited && polls == 0
    ensures found ==>
      var c := FindCluster(clusters, idOrName).value;
      startRequested <==> c.state != Running && c.state != Pending
    ensures found ==> (outcome == NotAwaited <==> !wait)
    ensures !wait ==> polls == 0
    ensures polls <= |observed|
    ensures forall k :: 0 <= k < polls - 1 ==> !EndsStartWait(observed[k])
    ensures outcome == Reached ==> 0 < polls && observed[polls - 1] == Running
    ensures outcome == Failed ==> 0 < polls && observed[polls - 1] == Terminated
    ensures outcome == Exhausted ==> polls == |observed| && forall k :: 0 <= k < |observed| ==> !EndsStartWait(observed[k])
  {
    var lookup := FindCluster(clusters, idOrName);
    if !lookup.Found? {
      return false, false, NotAwaited, 0;
    }
    found := true;
    startRequested, outcome, polls := StartCluster(lookup.value, wait, observed);
  }
}
