/** Which commits each cluster of the changelog covers: from the next older cluster's tip, exclusive, to its own. */
module RegenChangelog {
  import opened Wrappers
  import opened Sorting
  import opened Pairs

  type Sha = string

  datatype Cluster = Cluster(id: string, tip: Sha)

  predicate DistinctIds(clusters: seq<Cluster>) {
    forall i, j :: 0 <= i < j < |clusters| ==> clusters[i].id != clusters[j].id
  }

  /** A pair of commit time and name; such pairs sort as tuples do. */
  function Stamp(time: Sha -> int, sha: Sha): Pair { Pair(time(sha), sha) }

  /** The cluster at j is another one than this and its tip is strictly older. */
  predicate IsOlder(cluster: Cluster, clusters: seq<Cluster>, time: Sha -> int, j: int) {
    0 <= j < |clusters| && clusters[j].id != cluster.id && time(clusters[j].tip) < time(cluster.tip)
  }

  /** Whatever the commits and their times: none when no other tip is older, else the greatest of the older ones. */
  ghost predicate StartsAfter(cluster: Cluster, clusters: seq<Cluster>, time: Sha -> int, from: Option<Sha>) {
    match from
    case None => forall j :: !IsOlder(cluster, clusters, time, j)
    case Some(sha) =>
      && (exists j :: IsOlder(cluster, clusters, time, j) && clusters[j].tip == sha)
      && (forall j :: IsOlder(cluster, clusters, time, j) ==> NoLater(Stamp(time, clusters[j].tip), Stamp(time, sha)))
  }

  method ComputeFrom(cluster: Cluster, clusters: seq<Cluster>, time: Sha -> int) returns (from: Option<Sha>)
    ensures StartsAfter(cluster, clusters, time, from)
  {
    var target := time(cluster.tip);
    var older: seq<Pair> := [];
    for i := 0 to |clusters|
      invariant forall u :: u in older <==>
                  exists j :: 0 <= j < i && IsOlder(cluster, clusters, time, j) && u == Stamp(time, clusters[j].tip)
    {
      var c := clusters[i];
      assert IsOlder(cluster, clusters, time, i) <==> c.id != cluster.id && time(c.tip) < target;
      if c.id != cluster.id && time(c.tip) < target { older := older + [Stamp(time, c.tip)]; }
    }
    if older == [] {
      forall j ensures !IsOlder(cluster, clusters, time, j) {
        assert 0 <= j < |clusters| ==> Stamp(time, clusters[j].tip) !in older;
      }
      return None;
    }
    NoLaterIsOrder(older);
    SortSorts(older, NoLater);
    SortPermutes(older, NoLater);
    var sorted := Sort(older, NoLater);
    var last := sorted[|sorted| - 1];
    assert last in older;
    forall j | IsOlder(cluster, clusters, time, j) ensures NoLater(Stamp(time, clusters[j].tip), last) {
      assert Stamp(time, clusters[j].tip) in sorted;
      LastIsGreatest(sorted, Stamp(time, clusters[j].tip));
    }
    return Some(last.name);
  }

  // The order of the file

  /** A cluster's section and where its range starts. */
  datatype Section = Section(cluster: Cluster, from: Option<Sha>)

  function ClustersOf(sections: seq<Section>): seq<Cluster> {
    seq(|sections|, i requires 0 <= i < |sections| => sections[i].cluster)
  }

  predicate Newer(time: Sha -> int, a: Cluster, b: Cluster) { time(a.tip) >= time(b.tip) }

  ghost predicate InFileOrder(time: Sha -> int, clusters: seq<Cluster>, sorted: seq<Cluster>) {
    && |sorted| == |clusters| && multiset(sorted) == multiset(clusters)
    && (forall i, j :: 0 <= i < j < |sorted| ==> time(sorted[i].tip) >= time(sorted[j].tip))
    && forall i, j :: 0 <= i < j < |sorted| && time(sorted[i].tip) == time(sorted[j].tip)
         ==> Precedes(clusters, sorted[i], sorted[j])
  }

  lemma SortedIsFileOrder(time: Sha -> int, clusters: seq<Cluster>, le: (Cluster, Cluster) -> bool)
    requires forall a, b :: le(a, b) <==> Newer(time, a, b)
    ensures InFileOrder(time, clusters, Sort(clusters, le))
  {
    var sorted := Sort(clusters, le);
    SortSorts(clusters, le);
    SortPermutes(clusters, le);
    SortIsStable(clusters, le);
    assert |multiset(sorted)| == |multiset(clusters)|;
    forall i, j | 0 <= i < j < |sorted| ensures time(sorted[i].tip) >= time(sorted[j].tip) {
      assert Newer(time, sorted[i], sorted[j]);
    }
    forall i, j | 0 <= i < j < |sorted| && time(sorted[i].tip) == time(sorted[j].tip)
      ensures Precedes(clusters, sorted[i], sorted[j])
    {
      assert Newer(time, sorted[j], sorted[i]);
    }
  }

  /** One section for each cluster, each with its start; a later time comes first, equal times as in the list. */
  method Regenerate(clusters: seq<Cluster>, time: Sha -> int) returns (sections: seq<Section>)
    ensures InFileOrder(time, clusters, ClustersOf(sections))
    ensures forall i :: 0 <= i < |sections| ==> StartsAfter(sections[i].cluster, clusters, time, sections[i].from)
  {
    var newestFirst := (a: Cluster, b: Cluster) => Newer(time, a, b);
    var sorted := Sort(clusters, newestFirst);
    SortedIsFileOrder(time, clusters, newestFirst);
    sections := [];
    for k := 0 to |sorted|
      invariant ClustersOf(sections) == sorted[..k]
      invariant forall i :: 0 <= i < |sections| ==> StartsAfter(sections[i].cluster, clusters, time, sections[i].from)
    {
      var from := ComputeFrom(sorted[k], clusters, time);
      assert |sections| == |ClustersOf(sections)| == k;
      sections := sections + [Section(sorted[k], from)];
      assert ClustersOf(sections) == sorted[..k] + [sorted[k]];
    }
    assert sorted[..|sorted|] == sorted;
  }

  // One line of history, with any commit times

  /** `from..to`, or everything up to `to`, of the commits at position p. */
  predicate InRange(position: Sha -> nat, cluster: Cluster, from: Option<Sha>, p: nat) {
    p <= position(cluster.tip) && (from.Some? ==> position(from.value) < p)
  }

  /** The ranges rendered, cluster by cluster. */
  ghost predicate Ranges(clusters: seq<Cluster>, time: Sha -> int, froms: seq<Option<Sha>>) {
    |froms| == |clusters| && forall i :: 0 <= i < |clusters| ==> StartsAfter(clusters[i], clusters, time, froms[i])
  }

  ghost predicate CoveredBy(
      position: Sha -> nat, clusters: seq<Cluster>, froms: seq<Option<Sha>>, p: nat, i: int)
    requires |froms| == |clusters|
  {
    0 <= i < |clusters| && InRange(position, clusters[i], froms[i], p)
  }

  /** Of the first n clusters whose tips are not before p, one with the least time. */
  lemma {:induction false} LeastTime(
      position: Sha -> nat, time: Sha -> int, clusters: seq<Cluster>, p: nat, n: nat) returns (i: nat)
    requires n <= |clusters| && exists j :: 0 <= j < n && p <= position(clusters[j].tip)
    ensures i < n && p <= position(clusters[i].tip)
    ensures forall j :: 0 <= j < n && p <= position(clusters[j].tip) ==> time(clusters[i].tip) <= time(clusters[j].tip)
  {
    if exists j :: 0 <= j < n - 1 && p <= position(clusters[j].tip) {
      i := LeastTime(position, time, clusters, p, n - 1);
      if p <= position(clusters[n - 1].tip) && time(clusters[n - 1].tip) < time(clusters[i].tip) { i := n - 1; }
    } else {
      i := n - 1;
    }
  }

  /** Whatever the times: exactly the commits up to the newest tip are in some section. */
  lemma CoveredIff(position: Sha -> nat, time: Sha -> int, clusters: seq<Cluster>, froms: seq<Option<Sha>>, p: nat)
    requires Ranges(clusters, time, froms)
    ensures (exists i :: CoveredBy(position, clusters, froms, p, i)) <==>
            exists j :: 0 <= j < |clusters| && p <= position(clusters[j].tip)
  {
    if exists j :: 0 <= j < |clusters| && p <= position(clusters[j].tip) {
      var i := LeastTime(position, time, clusters, p, |clusters|);
      assert StartsAfter(clusters[i], clusters, time, froms[i]);
      if froms[i].Some? {
        var k :| IsOlder(clusters[i], clusters, time, k) && clusters[k].tip == froms[i].value;
        assert !(p <= position(clusters[k].tip));
      }
      assert CoveredBy(position, clusters, froms, p, i);
    }
  }

  /** Of any two tips, the later on the line has the later time, and no two are the same commit. */
  ghost predicate TipsRise(position: Sha -> nat, time: Sha -> int, clusters: seq<Cluster>) {
    forall i, j :: 0 <= i < |clusters| && 0 <= j < |clusters| && i != j ==>
      Rises(position, time, clusters[i].tip, clusters[j].tip)
  }

  predicate Rises(position: Sha -> nat, time: Sha -> int, a: Sha, b: Sha) {
    position(a) <= position(b) ==> position(a) < position(b) && time(a) < time(b)
  }

  /** Every cluster's closing commit is in its own section. */
  ghost predicate TipsAreOwn(position: Sha -> nat, clusters: seq<Cluster>, froms: seq<Option<Sha>>)
    requires |froms| == |clusters|
  {
    forall i :: 0 <= i < |clusters| ==> CoveredBy(position, clusters, froms, position(clusters[i].tip), i)
  }

  /** No commit is in two sections. */
  ghost predicate Disjoint(position: Sha -> nat, clusters: seq<Cluster>, froms: seq<Option<Sha>>)
    requires |froms| == |clusters|
  {
    forall p, i, j :: CoveredBy(position, clusters, froms, p, i) && CoveredBy(position, clusters, froms, p, j) ==> i == j
  }

  /** The cluster whose tip a section starts at. */
  lemma Start(time: Sha -> int, clusters: seq<Cluster>, froms: seq<Option<Sha>>, i: nat) returns (k: nat)
    requires Ranges(clusters, time, froms) && i < |clusters| && froms[i].Some?
    ensures IsOlder(clusters[i], clusters, time, k) && clusters[k].tip == froms[i].value && k != i
  {
    assert StartsAfter(clusters[i], clusters, time, froms[i]);
    k :| IsOlder(clusters[i], clusters, time, k) && clusters[k].tip == froms[i].value;
  }

  /** A section starts no earlier in time than any tip older than its own. */
  lemma StartsNoEarlier(time: Sha -> int, clusters: seq<Cluster>, froms: seq<Option<Sha>>, i: nat, j: nat)
    requires DistinctIds(clusters) && Ranges(clusters, time, froms) && i < |clusters| && j < |clusters| && i != j
    ensures time(clusters[i].tip) < time(clusters[j].tip) ==>
              froms[j].Some? && time(clusters[i].tip) <= time(froms[j].value)
  {
    assert StartsAfter(clusters[j], clusters, time, froms[j]);
    assert clusters[i].id != clusters[j].id;
    if time(clusters[i].tip) < time(clusters[j].tip) {
      assert IsOlder(clusters[j], clusters, time, i);
      assert NoLater(Stamp(time, clusters[i].tip), Stamp(time, froms[j].value));
    }
  }

  /** Clusters that close at the same time start at the same tip, or both at the beginning. */
  lemma EqualTimesStartTogether(time: Sha -> int, clusters: seq<Cluster>, froms: seq<Option<Sha>>, i: nat, j: nat)
    requires DistinctIds(clusters) && Ranges(clusters, time, froms) && i < |clusters| && j < |clusters|
    requires time(clusters[i].tip) == time(clusters[j].tip)
    ensures froms[i] == froms[j]
  {
    var a, b := clusters[i], clusters[j];
    assert StartsAfter(a, clusters, time, froms[i]) && StartsAfter(b, clusters, time, froms[j]);
    forall k ensures IsOlder(a, clusters, time, k) <==> IsOlder(b, clusters, time, k) {
      assert 0 <= k < |clusters| && k != i ==> clusters[k].id != a.id;
      assert 0 <= k < |clusters| && k != j ==> clusters[k].id != b.id;
    }
    if froms[i].Some? {
      var k := Start(time, clusters, froms, i);
      assert IsOlder(b, clusters, time, k) && froms[j].Some?;
      var m := Start(time, clusters, froms, j);
      assert IsOlder(a, clusters, time, m);
      BothWays(Stamp(time, froms[i].value), Stamp(time, froms[j].value));
    }
  }

  lemma RisingOwnsTips(position: Sha -> nat, time: Sha -> int, clusters: seq<Cluster>, froms: seq<Option<Sha>>)
    requires Ranges(clusters, time, froms) && TipsRise(position, time, clusters)
    ensures TipsAreOwn(position, clusters, froms)
  {
    forall i | 0 <= i < |clusters| ensures CoveredBy(position, clusters, froms, position(clusters[i].tip), i) {
      if froms[i].Some? {
        var k := Start(time, clusters, froms, i);
        assert Rises(position, time, clusters[i].tip, clusters[k].tip);
      }
    }
  }

  /** Of two clusters in rising order, the later starts no earlier than the other's tip. */
  lemma RisingStartsBehind(
      position: Sha -> nat, time: Sha -> int, clusters: seq<Cluster>, froms: seq<Option<Sha>>, i: nat, j: nat)
    requires DistinctIds(clusters) && Ranges(clusters, time, froms) && TipsRise(position, time, clusters)
    requires i < |clusters| && j < |clusters| && i != j && position(clusters[i].tip) <= position(clusters[j].tip)
    ensures froms[j].Some? && position(clusters[i].tip) <= position(froms[j].value)
  {
    assert Rises(position, time, clusters[i].tip, clusters[j].tip);
    StartsNoEarlier(time, clusters, froms, i, j);
    var k := Start(time, clusters, froms, j);
    if k != i { assert Rises(position, time, clusters[k].tip, clusters[i].tip); }
  }

  lemma RisingIsDisjoint(position: Sha -> nat, time: Sha -> int, clusters: seq<Cluster>, froms: seq<Option<Sha>>)
    requires DistinctIds(clusters) && Ranges(clusters, time, froms) && TipsRise(position, time, clusters)
    ensures Disjoint(position, clusters, froms)
  {
    forall p, i, j | CoveredBy(position, clusters, froms, p, i) && CoveredBy(position, clusters, froms, p, j)
      ensures i == j
    {
      if i < j || j < i {
        if position(clusters[i].tip) <= position(clusters[j].tip) {
          RisingStartsBehind(position, time, clusters, froms, i, j);
        } else {
          RisingStartsBehind(position, time, clusters, froms, j, i);
        }
      }
    }
  }

  lemma EqualTimesShare(
      position: Sha -> nat, time: Sha -> int, clusters: seq<Cluster>, froms: seq<Option<Sha>>, i: nat, j: nat)
    requires DistinctIds(clusters) && Ranges(clusters, time, froms) && TipsAreOwn(position, clusters, froms)
    requires i < |clusters| && j < |clusters|
    ensures time(clusters[i].tip) == time(clusters[j].tip) && position(clusters[i].tip) <= position(clusters[j].tip) ==>
              CoveredBy(position, clusters, froms, position(clusters[i].tip), j)
  {
    assert CoveredBy(position, clusters, froms, position(clusters[i].tip), i);
    if time(clusters[i].tip) == time(clusters[j].tip) { EqualTimesStartTogether(time, clusters, froms, i, j); }
  }

  /** Where sections are apart and own their tips, a tip that lies earlier has the earlier time. */
  lemma {:induction false} ApartRises(
      position: Sha -> nat, time: Sha -> int, clusters: seq<Cluster>, froms: seq<Option<Sha>>, i: nat, j: nat)
    requires DistinctIds(clusters) && Ranges(clusters, time, froms)
    requires TipsAreOwn(position, clusters, froms) && Disjoint(position, clusters, froms)
    requires i < |clusters| && j < |clusters| && i != j
    ensures Rises(position, time, clusters[i].tip, clusters[j].tip)
    decreases time(clusters[i].tip) - time(clusters[j].tip)
  {
    var a, b := clusters[i].tip, clusters[j].tip;
    assert CoveredBy(position, clusters, froms, position(a), i) && CoveredBy(position, clusters, froms, position(b), j);
    EqualTimesShare(position, time, clusters, froms, i, j);
    if position(a) <= position(b) {
      assert position(a) < position(b);
      if time(a) > time(b) {
        StartsNoEarlier(time, clusters, froms, j, i);
        var k := Start(time, clusters, froms, i);
        if k != j { ApartRises(position, time, clusters, froms, k, j); }
      }
    }
  }

  /** On one line of history, whatever the times of its commits: each cluster's closing commit is in its own section
      and no commit is in two, exactly when tips that lie later have later times and no two are the same commit.  With
      CoveredIff, the sections then partition the commits up to the newest tip. */
  lemma PartitionIff(position: Sha -> nat, time: Sha -> int, clusters: seq<Cluster>, froms: seq<Option<Sha>>)
    requires DistinctIds(clusters) && Ranges(clusters, time, froms)
    ensures TipsRise(position, time, clusters) <==>
            TipsAreOwn(position, clusters, froms) && Disjoint(position, clusters, froms)
  {
    if TipsRise(position, time, clusters) {
      RisingOwnsTips(position, time, clusters, froms);
      RisingIsDisjoint(position, time, clusters, froms);
    }
    if TipsAreOwn(position, clusters, froms) && Disjoint(position, clusters, froms) {
      forall i, j | 0 <= i < |clusters| && 0 <= j < |clusters| && i != j
        ensures Rises(position, time, clusters[i].tip, clusters[j].tip)
      {
        ApartRises(position, time, clusters, froms, i, j);
      }
    }
  }

  /** Two different tips of the same second: both sections start at the beginning and share the earlier commits. */
  lemma EqualSecondsOverlap(
      position: Sha -> nat, time: Sha -> int, clusters: seq<Cluster>, froms: seq<Option<Sha>>, p: nat)
    requires |clusters| == 2 && DistinctIds(clusters) && Ranges(clusters, time, froms)
    requires time(clusters[0].tip) == time(clusters[1].tip)
    requires p <= position(clusters[0].tip) < position(clusters[1].tip)
    ensures froms == [None, None]
    ensures CoveredBy(position, clusters, froms, p, 0) && CoveredBy(position, clusters, froms, p, 1)
  {
    assert StartsAfter(clusters[0], clusters, time, froms[0]) && StartsAfter(clusters[1], clusters, time, froms[1]);
    assert froms[0].None? && froms[1].None?;
  }

  /** A later tip with an earlier time: the earlier cluster's section is empty. */
  lemma EarlierTimeEmptiesSection(
      position: Sha -> nat, time: Sha -> int, clusters: seq<Cluster>, froms: seq<Option<Sha>>, p: nat)
    requires |clusters| == 2 && DistinctIds(clusters) && Ranges(clusters, time, froms)
    requires position(clusters[0].tip) < position(clusters[1].tip) && time(clusters[1].tip) < time(clusters[0].tip)
    ensures !CoveredBy(position, clusters, froms, p, 0)
  {
    StartsNoEarlier(time, clusters, froms, 1, 0);
    var k := Start(time, clusters, froms, 0);
  }
}
