/** Which cluster each phase number belongs to: listed ranges first, gaps to the cluster below. */
module PhaseRanges {
  import opened Wrappers
  import opened Sorting
  import opened Pairs

  type Id = string

  datatype Cluster = Cluster(id: Id, phases: string)

  /** The numbers of a cluster's range, both ends included; empty when hi < lo. */
  datatype Range = Range(lo: int, hi: int, id: Id)

  /** The language's conversion of a text to an integer; None when it raises. */
  type ToInt = string -> Option<int>

  function UpTo(s: string, stop: char): (t: string)
    ensures stop !in t && t <= s && (t == s || s[|t|] == stop)
  {
    if s == "" || s[0] == stop then "" else [s[0]] + UpTo(s[1..], stop)
  }

  /** "12.5-17" reads as 12 to 17, "17" as 17 alone; only the first dash separates. */
  function RangeOf(c: Cluster, toInt: ToInt): Option<Range> {
    var lo := UpTo(c.phases, '-');
    if lo == c.phases then
      var n := toInt(UpTo(c.phases, '.'));
      if n.None? then None else Some(Range(n.value, n.value, c.id))
    else
      var a, b := toInt(UpTo(lo, '.')), toInt(UpTo(c.phases[|lo| + 1..], '.'));
      if a.None? || b.None? then None else Some(Range(a.value, b.value, c.id))
  }

  predicate AllParse(clusters: seq<Cluster>, toInt: ToInt) {
    forall i :: 0 <= i < |clusters| ==> RangeOf(clusters[i], toInt).Some?
  }

  function RangesOf(clusters: seq<Cluster>, toInt: ToInt): (rs: seq<Range>)
    requires AllParse(clusters, toInt)
    ensures |rs| == |clusters|
  {
    seq(|clusters|, i requires 0 <= i < |clusters| => RangeOf(clusters[i], toInt).value)
  }

  predicate Covers(r: Range, n: int) { r.lo <= n <= r.hi }

  predicate Listed(rs: seq<Range>, n: int) {
    exists i :: 0 <= i < |rs| && Covers(rs[i], n)
  }

  /** A listed phase belongs to the last cluster that lists it. */
  ghost predicate LastListing(rs: seq<Range>, n: int, id: Id) {
    exists i :: 0 <= i < |rs| && Covers(rs[i], n) && rs[i].id == id && forall j :: i < j < |rs| ==> !Covers(rs[j], n)
  }

  /** The bound a gap is compared with, and the name. */
  function UpperOf(r: Range): Pair { Pair(r.hi, r.id) }

  function Uppers(rs: seq<Range>): seq<Pair> {
    seq(|rs|, i requires 0 <= i < |rs| => UpperOf(rs[i]))
  }

  /** A gap goes to the cluster with the greatest upper bound below it; with none below, to the least of all. */
  ghost predicate GapGoesTo(us: seq<Pair>, n: int, id: Id) {
    || (exists u :: u in us && u.name == id && u.number < n && forall v :: v in us && v.number < n ==> NoLater(v, u))
    || (exists u :: u in us && u.name == id && forall v :: v in us ==> v.number >= n && NoLater(u, v))
  }

  ghost predicate IsMax(us: seq<Pair>, m: int) {
    (exists u :: u in us && u.number == m) && forall v :: v in us ==> v.number <= m
  }

  /** What the finished map says of every integer. */
  ghost predicate PhaseMap(rs: seq<Range>, m: map<int, Id>) {
    var us := Uppers(rs);
    exists top :: IsMax(us, top) && forall n: int ::
      && (n in m <==> Listed(rs, n) || 0 <= n <= top)
      && (Listed(rs, n) ==> n in m && LastListing(rs, n, m[n]))
      && (!Listed(rs, n) && 0 <= n <= top ==> n in m && GapGoesTo(us, n, m[n]))
  }

  // The two loops over the clusters and over the gaps

  method ParsePhaseRanges(clusters: seq<Cluster>, toInt: ToInt) returns (r: Option<map<int, Id>>)
    ensures r.None? <==> clusters == [] || !AllParse(clusters, toInt)
    ensures r.Some? ==> PhaseMap(RangesOf(clusters, toInt), r.value)
  {
    var mapping, explicit, ok := ListClusters(clusters, toInt);
    if !ok || clusters == [] { return None; }
    mapping := FillGaps(RangesOf(clusters, toInt), mapping, explicit);
    return Some(mapping);
  }

  /** Every listed phase, later clusters overriding earlier ones, and the upper bounds. */
  method ListClusters(clusters: seq<Cluster>, toInt: ToInt)
      returns (mapping: map<int, Id>, explicit: seq<Pair>, ok: bool)
    ensures ok <==> AllParse(clusters, toInt)
    ensures ok ==> ListedOnly(RangesOf(clusters, toInt), mapping) && explicit == Uppers(RangesOf(clusters, toInt))
  {
    mapping, explicit := map[], [];
    ghost var rs: seq<Range> := [];
    for i := 0 to |clusters|
      invariant |rs| == i && explicit == Uppers(rs)
      invariant forall j :: 0 <= j < i ==> RangeOf(clusters[j], toInt) == Some(rs[j])
      invariant ListedOnly(rs, mapping)
    {
      var range := RangeOf(clusters[i], toInt);
      if range.None? { return mapping, explicit, false; }
      ghost var was := mapping;
      mapping := PutRange(mapping, range.value);
      ListAnother(rs, was, range.value, mapping);
      rs := rs + [range.value];
      explicit := explicit + [UpperOf(range.value)];
    }
    ok := true;
    assert rs == RangesOf(clusters, toInt);
  }

  method FillGaps(ghost rs: seq<Range>, listed: map<int, Id>, uppers: seq<Pair>) returns (mapping: map<int, Id>)
    requires rs != [] && ListedOnly(rs, listed) && uppers == Uppers(rs)
    ensures PhaseMap(rs, mapping)
  {
    NoLaterIsOrder(uppers);
    SortSorts(uppers, NoLater);
    SortPermutes(uppers, NoLater);
    var explicit := Sort(uppers, NoLater);
    SortedPicks(uppers, explicit);
    var maxPhase := explicit[|explicit| - 1].number;
    mapping := listed;
    if maxPhase >= 0 {
      for n := 0 to maxPhase + 1
        invariant GapsFilled(uppers, listed, mapping, n)
      {
        if n !in mapping {
          var fallback := Fallback(explicit, n);
          GapPicks(uppers, explicit, n, fallback);
          mapping := mapping[n := fallback];
        }
      }
    }
    FilledIsPhaseMap(rs, listed, mapping, maxPhase);
  }

  method PutRange(mapping: map<int, Id>, range: Range) returns (m: map<int, Id>)
    ensures forall n :: n in m <==> n in mapping || Covers(range, n)
    ensures forall n :: n in m ==> m[n] == if Covers(range, n) then range.id else mapping[n]
  {
    m := mapping;
    var n := range.lo;
    while n <= range.hi
      invariant range.lo <= n
      invariant forall k :: k in m <==> k in mapping || (Covers(range, k) && k < n)
      invariant forall k :: k in m ==> m[k] == if Covers(range, k) && k < n then range.id else mapping[k]
      decreases range.hi - n
    {
      m := m[n := range.id];
      n := n + 1;
    }
  }

  /** The last entry with an upper bound below n, or else the first. */
  method Fallback(explicit: seq<Pair>, n: int) returns (id: Id)
    requires explicit != []
    ensures FallbackIs(explicit, n, id)
  {
    id := explicit[0].name;
    for i := 0 to |explicit|
      invariant if exists j :: 0 <= j < i && explicit[j].number < n
                then exists j :: LastBelow(explicit[..i], n, j) && explicit[j].name == id
                else id == explicit[0].name
    {
      if explicit[i].number < n {
        id := explicit[i].name;
        assert LastBelow(explicit[..i + 1], n, i);
      } else {
        assert forall j :: LastBelow(explicit[..i], n, j) ==> LastBelow(explicit[..i + 1], n, j);
      }
    }
    assert explicit[..|explicit|] == explicit;
  }

  ghost predicate LastBelow(us: seq<Pair>, n: int, i: int) {
    0 <= i < |us| && us[i].number < n && forall j :: i < j < |us| ==> us[j].number >= n
  }

  ghost predicate FallbackIs(us: seq<Pair>, n: int, id: Id)
    requires us != []
  {
    if exists j :: 0 <= j < |us| && us[j].number < n then exists j :: LastBelow(us, n, j) && us[j].name == id
    else us[0].name == id
  }

  // Why the loops do what the map promises

  ghost predicate ListedOnly(rs: seq<Range>, m: map<int, Id>) {
    forall n :: (n in m <==> Listed(rs, n)) && (n in m ==> LastListing(rs, n, m[n]))
  }

  lemma ListAnother(rs: seq<Range>, before: map<int, Id>, r: Range, after: map<int, Id>)
    requires ListedOnly(rs, before)
    requires forall n :: n in after <==> n in before || Covers(r, n)
    requires forall n :: n in after ==> after[n] == if Covers(r, n) then r.id else before[n]
    ensures ListedOnly(rs + [r], after)
  {
    var more := rs + [r];
    forall n ensures (n in after <==> Listed(more, n)) && (n in after ==> LastListing(more, n, after[n])) {
      assert Covers(r, n) ==> Covers(more[|rs|], n);
      assert Listed(rs, n) ==> Listed(more, n) by {
        if Listed(rs, n) {
          var i :| 0 <= i < |rs| && Covers(rs[i], n);
          assert Covers(more[i], n);
        }
      }
      if n in after && !Covers(r, n) {
        var i :| 0 <= i < |rs| && Covers(rs[i], n) && rs[i].id == before[n] && forall j :: i < j < |rs| ==> !Covers(rs[j], n);
        assert Covers(more[i], n) && more[i].id == after[n];
      }
    }
  }

  ghost predicate GapsFilled(us: seq<Pair>, listed: map<int, Id>, m: map<int, Id>, n: int) {
    forall k ::
      && (k in m <==> k in listed || 0 <= k < n)
      && (k in listed ==> k in m && m[k] == listed[k])
      && (k !in listed && 0 <= k < n ==> k in m && GapGoesTo(us, k, m[k]))
  }

  /** In sorted order the last entry below n is the greatest below it, and the first is the least. */
  lemma GapPicks(us: seq<Pair>, sorted: seq<Pair>, n: int, id: Id)
    requires SortedBy(NoLater, sorted) && sorted != [] && (forall u :: u in sorted <==> u in us)
    requires FallbackIs(sorted, n, id)
    ensures GapGoesTo(us, n, id)
  {
    forall x ensures NoLater(x, x) { TextLessIsTotal(CodePoints(x.name), CodePoints(x.name)); }
    if exists j :: 0 <= j < |sorted| && sorted[j].number < n {
      var i :| LastBelow(sorted, n, i) && sorted[i].name == id;
      forall v | v in us && v.number < n ensures NoLater(v, sorted[i]) {
        var j :| 0 <= j < |sorted| && sorted[j] == v;
        assert j <= i;
      }
      assert sorted[i] in us;
    } else {
      forall v | v in us ensures v.number >= n && NoLater(sorted[0], v) {
        var j :| 0 <= j < |sorted| && sorted[j] == v;
      }
      assert sorted[0] in us;
    }
  }

  lemma SortedPicks(us: seq<Pair>, sorted: seq<Pair>)
    requires us != [] && SortedBy(NoLater, sorted) && (forall u :: u in sorted <==> u in us)
    ensures sorted != [] && IsMax(us, sorted[|sorted| - 1].number)
  {
    assert us[0] in sorted;
    assert sorted[|sorted| - 1] in us;
    forall v | v in us ensures v.number <= sorted[|sorted| - 1].number {
      var j :| 0 <= j < |sorted| && sorted[j] == v;
    }
  }

  lemma FilledIsPhaseMap(rs: seq<Range>, listed: map<int, Id>, m: map<int, Id>, top: int)
    requires ListedOnly(rs, listed) && IsMax(Uppers(rs), top)
    requires if top >= 0 then GapsFilled(Uppers(rs), listed, m, top + 1) else m == listed
    ensures PhaseMap(rs, m)
  {
  }

  // Consequences

  /** Every phase up to the greatest upper bound has a cluster, and it is one of the list. */
  lemma EveryPhaseHasACluster(rs: seq<Range>, m: map<int, Id>, n: int)
    requires PhaseMap(rs, m) && 0 <= n && exists r :: r in rs && n <= r.hi
    ensures n in m && exists r :: r in rs && r.id == m[n]
  {
    var us := Uppers(rs);
    var top :| IsMax(us, top) && forall n: int ::
      && (n in m <==> Listed(rs, n) || 0 <= n <= top)
      && (Listed(rs, n) ==> n in m && LastListing(rs, n, m[n]))
      && (!Listed(rs, n) && 0 <= n <= top ==> n in m && GapGoesTo(us, n, m[n]));
    var r :| r in rs && n <= r.hi;
    var i :| 0 <= i < |rs| && rs[i] == r;
    assert us[i] in us && us[i].number == r.hi;
    assert n in m;
    if Listed(rs, n) {
      var k :| 0 <= k < |rs| && Covers(rs[k], n) && rs[k].id == m[n];
      assert rs[k] in rs;
    } else {
      assert GapGoesTo(us, n, m[n]);
      var u :| u in us && u.name == m[n];
      var k :| 0 <= k < |us| && us[k] == u;
      assert rs[k].id == u.name && rs[k] in rs;
    }
  }

  /** A phase that clusters of one name list belongs to that name, wherever in the list they stand. */
  lemma DisjointListingIsExact(rs: seq<Range>, m: map<int, Id>, r: Range, n: int)
    requires PhaseMap(rs, m) && r in rs && Covers(r, n)
    requires forall q :: q in rs && Covers(q, n) ==> q.id == r.id
    ensures n in m && m[n] == r.id
  {
    var i :| 0 <= i < |rs| && rs[i] == r;
    assert Covers(rs[i], n);
    assert Listed(rs, n);
    assert LastListing(rs, n, m[n]);
  }

  // What the clusters' texts say

  /** The digits before a dot, or all of a text without one. */
  ghost predicate BeforeDot(s: string, head: string) {
    '.' !in head && (s == head || (exists rest :: s == head + ("." + rest)))
  }

  lemma {:induction false} UpToIs(head: string, stop: char, rest: string)
    requires stop !in head
    ensures UpTo(head, stop) == head && UpTo(head + ([stop] + rest), stop) == head
  {
    var s := head + ([stop] + rest);
    if head == "" {
      assert s == [stop] + rest;
    } else {
      assert s[1..] == head[1..] + ([stop] + rest) && s[0] == head[0];
      UpToIs(head[1..], stop, rest);
      assert head == [head[0]] + head[1..];
    }
  }

  lemma BeforeDotIs(s: string, head: string)
    requires BeforeDot(s, head)
    ensures UpTo(s, '.') == head
  {
    UpToIs(head, '.', "");
    if s != head {
      var rest :| s == head + ("." + rest);
      UpToIs(head, '.', rest);
    }
  }

  lemma DashedParts(s: string, a: string, b: string)
    requires s == a + ("-" + b) && '-' !in a
    ensures UpTo(s, '-') == a && a != s && s[|a| + 1..] == b
  {
    UpToIs(a, '-', b);
  }

  /** "a-b": from the number before a's dot to the number before b's dot. */
  lemma DashedRange(c: Cluster, toInt: ToInt, a: string, b: string, lo: string, hi: string)
    requires c.phases == a + ("-" + b) && '-' !in a && BeforeDot(a, lo) && BeforeDot(b, hi)
    ensures RangeOf(c, toInt).Some? <==> toInt(lo).Some? && toInt(hi).Some?
    ensures toInt(lo).Some? && toInt(hi).Some? ==> RangeOf(c, toInt) == Some(Range(toInt(lo).value, toInt(hi).value, c.id))
  {
    DashedParts(c.phases, a, b);
    BeforeDotIs(a, lo);
    BeforeDotIs(b, hi);
  }

  /** A text without a dash: the number before its dot, alone. */
  lemma SingleRange(c: Cluster, toInt: ToInt, n: string)
    requires '-' !in c.phases && BeforeDot(c.phases, n)
    ensures RangeOf(c, toInt).Some? <==> toInt(n).Some?
    ensures toInt(n).Some? ==> RangeOf(c, toInt) == Some(Range(toInt(n).value, toInt(n).value, c.id))
  {
    UpToIs(c.phases, '-', "");
    BeforeDotIs(c.phases, n);
  }

  /** Of the ranges r is the one a gap falls to: the greatest upper end below n, and of equal ends the last name. */
  ghost predicate NearestBelow(rs: seq<Range>, n: int, r: Range) {
    r in rs && r.hi < n
    && forall q :: q in rs && q.hi < n ==> q.hi < r.hi || (q.hi == r.hi && (q.id == r.id || NameBefore(q.id, r.id)))
  }

  ghost predicate LeastOfAll(rs: seq<Range>, n: int, r: Range) {
    r in rs
    && forall q :: q in rs ==> q.hi >= n && (r.hi < q.hi || (q.hi == r.hi && (q.id == r.id || NameBefore(r.id, q.id))))
  }

  lemma UpperIsOfRange(rs: seq<Range>, u: Pair) returns (r: Range)
    requires u in Uppers(rs)
    ensures r in rs && u == UpperOf(r)
  {
    var i :| 0 <= i < |Uppers(rs)| && Uppers(rs)[i] == u;
    r := rs[i];
  }

  lemma RangeHasUpper(rs: seq<Range>, q: Range)
    requires q in rs
    ensures UpperOf(q) in Uppers(rs)
  {
    var i :| 0 <= i < |rs| && rs[i] == q;
    assert Uppers(rs)[i] == UpperOf(q);
  }

  /** A phase no cluster lists goes to the nearest range below it, or to the least when none is below. */
  lemma GapGoesBelow(rs: seq<Range>, m: map<int, Id>, n: int)
    requires PhaseMap(rs, m) && n in m && !Listed(rs, n)
    ensures exists r: Range :: r.id == m[n] && (NearestBelow(rs, n, r) || LeastOfAll(rs, n, r))
  {
    var us := Uppers(rs);
    assert GapGoesTo(us, n, m[n]);
    forall q: Range | q in rs ensures UpperOf(q) in us { RangeHasUpper(rs, q); }
    if u: Pair :| u in us && u.name == m[n] && u.number < n && forall v :: v in us && v.number < n ==> NoLater(v, u) {
      var r := UpperIsOfRange(rs, u);
      forall q: Range | q in rs && q.hi < n ensures q.hi < r.hi || (q.hi == r.hi && (q.id == r.id || NameBefore(q.id, r.id))) {
        NoLaterIff(UpperOf(q), u);
      }
      assert NearestBelow(rs, n, r);
    } else {
      var u :| u in us && u.name == m[n] && forall v :: v in us ==> v.number >= n && NoLater(u, v);
      var r := UpperIsOfRange(rs, u);
      forall q: Range | q in rs ensures q.hi >= n && (r.hi < q.hi || (q.hi == r.hi && (q.id == r.id || NameBefore(r.id, q.id)))) {
        NoLaterIff(u, UpperOf(q));
      }
      assert LeastOfAll(rs, n, r);
    }
  }
}
