/** What the section scanner keeps of its input, and that nothing it keeps goes astray. */
module DevlogPartition {
  import opened Wrappers
  import opened Text
  import opened Sorting
  import opened PhaseRanges
  import opened DevlogSplit

  // Lines

  /** A section heading is kept, a bucket heading is not, and any other line shares the lot of the line before it. */
  predicate Keeps(lines: seq<string>, rules: Rules, k: nat)
    requires k < |lines|
  {
    match rules(lines[k])
    case Bucket(_) => false
    case Plain => k > 0 && Keeps(lines, rules, k - 1)
    case _ => true
  }

  /** Kept lines are those after a section heading with no bucket heading since. */
  lemma {:induction false} KeepsIff(lines: seq<string>, rules: Rules, k: nat)
    requires k < |lines|
    ensures Keeps(lines, rules, k) <==>
            exists h :: 0 <= h <= k && IsHeading(rules(lines[h])) && forall j :: h < j <= k ==> !rules(lines[j]).Bucket?
  {
    if k > 0 && rules(lines[k]).Plain? {
      KeepsIff(lines, rules, k - 1);
      if Keeps(lines, rules, k - 1) {
        var h :| 0 <= h <= k - 1 && IsHeading(rules(lines[h])) && forall j :: h < j <= k - 1 ==> !rules(lines[j]).Bucket?;
        assert forall j :: h < j <= k ==> !rules(lines[j]).Bucket?;
      }
    }
  }

  function KeptFrom(lines: seq<string>, rules: Rules, i: nat): seq<string>
    requires i <= |lines|
    decreases |lines| - i
  {
    if i == |lines| then []
    else (if Keeps(lines, rules, i) then [lines[i]] else []) + KeptFrom(lines, rules, i + 1)
  }

  /** The lines of all sections, one section after the other. */
  function LinesOf(lines: seq<string>, ss: seq<Section>): seq<string>
    requires forall k :: 0 <= k < |ss| ==> ss[k].first <= ss[k].last <= |lines|
  {
    if ss == [] then [] else lines[ss[0].first..ss[0].last] + LinesOf(lines, ss[1..])
  }

  /** The kept lines that belong to a section opened before line i. */
  function Carried(lines: seq<string>, rules: Rules, i: nat): seq<string>
    requires i <= |lines|
  {
    if i > 0 && Keeps(lines, rules, i - 1) then lines[i..End(lines, rules, i)] else []
  }

  lemma HeadingLine(lines: seq<string>, rules: Rules, i: nat)
    requires i < |lines| && IsHeading(rules(lines[i]))
    ensures [lines[i]] + (Carried(lines, rules, i + 1) + LinesOf(lines, SectionsFrom(lines, rules, i + 1)))
            == Carried(lines, rules, i) + LinesOf(lines, SectionsFrom(lines, rules, i))
  {
    var e, more := End(lines, rules, i + 1), SectionsFrom(lines, rules, i + 1);
    assert lines[i..e] == [lines[i]] + lines[i + 1..e];
    Regroup([lines[i]], lines[i + 1..e], LinesOf(lines, more));
    SectionAhead(lines, rules, i);
    assert Carried(lines, rules, i) == [] && Carried(lines, rules, i + 1) == lines[i + 1..e];
  }

  lemma SectionAhead(lines: seq<string>, rules: Rules, i: nat)
    requires i < |lines| && IsHeading(rules(lines[i]))
    ensures LinesOf(lines, SectionsFrom(lines, rules, i))
            == lines[i..End(lines, rules, i + 1)] + LinesOf(lines, SectionsFrom(lines, rules, i + 1))
  {
    var ss := SectionsFrom(lines, rules, i);
    assert ss[0] == SectionAt(lines, rules, i) && ss[1..] == SectionsFrom(lines, rules, i + 1);
  }

  lemma KeptAhead(lines: seq<string>, rules: Rules, i: nat)
    requires i < |lines|
    ensures KeptFrom(lines, rules, i) == (if Keeps(lines, rules, i) then [lines[i]] else []) + KeptFrom(lines, rules, i + 1)
    ensures IsHeading(rules(lines[i])) ==> Keeps(lines, rules, i)
  {
  }

  lemma OtherLine(lines: seq<string>, rules: Rules, i: nat)
    requires i < |lines| && !IsHeading(rules(lines[i]))
    ensures (if Keeps(lines, rules, i) then [lines[i]] else [])
            + (Carried(lines, rules, i + 1) + LinesOf(lines, SectionsFrom(lines, rules, i + 1)))
            == Carried(lines, rules, i) + LinesOf(lines, SectionsFrom(lines, rules, i))
  {
    var e := End(lines, rules, i + 1);
    var x, c := if Keeps(lines, rules, i) then [lines[i]] else [], Carried(lines, rules, i + 1);
    assert lines[i..e] == [lines[i]] + lines[i + 1..e];
    assert Carried(lines, rules, i) == x + c;
    assert SectionsFrom(lines, rules, i) == SectionsFrom(lines, rules, i + 1);
    Regroup(x, c, LinesOf(lines, SectionsFrom(lines, rules, i)));
  }

  lemma {:induction false} SectionsReproduceFrom(lines: seq<string>, rules: Rules, i: nat)
    requires i <= |lines|
    ensures KeptFrom(lines, rules, i) == Carried(lines, rules, i) + LinesOf(lines, SectionsFrom(lines, rules, i))
    decreases |lines| - i
  {
    if i < |lines| {
      SectionsReproduceFrom(lines, rules, i + 1);
      KeptAhead(lines, rules, i);
      if IsHeading(rules(lines[i])) { HeadingLine(lines, rules, i); } else { OtherLine(lines, rules, i); }
    }
  }

  /** The sections, in order, reproduce exactly the kept lines, each once and in order. */
  lemma SectionsReproduceKeptLines(lines: seq<string>, rules: Rules)
    ensures LinesOf(lines, SectionsFrom(lines, rules, 0)) == KeptFrom(lines, rules, 0)
  {
    SectionsReproduceFrom(lines, rules, 0);
  }

  // Buckets

  predicate Names(k: Kind, name: string) { k == Bucket(name) || (k.Older? && k.prefix == Some(name)) }

  predicate NamesOne(k: Kind) { k.Bucket? || (k.Older? && k.prefix.Some?) }

  ghost predicate LastToName(lines: seq<string>, rules: Rules, i: nat, j: int)
    requires i < |lines|
  {
    0 <= j <= i && NamesOne(rules(lines[j])) && forall m :: j < m <= i ==> !NamesOne(rules(lines[m]))
  }

  /** The bucket in force is that of the last line to name one, and Misc before any has. */
  lemma {:induction false} BucketInForce(lines: seq<string>, rules: Rules, i: nat, name: string)
    requires i < |lines|
    ensures BucketAt(lines, rules, i) == name <==>
            || (exists j :: LastToName(lines, rules, i, j) && Names(rules(lines[j]), name))
            || (name == "Misc" && forall m :: 0 <= m <= i ==> !NamesOne(rules(lines[m])))
  {
    if i > 0 && !NamesOne(rules(lines[i])) {
      BucketInForce(lines, rules, i - 1, name);
      forall j ensures LastToName(lines, rules, i, j) <==> LastToName(lines, rules, i - 1, j) {}
    } else {
      assert NamesOne(rules(lines[i])) ==> LastToName(lines, rules, i, i);
    }
  }

  /** The bucket that each section carries into its entry is the one in force at its first line. */
  lemma {:induction false} SectionsCarryTheirBucket(lines: seq<string>, rules: Rules, i: nat)
    requires i <= |lines|
    ensures forall k :: 0 <= k < |SectionsFrom(lines, rules, i)| ==>
              var s := SectionsFrom(lines, rules, i)[k];
              && s.bucket == BucketAt(lines, rules, s.first) && s.last == End(lines, rules, s.first + 1)
              && IsHeading(rules(lines[s.first])) && s.phase == rules(lines[s.first]).phase
    decreases |lines| - i
  {
    if i < |lines| { SectionsCarryTheirBucket(lines, rules, i + 1); }
  }

  ghost predicate Ascending(ss: seq<Section>) {
    forall a, b :: 0 <= a < b < |ss| ==> ss[a].first < ss[b].first
  }

  lemma {:induction false} SectionsAscend(lines: seq<string>, rules: Rules, i: nat)
    requires i <= |lines|
    ensures Ascending(SectionsFrom(lines, rules, i))
    decreases |lines| - i
  {
    if i < |lines| {
      SectionsAscend(lines, rules, i + 1);
      var ss, more := SectionsFrom(lines, rules, i), SectionsFrom(lines, rules, i + 1);
      if IsHeading(rules(lines[i])) {
        forall a, b | 0 <= a < b < |ss| ensures ss[a].first < ss[b].first {
          assert ss[b] == more[b - 1] && (a > 0 ==> ss[a] == more[a - 1]);
        }
      }
    }
  }

  /** Sections do not overlap: each ends before the next starts. */
  lemma SectionsAreApart(lines: seq<string>, rules: Rules, i: nat)
    requires i <= |lines|
    ensures var ss := SectionsFrom(lines, rules, i); forall a, b :: 0 <= a < b < |ss| ==> ss[a].last <= ss[b].first
  {
    var ss := SectionsFrom(lines, rules, i);
    SectionsCarryTheirBucket(lines, rules, i);
    SectionsAscend(lines, rules, i);
    forall a, b | 0 <= a < b < |ss| ensures ss[a].last <= ss[b].first {
      assert IsHeading(rules(lines[ss[b].first]));
    }
  }

  // Text

  /** Cutting a text at every line feed. */
  function SplitLines(s: string): (ls: seq<string>)
    ensures ls != []
  {
    if s == "" then [""]
    else
      var rest := SplitLines(s[1..]);
      if s[0] == '\n' then [""] + rest else [[s[0]] + rest[0]] + rest[1..]
  }

  lemma JoinAhead(c: char, rest: seq<string>)
    requires rest != []
    ensures JoinLines([""] + rest) == "\n" + JoinLines(rest)
    ensures JoinLines([[c] + rest[0]] + rest[1..]) == [c] + JoinLines(rest)
  {
    assert ([""] + rest)[1..] == rest;
    var ls := [[c] + rest[0]] + rest[1..];
    assert ls[1..] == rest[1..];
    if |rest| > 1 { Regroup([c], rest[0], "\n" + JoinLines(rest[1..])); }
  }

  lemma {:induction false} JoinRecoversText(s: string)
    ensures JoinLines(SplitLines(s)) == s
    ensures forall i :: 0 <= i < |SplitLines(s)| ==> '\n' !in SplitLines(s)[i]
  {
    if s != "" {
      JoinRecoversText(s[1..]);
      JoinAhead(s[0], SplitLines(s[1..]));
      assert s == [s[0]] + s[1..];
    }
  }

  /** An entry is its breadcrumb and the section's text, of which only white space at the end is lost. */
  lemma EntryKeepsText(lines: seq<string>, s: Section) returns (body: string, space: string)
    requires s.first <= s.last <= |lines|
    ensures EntryOf(lines, s) == "> from CHANGELOG.md (bucket: **" + s.bucket + "**)\n\n" + (body + "\n")
    ensures JoinLines(lines[s.first..s.last]) == body + space
    ensures forall c :: c in space ==> IsPythonSpace(c)
    ensures body != "" ==> !IsPythonSpace(body[|body| - 1])
  {
    var text := JoinLines(lines[s.first..s.last]);
    body := RStrip(text);
    space := text[|body|..];
  }

  /** The entries of a cluster keep the order of the sections. */
  lemma {:induction false} EntriesInOrder(lines: seq<string>, phases: Phases, a: seq<Section>, b: seq<Section>, id: Id)
    requires forall k :: 0 <= k < |a| ==> a[k].first <= a[k].last <= |lines|
    requires forall k :: 0 <= k < |b| ==> b[k].first <= b[k].last <= |lines|
    ensures EntriesOf(lines, phases, a + b, id) == EntriesOf(lines, phases, a, id) + EntriesOf(lines, phases, b, id)
  {
    if b == [] {
      assert a + b == a;
    } else {
      var last := b[|b| - 1];
      assert (a + b)[..|a + b| - 1] == a + b[..|b| - 1] && (a + b)[|a + b| - 1] == last;
      EntriesInOrder(lines, phases, a, b[..|b| - 1], id);
    }
  }

  /** One section is filed under the cluster of its phase, if that is this one. */
  lemma OneEntry(lines: seq<string>, phases: Phases, s: Section, id: Id)
    requires s.first <= s.last <= |lines|
    ensures EntriesOf(lines, phases, [s], id) == if s.phase in phases && phases[s.phase] == id then [EntryOf(lines, s)] else []
  {
    assert [s][..0] == [];
  }

  // Conservation

  function Mapped(phases: Phases, ss: seq<Section>): (n: nat)
    ensures n <= |ss|
  {
    if ss == [] then 0 else Mapped(phases, ss[..|ss| - 1]) + (if ss[|ss| - 1].phase in phases then 1 else 0)
  }

  function Total(lines: seq<string>, phases: Phases, ss: seq<Section>, ids: seq<Id>): nat
    requires forall k :: 0 <= k < |ss| ==> ss[k].first <= ss[k].last <= |lines|
  {
    if ids == [] then 0 else |EntriesOf(lines, phases, ss, ids[0])| + Total(lines, phases, ss, ids[1..])
  }

  lemma {:induction false} TotalOfNone(lines: seq<string>, phases: Phases, ids: seq<Id>)
    ensures Total(lines, phases, [], ids) == 0
  {
    if ids != [] { TotalOfNone(lines, phases, ids[1..]); }
  }

  /** One more section adds one entry to one cluster, or none. */
  lemma {:induction false} OneMore(lines: seq<string>, phases: Phases, ss: seq<Section>, ids: seq<Id>)
    requires ss != [] && Distinct(ids) && forall k :: 0 <= k < |ss| ==> ss[k].first <= ss[k].last <= |lines|
    ensures var last := ss[|ss| - 1];
            Total(lines, phases, ss, ids) == Total(lines, phases, ss[..|ss| - 1], ids)
              + (if last.phase in phases && phases[last.phase] in ids then 1 else 0)
  {
    if ids != [] {
      OneMore(lines, phases, ss, ids[1..]);
      DistinctFromTail(ids);
      assert ids == [ids[0]] + ids[1..];
    }
  }

  /** Every section whose phase has a cluster is filed exactly once over all clusters. */
  lemma {:induction false} FiledExactlyOnce(lines: seq<string>, phases: Phases, ss: seq<Section>, ids: seq<Id>)
    requires forall k :: 0 <= k < |ss| ==> ss[k].first <= ss[k].last <= |lines|
    requires Distinct(ids) && forall n :: n in phases ==> phases[n] in ids
    ensures Total(lines, phases, ss, ids) == Mapped(phases, ss)
  {
    if ss == [] {
      TotalOfNone(lines, phases, ids);
    } else {
      FiledExactlyOnce(lines, phases, ss[..|ss| - 1], ids);
      OneMore(lines, phases, ss, ids);
    }
  }

  lemma {:induction false} AllMapped(phases: Phases, ss: seq<Section>)
    requires forall k :: 0 <= k < |ss| ==> ss[k].phase in phases
    ensures Mapped(phases, ss) == |ss|
  {
    if ss != [] { AllMapped(phases, ss[..|ss| - 1]); }
  }

  /** With the phase map of the clusters, no section up to their greatest phase is dropped: the entries number
      the section headings. */
  lemma NothingIsDropped(lines: seq<string>, rules: Rules, ranges: seq<Range>, phases: Phases, ids: seq<Id>, top: int)
    requires PhaseMap(ranges, phases) && Distinct(ids) && forall n :: n in phases ==> phases[n] in ids
    requires exists r :: r in ranges && top <= r.hi
    requires forall i :: 0 <= i < |lines| && IsHeading(rules(lines[i])) ==> rules(lines[i]).phase <= top
    ensures var ss := SectionsFrom(lines, rules, 0); Total(lines, phases, ss, ids) == |ss|
  {
    var ss := SectionsFrom(lines, rules, 0);
    SectionsCarryTheirBucket(lines, rules, 0);
    forall k | 0 <= k < |ss| ensures ss[k].phase in phases {
      EveryPhaseHasACluster(ranges, phases, ss[k].phase);
    }
    FiledExactlyOnce(lines, phases, ss, ids);
    AllMapped(phases, ss);
  }

  lemma {:induction false} MappedIsFiled(lines: seq<string>, phases: Phases, ss: seq<Section>, k: nat)
    requires forall i :: 0 <= i < |ss| ==> ss[i].first <= ss[i].last <= |lines|
    requires k < |ss| && ss[k].phase in phases
    ensures EntryOf(lines, ss[k]) in EntriesOf(lines, phases, ss, phases[ss[k].phase])
  {
    if k < |ss| - 1 { MappedIsFiled(lines, phases, ss[..|ss| - 1], k); }
  }

  /** A section whose phase is listed by one cluster, and by no other, is filed under that one. */
  lemma ListedSectionIsFiledThere(lines: seq<string>, rules: Rules, ranges: seq<Range>, phases: Phases, k: nat, r: Range)
    requires PhaseMap(ranges, phases) && k < |SectionsFrom(lines, rules, 0)|
    requires r in ranges && Covers(r, SectionsFrom(lines, rules, 0)[k].phase)
    requires forall q :: q in ranges && Covers(q, SectionsFrom(lines, rules, 0)[k].phase) ==> q.id == r.id
    ensures var ss := SectionsFrom(lines, rules, 0); EntryOf(lines, ss[k]) in EntriesOf(lines, phases, ss, r.id)
  {
    var ss := SectionsFrom(lines, rules, 0);
    DisjointListingIsExact(ranges, phases, r, ss[k].phase);
    MappedIsFiled(lines, phases, ss, k);
  }
}
