/** The section scanner: a changelog cut into sections, each filed under the cluster of its phase. */
module DevlogSplit {
  import opened Wrappers
  import opened Text
  import opened PhaseRanges

  /** What a line is: a bucket heading never mentions a phase, so no line is of two kinds. */
  datatype Kind =
    | Bucket(name: string)
    | Modern(phase: nat)
    | Older(phase: nat, prefix: Option<string>)
    | Plain

  type Rules = string -> Kind

  predicate IsHeading(k: Kind) { k.Modern? || k.Older? }

  const MISC: string := "Misc"

  // Sections by position

  /** Lines first to last (exclusive), with the bucket in force at the first. */
  datatype Section = Section(first: nat, last: nat, phase: nat, bucket: string)

  /** The first section heading or bucket heading from j on. */
  function End(lines: seq<string>, rules: Rules, j: nat): (e: nat)
    requires j <= |lines|
    ensures j <= e <= |lines| && (forall k :: j <= k < e ==> rules(lines[k]).Plain?)
    ensures e < |lines| ==> !rules(lines[e]).Plain?
    decreases |lines| - j
  {
    if j == |lines| || !rules(lines[j]).Plain? then j else End(lines, rules, j + 1)
  }

  /** The bucket a line leaves in force: a bucket heading names one, and so does an older heading's first word. */
  function BucketAfter(k: Kind, was: string): string {
    match k
    case Bucket(name) => name
    case Older(_, Some(prefix)) => prefix
    case _ => was
  }

  /** The bucket in force at line i, that line included. */
  function BucketAt(lines: seq<string>, rules: Rules, i: nat): string
    requires i < |lines|
  {
    BucketAfter(rules(lines[i]), if i == 0 then MISC else BucketAt(lines, rules, i - 1))
  }

  function BucketBefore(lines: seq<string>, rules: Rules, k: nat): string
    requires k <= |lines|
  {
    if k == 0 then MISC else BucketAt(lines, rules, k - 1)
  }

  function SectionAt(lines: seq<string>, rules: Rules, i: nat): Section
    requires i < |lines| && IsHeading(rules(lines[i]))
  {
    Section(i, End(lines, rules, i + 1), rules(lines[i]).phase, BucketAt(lines, rules, i))
  }

  /** One section per section heading from line i on. */
  function SectionsFrom(lines: seq<string>, rules: Rules, i: nat): (ss: seq<Section>)
    requires i <= |lines|
    ensures forall k :: 0 <= k < |ss| ==> i <= ss[k].first < ss[k].last <= |lines|
    decreases |lines| - i
  {
    if i == |lines| then []
    else (if IsHeading(rules(lines[i])) then [SectionAt(lines, rules, i)] else []) + SectionsFrom(lines, rules, i + 1)
  }

  // What is written for a section

  function RStrip(s: string): (t: string)
    ensures t <= s && (t != "" ==> !IsPythonSpace(t[|t| - 1]))
    ensures forall c :: c in s[|t|..] ==> IsPythonSpace(c)
  {
    if s != "" && IsPythonSpace(s[|s| - 1]) then
      var t := RStrip(s[..|s| - 1]);
      assert s[|t|..] == s[..|s| - 1][|t|..] + [s[|s| - 1]];
      t
    else s
  }

  function JoinLines(ls: seq<string>): string {
    if ls == [] then "" else if |ls| == 1 then ls[0] else ls[0] + ("\n" + JoinLines(ls[1..]))
  }

  function Breadcrumb(bucket: string): string { "> from CHANGELOG.md (bucket: **" + bucket + "**)\n\n" }

  function EntryOf(lines: seq<string>, s: Section): string
    requires s.first <= s.last <= |lines|
  {
    Breadcrumb(s.bucket) + (RStrip(JoinLines(lines[s.first..s.last])) + "\n")
  }

  type Phases = map<int, Id>

  /** The entries of one cluster, in order; a section whose phase has no cluster goes nowhere. */
  function EntriesOf(lines: seq<string>, phases: Phases, ss: seq<Section>, id: Id): seq<string>
    requires forall k :: 0 <= k < |ss| ==> ss[k].first <= ss[k].last <= |lines|
  {
    if ss == [] then []
    else
      var last := ss[|ss| - 1];
      EntriesOf(lines, phases, ss[..|ss| - 1], id)
      + (if last.phase in phases && phases[last.phase] == id then [EntryOf(lines, last)] else [])
  }

  function Filed(m: map<Id, seq<string>>, id: Id): seq<string> { if id in m then m[id] else [] }

  // The scanner

  /** The state after k lines, when `filed` are the sections closed so far: an open section is the one its heading
      starts, and what is filed, open and still to come make up all sections. */
  ghost predicate Standing(
      lines: seq<string>, rules: Rules, k: nat, filed: seq<Section>,
      bucket: string, section: seq<string>, phase: Option<nat>)
  {
    && k <= |lines|
    && bucket == BucketBefore(lines, rules, k)
    && (if phase.None? then section == [] && filed + SectionsFrom(lines, rules, k) == SectionsFrom(lines, rules, 0)
        else
          && 0 < |section| <= k
          && var first := k - |section|;
          && section == lines[first..k] && IsHeading(rules(lines[first]))
          && phase.value == rules(lines[first]).phase && bucket == BucketAt(lines, rules, first)
          && End(lines, rules, first + 1) == End(lines, rules, k)
          && filed + [SectionAt(lines, rules, first)] + SectionsFrom(lines, rules, k) == SectionsFrom(lines, rules, 0))
  }

  /** At a heading, or at the end, the open section is complete. */
  lemma Closes(
      lines: seq<string>, rules: Rules, k: nat, filed: seq<Section>,
      bucket: string, section: seq<string>, phase: Option<nat>)
    requires Standing(lines, rules, k, filed, bucket, section, phase) && (k < |lines| ==> !rules(lines[k]).Plain?)
    ensures phase.Some? ==>
              SectionAt(lines, rules, k - |section|) == Section(k - |section|, k, phase.value, bucket)
    ensures Standing(lines, rules, k,
                     if phase.None? then filed else filed + [SectionAt(lines, rules, k - |section|)], bucket, [], None)
  {
  }

  /** The clusters hold exactly the entries of the sections filed so far. */
  ghost predicate FiledAll(lines: seq<string>, phases: Phases, filed: seq<Section>, sections: map<Id, seq<string>>) {
    && (forall i :: 0 <= i < |filed| ==> filed[i].first <= filed[i].last <= |lines|)
    && forall id :: Filed(sections, id) == EntriesOf(lines, phases, filed, id)
  }

  /** The entries after closing the open section. */
  function Flushed(
      phases: Phases, sections: map<Id, seq<string>>, section: seq<string>, phase: Option<nat>, bucket: string)
    : map<Id, seq<string>>
  {
    if phase.None? || section == [] || phase.value !in phases then sections
    else
      var id := phases[phase.value];
      sections[id := Filed(sections, id) + [Breadcrumb(bucket) + (RStrip(JoinLines(section)) + "\n")]]
  }

  lemma FlushFiles(lines: seq<string>, phases: Phases, sections: map<Id, seq<string>>, filed: seq<Section>, s: Section)
    requires FiledAll(lines, phases, filed, sections) && s.first < s.last <= |lines|
    ensures FiledAll(lines, phases, filed + [s],
                     Flushed(phases, sections, lines[s.first..s.last], Some(s.phase), s.bucket))
  {
    assert (filed + [s])[..|filed|] == filed;
  }

  lemma Opens(lines: seq<string>, rules: Rules, k: nat, filed: seq<Section>, bucket: string)
    requires Standing(lines, rules, k, filed, bucket, [], None) && k < |lines| && IsHeading(rules(lines[k]))
    ensures var kind := rules(lines[k]);
            Standing(lines, rules, k + 1, filed, BucketAfter(kind, bucket), [lines[k]], Some(kind.phase))
  {
    assert lines[k..k + 1] == [lines[k]];
    var s := SectionAt(lines, rules, k);
    assert filed + [s] + SectionsFrom(lines, rules, k + 1) == filed + ([s] + SectionsFrom(lines, rules, k + 1));
  }

  lemma PlainLine(lines: seq<string>, rules: Rules, k: nat)
    requires k < |lines| && rules(lines[k]).Plain?
    ensures SectionsFrom(lines, rules, k) == SectionsFrom(lines, rules, k + 1)
    ensures End(lines, rules, k) == End(lines, rules, k + 1)
    ensures BucketBefore(lines, rules, k + 1) == BucketBefore(lines, rules, k)
  {
    assert [] + SectionsFrom(lines, rules, k + 1) == SectionsFrom(lines, rules, k + 1);
  }

  lemma Extends(
      lines: seq<string>, rules: Rules, k: nat, filed: seq<Section>,
      bucket: string, section: seq<string>, phase: Option<nat>)
    requires Standing(lines, rules, k, filed, bucket, section, phase) && k < |lines| && rules(lines[k]).Plain?
    ensures Standing(lines, rules, k + 1, filed, bucket, if phase.Some? then section + [lines[k]] else section, phase)
  {
    PlainLine(lines, rules, k);
    if phase.Some? {
      var first := k - |section|;
      assert lines[first..k + 1] == lines[first..k] + [lines[k]];
      assert (k + 1) - |section + [lines[k]]| == first;
    }
  }

  lemma Passes(lines: seq<string>, rules: Rules, k: nat, filed: seq<Section>, bucket: string)
    requires Standing(lines, rules, k, filed, bucket, [], None) && k < |lines| && rules(lines[k]).Bucket?
    ensures Standing(lines, rules, k + 1, filed, rules(lines[k]).name, [], None)
  {
    assert [] + SectionsFrom(lines, rules, k + 1) == SectionsFrom(lines, rules, k + 1);
  }

  class Scanner {
    const phases: Phases
    var sections: map<Id, seq<string>>
    var bucket: string
    var section: seq<string>
    var phase: Option<nat>
    var skip: bool

    constructor (phases: Phases)
      ensures this.phases == phases && sections == map[] && bucket == MISC && section == [] && phase == None && skip
    {
      this.phases := phases;
      sections, bucket, section, phase, skip := map[], MISC, [], None, true;
    }

    method Flush()
      modifies this`sections, this`section, this`phase
      ensures section == [] && phase == None
      ensures sections == Flushed(phases, old(sections), old(section), old(phase), bucket)
    {
      if phase.None? || section == [] {
        section, phase := [], None;
        return;
      }
      if phase.value !in phases {
        section, phase := [], None;
        return;
      }
      var id := phases[phase.value];
      var body := RStrip(JoinLines(section)) + "\n";
      sections := sections[id := Filed(sections, id) + [Breadcrumb(bucket) + body]];
      section, phase := [], None;
    }

    /** Where the scanner stands after k lines, when `filed` are the sections closed so far. */
    ghost predicate StandsAt(lines: seq<string>, rules: Rules, k: nat, filed: seq<Section>)
      reads this
    {
      && Standing(lines, rules, k, filed, bucket, section, phase)
      && (skip ==> phase.None?)
      && FiledAll(lines, phases, filed, sections)
    }

    /** Closing at line k, which is a heading or the end. */
    method FlushAt(ghost lines: seq<string>, ghost rules: Rules, ghost k: nat, ghost filed: seq<Section>)
        returns (ghost after: seq<Section>)
      requires StandsAt(lines, rules, k, filed)
      requires k < |lines| ==> !rules(lines[k]).Plain?
      modifies this`sections, this`section, this`phase
      ensures Standing(lines, rules, k, after, bucket, [], None) && FiledAll(lines, phases, after, sections)
      ensures phase == None && section == []
    {
      after := if phase.None? then filed else filed + [SectionAt(lines, rules, k - |section|)];
      Closes(lines, rules, k, filed, bucket, section, phase);
      if phase.Some? { FlushFiles(lines, phases, sections, filed, SectionAt(lines, rules, k - |section|)); }
      Flush();
    }

    method StartSection(line: string, rules: Rules, ghost lines: seq<string>, ghost k: nat, ghost filed: seq<Section>)
        returns (ghost after: seq<Section>)
      requires StandsAt(lines, rules, k, filed) && k < |lines| && line == lines[k] && IsHeading(rules(line)) && !skip
      modifies this`sections, this`bucket, this`section, this`phase
      ensures StandsAt(lines, rules, k + 1, after)
    {
      after := FlushAt(lines, rules, k, filed);
      Opens(lines, rules, k, after, bucket);
      var kind := rules(line);
      phase, section := Some(kind.phase), [line];
      bucket := if kind.Older? && kind.prefix.Some? then kind.prefix.value else bucket;
    }

    method ChangeBucket(name: string, ghost rules: Rules, ghost lines: seq<string>, ghost k: nat, ghost filed: seq<Section>)
        returns (ghost after: seq<Section>)
      requires StandsAt(lines, rules, k, filed) && k < |lines| && rules(lines[k]) == Bucket(name)
      modifies this`sections, this`bucket, this`section, this`phase
      ensures StandsAt(lines, rules, k + 1, after)
    {
      after := FlushAt(lines, rules, k, filed);
      Passes(lines, rules, k, after, bucket);
      bucket := name;
    }

    method AddLine(line: string, ghost rules: Rules, ghost lines: seq<string>, ghost k: nat, ghost filed: seq<Section>)
      requires StandsAt(lines, rules, k, filed) && k < |lines| && line == lines[k] && rules(line).Plain?
      modifies this`section
      ensures StandsAt(lines, rules, k + 1, filed)
    {
      Extends(lines, rules, k, filed, bucket, section, phase);
      if phase.Some? { section := section + [line]; }
    }

    /** Before the first section only bucket headings count. */
    method SkipLine(line: string, rules: Rules, ghost lines: seq<string>, ghost k: nat, ghost filed: seq<Section>)
      requires StandsAt(lines, rules, k, filed) && k < |lines| && line == lines[k] && !IsHeading(rules(line)) && skip
      modifies this`bucket
      ensures StandsAt(lines, rules, k + 1, filed)
    {
      if rules(line).Bucket? {
        Passes(lines, rules, k, filed, bucket);
        bucket := rules(line).name;
      } else {
        Extends(lines, rules, k, filed, bucket, section, phase);
      }
    }

    method Take(line: string, rules: Rules, ghost lines: seq<string>, ghost k: nat, ghost filed: seq<Section>)
        returns (ghost after: seq<Section>)
      requires StandsAt(lines, rules, k, filed) && k < |lines| && line == lines[k]
      modifies this
      ensures StandsAt(lines, rules, k + 1, after)
    {
      after := filed;
      var kind := rules(line);
      if skip {
        if !IsHeading(kind) {
          SkipLine(line, rules, lines, k, filed);
          return;
        }
        skip := false;
      }
      if kind.Bucket? {
        after := ChangeBucket(kind.name, rules, lines, k, filed);
      } else if IsHeading(kind) {
        after := StartSection(line, rules, lines, k, filed);
      } else {
        AddLine(line, rules, lines, k, filed);
      }
    }

    method Scan(lines: seq<string>, rules: Rules)
      requires sections == map[] && bucket == MISC && section == [] && phase == None && skip
      modifies this
      ensures forall id :: Filed(sections, id) == EntriesOf(lines, phases, SectionsFrom(lines, rules, 0), id)
    {
      ghost var filed: seq<Section> := [];
      for k := 0 to |lines|
        invariant StandsAt(lines, rules, k, filed)
      {
        filed := Take(lines[k], rules, lines, k, filed);
      }
      filed := FlushAt(lines, rules, |lines|, filed);
      assert filed + SectionsFrom(lines, rules, |lines|) == filed;
    }
  }
}
