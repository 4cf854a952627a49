/** What a changelog line is to the scanner, from its characters. */
module LineKinds {
  import opened Wrappers
  import opened Text
  import opened PhaseRanges
  import opened DevlogSplit
  import opened DevlogPartition

  const BULLET: string := "- **Phase "
  const HEADING: string := "### "
  const WORD: string := "Phase"

  predicate IsUpper(c: char) { 'A' <= c <= 'Z' }

  predicate IsLetter(c: char) { 'A' <= c <= 'Z' || 'a' <= c <= 'z' }

  predicate IsWordChar(c: char) { IsLetter(c) || IsDigit(c) || c == '_' }

  /** The number after the words that start the string. */
  function NumberAfter(s: string, words: string): Option<nat> {
    if words <= s && DigitRun(s[|words|..]) > 0
    then Some(NumberOf(s[|words|..][..DigitRun(s[|words|..])]))
    else None
  }

  /** The first place where the word stands with a number after it. */
  function FirstPhase(s: string): Option<nat> {
    if s == "" then None
    else
      var n := NumberAfter(s, "Phase ");
      if n.Some? then n else FirstPhase(s[1..])
  }

  function LetterRun(s: string): (n: nat)
    ensures n <= |s| && forall i :: 0 <= i < n ==> IsLetter(s[i])
    ensures n < |s| ==> !IsLetter(s[n])
  {
    if s == "" || !IsLetter(s[0]) then 0 else 1 + LetterRun(s[1..])
  }

  function WordRun(s: string): (n: nat)
    ensures n <= |s| && (n < |s| ==> !IsWordChar(s[n]))
  {
    if s == "" || !IsWordChar(s[0]) then 0 else 1 + WordRun(s[1..])
  }

  predicate IsModern(line: string) { NumberAfter(line, BULLET).Some? }

  predicate IsOlder(line: string) { HEADING <= line && FirstPhase(line[4..]).Some? }

  /** A capitalised word of two letters or more, alone on its heading. */
  predicate IsBucket(line: string) {
    && HEADING <= line && !Contains(line[4..], WORD)
    && var s := line[4..];
       LetterRun(s) >= 2 && IsUpper(s[0]) && forall i :: LetterRun(s) <= i < |s| ==> IsPythonSpace(s[i])
  }

  function KindOf(line: string): Kind {
    if IsModern(line) then Modern(NumberAfter(line, BULLET).value)
    else if IsOlder(line) then
      var s := line[4..];
      Older(FirstPhase(s).value, if WordRun(s) > 0 then Some(s[..WordRun(s)]) else None)
    else if IsBucket(line) then Bucket(line[4..][..LetterRun(line[4..])])
    else Plain
  }

  lemma {:induction false} PhaseIsMentioned(s: string)
    requires FirstPhase(s).Some?
    ensures Contains(s, WORD)
    decreases |s|
  {
    if NumberAfter(s, "Phase ").Some? {
      assert "Phase " <= s && s[..6] == "Phase ";
      assert WORD <= s[0..];
    } else {
      PhaseIsMentioned(s[1..]);
      var i :| 0 <= i <= |s[1..]| && WORD <= s[1..][i..];
      assert s[1..][i..] == s[i + 1..];
    }
  }

  /** No line is of two kinds, so the order of the scanner's tests does not matter. */
  lemma OneKindOnly(line: string)
    ensures !(IsModern(line) && IsOlder(line)) && !(IsModern(line) && IsBucket(line)) && !(IsOlder(line) && IsBucket(line))
    ensures IsBucket(line) <==> KindOf(line).Bucket?
    ensures IsOlder(line) <==> KindOf(line).Older?
    ensures IsModern(line) <==> KindOf(line).Modern?
  {
    if IsOlder(line) { PhaseIsMentioned(line[4..]); }
    assert BULLET[0] != HEADING[0];
    assert BULLET <= line ==> line[0] == BULLET[0];
    assert HEADING <= line ==> line[0] == HEADING[0];
  }

  /** The whole script up to the writing of files: the phase map, the lines, the sections. */
  method SplitDevlog(clusters: seq<Cluster>, text: string, toInt: ToInt) returns (r: Option<map<Id, seq<string>>>)
    ensures r.None? <==> clusters == [] || !AllParse(clusters, toInt)
    ensures r.Some? ==> exists phases ::
              && PhaseMap(RangesOf(clusters, toInt), phases)
              && forall id :: Filed(r.value, id)
                   == EntriesOf(SplitLines(text), phases, SectionsFrom(SplitLines(text), KindOf, 0), id)
  {
    var phases := ParsePhaseRanges(clusters, toInt);
    if phases.None? { return None; }
    var scanner := new Scanner(phases.value);
    scanner.Scan(SplitLines(text), KindOf);
    return Some(scanner.sections);
  }
}
