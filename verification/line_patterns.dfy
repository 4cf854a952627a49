/** The line patterns, read place by place: which lines open a section or name a bucket, and what they say. */
module LinePatterns {
  import opened Wrappers
  import opened Text
  import opened DevlogSplit
  import opened LineKinds

  /** The digits from i on, as many as there are and at least one, read as n. */
  ghost predicate NumberAt(s: string, i: nat, n: nat) {
    exists j :: i < j <= |s| && AllDigits(s[i..j]) && (j == |s| || !IsDigit(s[j])) && NumberOf(s[i..j]) == n
  }

  predicate At(s: string, i: nat, word: string) { i + |word| <= |s| && s[i..i + |word|] == word }

  /** The word with a digit behind it. */
  predicate MentionsAt(s: string, i: nat) { At(s, i, "Phase ") && i + 6 < |s| && IsDigit(s[i + 6]) }

  /** From a place on, the first word with a number behind it stands at i, and the number is n. */
  ghost predicate FirstMention(s: string, from: nat, i: nat, n: nat) {
    from <= i && MentionsAt(s, i) && NumberAt(s, i + 6, n) && forall k :: from <= k < i ==> !MentionsAt(s, k)
  }

  /** A bullet with a bold phase number. */
  ghost predicate ModernLine(line: string, n: nat) { At(line, 0, "- **Phase ") && NumberAt(line, 10, n) }

  /** A third-level heading whose first phase number, wherever it stands, is n. */
  ghost predicate OlderLine(line: string, n: nat) {
    At(line, 0, "### ") && exists i :: FirstMention(line, 4, i, n)
  }

  /** A third-level heading of one capitalised word of letters, two at least, that does not hold "Phase". */
  ghost predicate BucketLine(line: string, name: string) {
    && At(line, 0, "### ") && |name| >= 2 && 'A' <= name[0] <= 'Z'
    && (forall k :: 0 <= k < |name| ==> 'A' <= name[k] <= 'Z' || 'a' <= name[k] <= 'z')
    && At(line, 4, name) && (forall k :: 4 + |name| <= k < |line| ==> IsPythonSpace(line[k]))
    && forall k :: 4 <= k <= |line| ==> !At(line, k, "Phase")
  }

  /** The heading's first word: letters, digits and underscores, as many as there are. */
  ghost predicate FirstWordIs(line: string, w: string) {
    w != "" && At(line, 4, w) && (forall c :: c in w ==> IsWordChar(c))
    && (4 + |w| == |line| || !IsWordChar(line[4 + |w|]))
  }

  lemma {:induction false} DigitRunIs(s: string, j: nat)
    requires j <= |s| && AllDigits(s[..j]) && (j == |s| || !IsDigit(s[j]))
    ensures DigitRun(s) == j
  {
    if j > 0 {
      assert s[0] == s[..j][0];
      assert s[1..][..j - 1] == s[..j][1..];
      DigitRunIs(s[1..], j - 1);
    }
  }

  lemma NumberIsTaken(s: string, i: nat, n: nat)
    requires NumberAt(s, i, n)
    ensures i <= |s| && DigitRun(s[i..]) > 0 && NumberOf(s[i..][..DigitRun(s[i..])]) == n
  {
    var j :| i < j <= |s| && AllDigits(s[i..j]) && (j == |s| || !IsDigit(s[j])) && NumberOf(s[i..j]) == n;
    assert s[i..][..j - i] == s[i..j];
    DigitRunIs(s[i..], j - i);
  }

  lemma TakenNumber(s: string, i: nat)
    requires i <= |s| && DigitRun(s[i..]) > 0
    ensures NumberAt(s, i, NumberOf(s[i..][..DigitRun(s[i..])]))
  {
    var j := i + DigitRun(s[i..]);
    assert s[i..j] == s[i..][..DigitRun(s[i..])];
  }

  lemma StartsIff(s: string, words: string)
    ensures words <= s <==> At(s, 0, words)
  {
    if words <= s { assert s[0..|words|] == words; }
  }

  lemma NumberAfterIff(s: string, words: string, n: nat)
    ensures NumberAfter(s, words) == Some(n) <==> At(s, 0, words) && NumberAt(s, |words|, n)
  {
    StartsIff(s, words);
    if words <= s {
      if NumberAt(s, |words|, n) { NumberIsTaken(s, |words|, n); }
      if DigitRun(s[|words|..]) > 0 { TakenNumber(s, |words|); }
    }
  }

  lemma Slice(s: string, p: nat, i: nat, j: nat)
    requires i <= j && p + j <= |s|
    ensures s[p..][i..j] == s[p + i..p + j]
  {
  }

  lemma NumberAhead(s: string, p: nat, i: nat, n: nat)
    requires p <= |s| && NumberAt(s[p..], i, n)
    ensures NumberAt(s, p + i, n)
  {
    var t := s[p..];
    var j :| i < j <= |t| && AllDigits(t[i..j]) && (j == |t| || !IsDigit(t[j])) && NumberOf(t[i..j]) == n;
    Slice(s, p, i, j);
  }

  lemma NumberBehind(s: string, p: nat, i: nat, n: nat)
    requires p <= |s| && NumberAt(s, p + i, n)
    ensures NumberAt(s[p..], i, n)
  {
    var j :| p + i < j <= |s| && AllDigits(s[p + i..j]) && (j == |s| || !IsDigit(s[j])) && NumberOf(s[p + i..j]) == n;
    Slice(s, p, i, j - p);
  }

  lemma NumberAtShift(s: string, p: nat, i: nat, n: nat)
    requires p <= |s|
    ensures NumberAt(s[p..], i, n) <==> NumberAt(s, p + i, n)
  {
    if NumberAt(s[p..], i, n) { NumberAhead(s, p, i, n); }
    if NumberAt(s, p + i, n) { NumberBehind(s, p, i, n); }
  }

  lemma AtShift(s: string, p: nat, i: nat, word: string)
    requires p <= |s|
    ensures At(s[p..], i, word) <==> At(s, p + i, word)
  {
    if p + i + |word| <= |s| { assert s[p..][i..i + |word|] == s[p + i..p + i + |word|]; }
  }

  lemma MentionsShift(s: string, p: nat, i: nat)
    requires p <= |s|
    ensures MentionsAt(s[p..], i) <==> MentionsAt(s, p + i)
  {
    AtShift(s, p, i, "Phase ");
  }

  lemma MentionedNumber(s: string)
    ensures NumberAfter(s, "Phase ").Some? <==> MentionsAt(s, 0)
  {
    if "Phase " <= s {
      assert s[0..6] == "Phase ";
      assert |s| > 6 ==> s[6..][0] == s[6];
    } else {
      assert !At(s, 0, "Phase ");
    }
  }

  lemma FirstMentionShift(s: string, p: nat, from: nat, i: nat, n: nat)
    requires p <= |s|
    ensures FirstMention(s[p..], from, i, n) <==> FirstMention(s, p + from, p + i, n)
  {
    forall k: nat { MentionsShift(s, p, k); }
    NumberAtShift(s, p, i + 6, n);
    if FirstMention(s[p..], from, i, n) {
      forall k | p + from <= k < p + i ensures !MentionsAt(s, k) { assert !MentionsAt(s[p..], k - p); }
    }
    if FirstMention(s, p + from, p + i, n) {
      forall k | from <= k < i ensures !MentionsAt(s[p..], k) { assert !MentionsAt(s, p + k); }
    }
  }

  lemma {:induction false} FirstPhaseIff(s: string, n: nat)
    ensures FirstPhase(s) == Some(n) <==> exists i :: FirstMention(s, 0, i, n)
    decreases |s|
  {
    if s != "" {
      MentionedNumber(s);
      NumberAfterIff(s, "Phase ", n);
      if MentionsAt(s, 0) {
        assert NumberAt(s, 6, n) ==> FirstMention(s, 0, 0, n);
        forall i | FirstMention(s, 0, i, n) ensures i == 0 {}
      } else {
        FirstPhaseIff(s[1..], n);
        LaterMention(s, n);
      }
    }
  }

  lemma MentionBehind(s: string, i: nat, n: nat)
    requires s != "" && !MentionsAt(s, 0) && FirstMention(s, 0, i, n)
    ensures i > 0 && FirstMention(s[1..], 0, i - 1, n)
  {
    assert i > 0;
    assert FirstMention(s, 1, i, n);
    FirstMentionShift(s, 1, 0, i - 1, n);
  }

  lemma MentionAhead(s: string, i: nat, n: nat)
    requires s != "" && !MentionsAt(s, 0) && FirstMention(s[1..], 0, i, n)
    ensures FirstMention(s, 0, i + 1, n)
  {
    FirstMentionShift(s, 1, 0, i, n);
    forall k | 0 <= k < i + 1 ensures !MentionsAt(s, k) {
      if k > 0 { assert FirstMention(s, 1, i + 1, n); }
    }
  }

  lemma LaterMention(s: string, n: nat)
    requires s != "" && !MentionsAt(s, 0)
    ensures (exists i :: FirstMention(s, 0, i, n)) <==> exists i :: FirstMention(s[1..], 0, i, n)
  {
    if i: nat :| FirstMention(s, 0, i, n) { MentionBehind(s, i, n); }
    if i: nat :| FirstMention(s[1..], 0, i, n) { MentionAhead(s, i, n); }
  }

  /** The heading's text is the line from its fifth character on. */
  lemma MentionInHeading(line: string, n: nat)
    requires |line| >= 4
    ensures (exists i :: FirstMention(line[4..], 0, i, n)) <==> exists i :: FirstMention(line, 4, i, n)
  {
    if i: nat :| FirstMention(line[4..], 0, i, n) { FirstMentionShift(line, 4, 0, i, n); }
    if i: nat :| FirstMention(line, 4, i, n) { FirstMentionShift(line, 4, 0, i - 4, n); }
  }

  lemma OlderIff(line: string, n: nat)
    ensures KindOf(line).Older? && KindOf(line).phase == n <==> OlderLine(line, n)
  {
    OneKindOnly(line);
    StartsIff(line, "### ");
    if HEADING <= line {
      FirstPhaseIff(line[4..], n);
      MentionInHeading(line, n);
    }
  }

  lemma ModernIff(line: string, n: nat)
    ensures KindOf(line) == Modern(n) <==> ModernLine(line, n)
  {
    NumberAfterIff(line, "- **Phase ", n);
  }

  lemma {:induction false} LetterRunIs(s: string, j: nat)
    requires j <= |s| && (forall k :: 0 <= k < j ==> IsLetter(s[k])) && (j == |s| || !IsLetter(s[j]))
    ensures LetterRun(s) == j
  {
    if j > 0 { LetterRunIs(s[1..], j - 1); }
  }

  lemma {:induction false} WordRunIs(s: string, j: nat)
    requires j <= |s| && (forall k :: 0 <= k < j ==> IsWordChar(s[k])) && (j == |s| || !IsWordChar(s[j]))
    ensures WordRun(s) == j
  {
    if j > 0 { WordRunIs(s[1..], j - 1); }
  }

  lemma ContainsIff(s: string, p: nat, word: string)
    requires p <= |s|
    ensures Contains(s[p..], word) <==> exists k :: p <= k <= |s| && At(s, k, word)
  {
    var t := s[p..];
    forall k | p <= k <= |s| ensures At(s, k, word) <==> word <= t[k - p..] {
      assert t[k - p..] == s[k..];
      if k + |word| <= |s| { assert s[k..][..|word|] == s[k..k + |word|]; }
    }
    if Contains(t, word) {
      var i :| 0 <= i <= |t| && word <= t[i..];
      assert At(s, i + p, word);
    }
    if k :| p <= k <= |s| && At(s, k, word) { assert word <= t[k - p..]; }
  }

  lemma BucketIsTaken(line: string, name: string)
    requires BucketLine(line, name)
    ensures IsBucket(line) && line[4..][..LetterRun(line[4..])] == name
  {
    var s := line[4..];
    assert line[0..4] == "### ";
    assert s[..|name|] == line[4..4 + |name|];
    forall k | 0 <= k < |name| ensures IsLetter(s[k]) { assert s[k] == s[..|name|][k] == name[k]; }
    forall k | |name| <= k < |s| ensures IsPythonSpace(s[k]) { assert s[k] == line[4 + k]; }
    LetterRunIs(s, |name|);
    ContainsIff(line, 4, "Phase");
  }

  lemma TakenIsBucket(line: string)
    requires IsBucket(line)
    ensures BucketLine(line, line[4..][..LetterRun(line[4..])])
  {
    var s := line[4..];
    var name := s[..LetterRun(s)];
    assert line[0..4] == "### ";
    assert line[4..4 + |name|] == name;
    forall k | 4 + |name| <= k < |line| ensures IsPythonSpace(line[k]) { assert line[k] == s[k - 4]; }
    ContainsIff(line, 4, "Phase");
  }

  lemma BucketIff(line: string, name: string)
    ensures KindOf(line) == Bucket(name) <==> BucketLine(line, name)
  {
    OneKindOnly(line);
    if BucketLine(line, name) { BucketIsTaken(line, name); }
    if IsBucket(line) { TakenIsBucket(line); }
  }

  /** An older heading's bucket is its first word, and it names none when it has no first word. */
  lemma PrefixIff(line: string, w: string)
    requires KindOf(line).Older?
    ensures KindOf(line).prefix == Some(w) <==> FirstWordIs(line, w)
  {
    OneKindOnly(line);
    var s := line[4..];
    if FirstWordIs(line, w) {
      assert s[..|w|] == line[4..4 + |w|];
      forall k | 0 <= k < |w| ensures IsWordChar(s[k]) { assert s[k] == s[..|w|][k] && w[k] in w; }
      WordRunIs(s, |w|);
    }
    if KindOf(line).prefix == Some(w) {
      WordRunFacts(s);
      assert line[4..4 + |w|] == s[..|w|];
    }
  }

  lemma {:induction false} WordRunFacts(s: string)
    ensures forall c :: c in s[..WordRun(s)] ==> IsWordChar(c)
  {
    if s != "" && IsWordChar(s[0]) {
      WordRunFacts(s[1..]);
      assert s[..WordRun(s)] == [s[0]] + s[1..][..WordRun(s[1..])];
    }
  }
}
