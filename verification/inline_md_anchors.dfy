/**
 What becomes of the links.  Every extracted anchor is stitched back once, in order and untouched,
 exactly when no stretch of text between the links can be read as a placeholder.
 */
module InlineMdAnchors {
  import opened Wrappers
  import opened Text
  import opened InlineMd
  import opened InlineMdRewriting

  // The text as stretches between links

  function Before(x: string, ps: seq<string>): (qs: seq<string>)
    requires ps != []
    ensures |qs| == |ps| && qs[0] == x + ps[0] && qs[1..] == ps[1..]
  {
    [x + ps[0]] + ps[1..]
  }

  /** What stands before, between and after the links; an unsafe link counts as its label. */
  function Pieces(s: string): (ps: seq<string>)
    ensures |ps| == |Links(s)| + 1
    decreases |s|
  {
    if s == "" then [""]
    else if MatchLink(s).Some? then
      if SafeHref(Href(s)).Some? then [""] + Pieces(AfterLink(s)) else Before(Label(s), Pieces(AfterLink(s)))
    else Before([s[0]], Pieces(s[1..]))
  }

  function Links(s: string): seq<string>
    decreases |s|
  {
    if s == "" then []
    else if MatchLink(s).Some? then
      var safe := SafeHref(Href(s));
      (if safe.Some? then [Anchor(safe.value, Label(s))] else []) + Links(AfterLink(s))
    else Links(s[1..])
  }

  /** ps[0] xs[0] ps[1] xs[1] ... */
  function Weave(ps: seq<string>, xs: seq<string>): string
    requires |ps| == |xs| + 1
  {
    if xs == [] then ps[0] else ps[0] + (xs[0] + Weave(ps[1..], xs[1..]))
  }

  function Tokens(k: nat, n: nat): (ts: seq<string>)
    ensures |ts| == n
    ensures n > 0 ==> ts[0] == Token(k) && ts[1..] == Tokens(k + 1, n - 1)
    decreases n
  {
    if n == 0 then [] else [Token(k)] + Tokens(k + 1, n - 1)
  }

  lemma WeaveBefore(x: string, ps: seq<string>, xs: seq<string>)
    requires |ps| == |xs| + 1
    ensures Weave(Before(x, ps), xs) == x + Weave(ps, xs)
  {
    if xs != [] {
      var rest := xs[0] + Weave(ps[1..], xs[1..]);
      assert (x + ps[0]) + rest == x + (ps[0] + rest);
    }
  }

  /** The extraction pass is the stretches with placeholders between them. */
  lemma {:induction false} ExtractIsWeave(s: string, k: nat)
    ensures Extract(s, k).0 == Weave(Pieces(s), Tokens(k, |Links(s)|)) && Extract(s, k).1 == Links(s)
    decreases |s|
  {
    if s == "" {
    } else if MatchLink(s).Some? {
      var rest := AfterLink(s);
      if SafeHref(Href(s)).Some? {
        ExtractIsWeave(rest, k + 1);
        var n := |Links(rest)|;
        assert Pieces(s)[1..] == Pieces(rest) && Tokens(k, n + 1)[1..] == Tokens(k + 1, n);
        assert "" + (Token(k) + Weave(Pieces(rest), Tokens(k + 1, n))) == Token(k) + Weave(Pieces(rest), Tokens(k + 1, n));
      } else {
        ExtractIsWeave(rest, k);
        WeaveBefore(Label(s), Pieces(rest), Tokens(k, |Links(rest)|));
      }
    } else {
      ExtractIsWeave(s[1..], k);
      WeaveBefore([s[0]], Pieces(s[1..]), Tokens(k, |Links(s)|));
    }
  }

  // Emphasis works on the stretches

  ghost predicate AllRewrite(ps: seq<string>, ts: seq<string>) {
    |ps| == |ts| && forall i :: 0 <= i < |ps| ==> Rewrites(ps[i], ts[i])
  }

  lemma TokenHasNoMarks(k: nat)
    ensures NoMarks(Token(k)) && |Token(k)| == 9 + |Decimal(k)| + 2
  {
    forall c | c in Token(k) ensures !IsMark(c) {
      assert c in TOKEN_HEAD || c in Decimal(k) || c in "@@";
    }
  }

  /** A rewriting of p followed by an unmarked stretch splits between the two. */
  lemma {:induction false} SplitRewrite(p: string, x: string, b: string, t: string) returns (u: string, v: string)
    requires x != "" && NoMarks(x) && Rewrites(p + (x + b), t)
    ensures t == u + (x + v) && Rewrites(p, u) && Rewrites(b, v)
    decreases |p|
  {
    var s := p + (x + b);
    if p == "" {
      assert s == x + b;
      KeepsUnmarked(x, b, t);
      u, v := "", t[|x|..];
      assert t == x + v && "" + (x + v) == x + v;
    } else if t != "" && s[0] == t[0] && Rewrites(s[1..], t[1..]) {
      assert s[1..] == p[1..] + (x + b);
      var u';
      u', v := SplitRewrite(p[1..], x, b, t[1..]);
      u := [p[0]] + u';
      CharSplit(p, x, t, u', v);
    } else {
      var m: nat, g: string :| RunTag(s, t, m, g) && Rewrites(s[m..], t[|g|..]);
      RunStaysInside(p, x, b, m);
      assert s[m..] == p[m..] + (x + b) && s[..m] == p[..m];
      var u';
      u', v := SplitRewrite(p[m..], x, b, t[|g|..]);
      u := g + u';
      PrefixedSplit(g, t[|g|..], u', x, v);
      RunAhead(p, m, g, u');
    }
  }

  lemma CharSplit(p: string, x: string, t: string, u: string, v: string)
    requires p != "" && t != "" && t[0] == p[0] && t[1..] == u + (x + v) && Rewrites(p[1..], u)
    ensures t == ([p[0]] + u) + (x + v) && Rewrites(p, [p[0]] + u)
  {
    CharThen(p, u);
    PrefixedSplit([t[0]], t[1..], u, x, v);
    assert t == [t[0]] + t[1..];
  }

  lemma PrefixedSplit(g: string, t: string, u: string, x: string, v: string)
    requires t == u + (x + v)
    ensures g + t == (g + u) + (x + v)
  {
  }

  lemma RunAhead(p: string, m: nat, g: string, u: string)
    requires 1 <= m <= |p| && AllMarks(p[..m]) && g in TAGS && Rewrites(p[m..], u)
    ensures Rewrites(p, g + u)
  {
    assert (g + u)[|g|..] == u;
    assert RunTag(p, g + u, m, g);
  }

  lemma RunStaysInside(p: string, x: string, b: string, m: nat)
    requires x != "" && NoMarks(x) && m <= |p + (x + b)| && AllMarks((p + (x + b))[..m])
    ensures m <= |p|
  {
    var s := p + (x + b);
    assert forall i :: 0 <= i < m ==> s[i] == s[..m][i] && IsMark(s[i]);
    assert s[|p|] == x[0] && !IsMark(s[|p|]);
  }

  lemma {:induction false} RewriteWeave(ps: seq<string>, k: nat, n: nat, t: string) returns (ts: seq<string>)
    requires |ps| == n + 1 && Rewrites(Weave(ps, Tokens(k, n)), t)
    ensures AllRewrite(ps, ts) && t == Weave(ts, Tokens(k, n))
    decreases n
  {
    if n == 0 {
      ts := [t];
    } else {
      TokenHasNoMarks(k);
      var u, v := SplitRewrite(ps[0], Token(k), Weave(ps[1..], Tokens(k + 1, n - 1)), t);
      var rest := RewriteWeave(ps[1..], k + 1, n - 1, v);
      ts := [u] + rest;
      assert ts[1..] == rest;
    }
  }

  // Stretches that cannot be read as a placeholder

  /** Number of digits when the start of a placeholder, with its number, starts the string. */
  function Opening(t: string): (d: nat)
    ensures d > 0 ==> 9 + d <= |t| && TOKEN_HEAD <= t && AllDigits(t[9..9 + d])
    ensures d > 0 && 9 + d < |t| ==> !IsDigit(t[9 + d])
  {
    if !(TOKEN_HEAD <= t) then 0
    else
      var d := DigitRun(t[9..]);
      assert t[9..][..d] == t[9..9 + d];
      d
  }

  /** The stretch holds no placeholder numbered below n and, when a placeholder follows it, does not end in
      an opening that would take that placeholder's `@@` for its own. */
  predicate Inert(t: string, n: nat, followed: bool)
    decreases |t|
  {
    if t == "" then true
    else
      var d := Opening(t);
      if d == 0 then Inert(t[1..], n, followed)
      else
        var after := t[9 + d..];
        if "@@" <= after then NumberOf(t[9..9 + d]) >= n && Inert(after[2..], n, followed)
        else if followed && (after == "" || after == "@") then false
        else Inert(t[1..], n, followed)
  }

  ghost predicate AllInert(ps: seq<string>, n: nat) {
    forall i :: 0 <= i < |ps| ==> Inert(ps[i], n, i + 1 < |ps|)
  }

  /** What follows a stretch: nothing, or a placeholder. */
  ghost predicate Follows(rest: string, followed: bool) {
    if followed then exists k: nat, more :: rest == Token(k) + more else rest == ""
  }

  lemma FollowsStartsAt(rest: string)
    requires Follows(rest, true)
    ensures |rest| > 9 && rest[0] == rest[1] == '@' && rest[2] == 'P' && TOKEN_HEAD <= rest
  {
    var k: nat, more :| rest == Token(k) + more;
    TokenHasNoMarks(k);
    assert rest[..9] == TOKEN_HEAD;
  }

  lemma {:induction false} DigitRunIs(s: string, d: nat)
    requires d <= |s| && AllDigits(s[..d]) && (d < |s| ==> !IsDigit(s[d]))
    ensures DigitRun(s) == d
  {
    if d == 0 {
      assert s == "" || DigitRun(s) == 0;
    } else {
      assert s[0] == s[..d][0] && s[0] in s[..d];
      forall c | c in s[1..][..d - 1] ensures IsDigit(c) {
        assert s[1..][..d - 1] == s[1..d];
        assert c in s[..d];
      }
      DigitRunIs(s[1..], d - 1);
    }
  }

  lemma HeadDoesNotOverlap(s: string, i: nat)
    requires 0 < i < 9 && i + 2 < |s| && s[i] == '@' && s[i + 1] == '@' && s[i + 2] == 'P'
    ensures !(TOKEN_HEAD <= s)
  {
    var j := if i == 1 then 2 else i;
    assert s[j] == '@' && TOKEN_HEAD[j] != '@';
  }

  /** The head of the next placeholder cannot complete a head begun in t. */
  lemma NoHeadAcross(t: string, rest: string, followed: bool)
    requires t != "" && !(TOKEN_HEAD <= t) && Follows(rest, followed)
    ensures !(TOKEN_HEAD <= t + rest)
  {
    var s := t + rest;
    if |t| >= 9 {
      assert s[..9] == t[..9];
    } else if followed {
      FollowsStartsAt(rest);
      assert s[|t|] == rest[0] && s[|t| + 1] == rest[1] && s[|t| + 2] == rest[2];
      HeadDoesNotOverlap(s, |t|);
    } else {
      assert s == t;
    }
  }

  predicate TakesNext(after: string, followed: bool) {
    "@@" <= after || (followed && (after == "" || after == "@"))
  }

  lemma ClosingAcross(after: string, rest: string, followed: bool)
    requires Follows(rest, followed)
    ensures "@@" <= after + rest <==> TakesNext(after, followed)
    ensures followed || after != "" ==> after + rest != "" && (after + rest)[0] == (if after == "" then '@' else after[0])
  {
    var s := after + rest;
    if followed { FollowsStartsAt(rest); }
    if |after| >= 2 {
      assert s[0] == after[0] && s[1] == after[1];
    } else if |after| == 1 {
      assert s[0] == after[0];
      if followed { assert s[1] == rest[0]; }
    } else {
      assert s == rest;
    }
  }

  lemma OpeningAcross(t: string, rest: string, followed: bool)
    requires Follows(rest, followed) && Opening(t) > 0
    ensures var d := Opening(t);
            DigitRun((t + rest)[9..]) == d && (t + rest)[9..9 + d] == t[9..9 + d]
            && (t + rest)[9 + d..] == t[9 + d..] + rest
  {
    var s := t + rest;
    var d := Opening(t);
    ClosingAcross(t[9 + d..], rest, followed);
    assert s[9..][..d] == t[9..9 + d];
    assert s[9 + d..] == t[9 + d..] + rest;
    assert d < |s[9..]| ==> s[9..][d] == s[9 + d..][0];
    DigitRunIs(s[9..], d);
  }

  /** Where the text t + rest starts with a full placeholder, in terms of t. */
  lemma MatchAcross(t: string, rest: string, followed: bool)
    requires t != "" && Follows(rest, followed)
    ensures var d := Opening(t);
            if d > 0 && TakesNext(t[9 + d..], followed)
            then MatchToken(t + rest) == Some(d) && (t + rest)[9..9 + d] == t[9..9 + d]
            else MatchToken(t + rest).None?
  {
    var d := Opening(t);
    if d > 0 {
      OpeningAcross(t, rest, followed);
      ClosingAcross(t[9 + d..], rest, followed);
      assert (t + rest)[..9] == t[..9];
    } else if TOKEN_HEAD <= t {
      NoDigitAcross(t, rest, followed);
    } else {
      NoHeadAcross(t, rest, followed);
    }
  }

  lemma NoDigitAcross(t: string, rest: string, followed: bool)
    requires TOKEN_HEAD <= t && Opening(t) == 0 && Follows(rest, followed)
    ensures MatchToken(t + rest).None?
  {
    var s := t + rest;
    ClosingAcross(t[9..], rest, followed);
    assert s[9..] == t[9..] + rest;
    DigitRunIs(s[9..], 0);
  }

  lemma StitchSkips(t: string, rest: string, links: seq<string>)
    requires t != "" && MatchToken(t + rest).None?
    ensures Stitch(t + rest, links) == [t[0]] + Stitch(t[1..] + rest, links)
  {
    assert (t + rest)[1..] == t[1..] + rest && (t + rest)[0] == t[0];
  }

  /** A placeholder inside t with a number that stands for no link is copied. */
  lemma StitchCopies(t: string, rest: string, links: seq<string>, d: nat)
    requires MatchToken(t + rest) == Some(d) && d + 11 <= |t| && NumberOf((t + rest)[9..9 + d]) >= |links|
    ensures Stitch(t + rest, links) == t[..d + 11] + Stitch(t[d + 11..] + rest, links)
  {
    assert (t + rest)[d + 11..] == t[d + 11..] + rest && (t + rest)[..d + 11] == t[..d + 11];
  }

  /** An inert stretch passes through the stitching unchanged. */
  lemma {:induction false} StitchPassesInert(t: string, rest: string, links: seq<string>, followed: bool)
    requires Inert(t, |links|, followed) && Follows(rest, followed)
    ensures Stitch(t + rest, links) == t + Stitch(rest, links)
    decreases |t|
  {
    if t == "" {
      assert t + rest == rest && t + Stitch(rest, links) == Stitch(rest, links);
    } else {
      MatchAcross(t, rest, followed);
      InertUnfolds(t, |links|, followed);
      var d := Opening(t);
      if d > 0 && TakesNext(t[9 + d..], followed) {
        StitchCopies(t, rest, links, d);
        StitchPassesInert(t[d + 11..], rest, links, followed);
        SplitAt(t, d + 11, Stitch(rest, links));
      } else {
        StitchSkips(t, rest, links);
        StitchPassesInert(t[1..], rest, links, followed);
        SplitAt(t, 1, Stitch(rest, links));
      }
    }
  }

  lemma InertUnfolds(t: string, n: nat, followed: bool)
    requires t != "" && Inert(t, n, followed)
    ensures var d := Opening(t);
            if d > 0 && TakesNext(t[9 + d..], followed)
            then d + 11 <= |t| && NumberOf(t[9..9 + d]) >= n && Inert(t[d + 11..], n, followed)
            else Inert(t[1..], n, followed)
  {
    var d := Opening(t);
    assert d > 0 && "@@" <= t[9 + d..] ==> t[9 + d..][2..] == t[d + 11..];
  }

  lemma SplitAt(t: string, m: nat, z: string)
    requires m <= |t|
    ensures t[..m] + (t[m..] + z) == t + z && (m == 1 ==> t[..m] == [t[0]])
  {
  }

  /** A stretch that is not inert is damaged: whatever should stand after it, the result differs. */
  lemma {:induction false} StitchDamages(t: string, rest: string, links: seq<string>, followed: bool, y: string)
    requires !Inert(t, |links|, followed) && Follows(rest, followed)
    requires followed ==> y != "" && y[0] == '<'
    requires forall i :: 0 <= i < |links| ==> links[i] != "" && links[i][0] == '<'
    ensures Stitch(t + rest, links) != t + y
    decreases |t|
  {
    MatchAcross(t, rest, followed);
    var d := Opening(t);
    if d > 0 && TakesNext(t[9 + d..], followed) {
      if NumberOf(t[9..9 + d]) < |links| {
        StitchedLinkShows(t, rest, links, d);
        assert (t + y)[0] == TOKEN_HEAD[0];
      } else if "@@" <= t[9 + d..] {
        assert t[9 + d..][2..] == t[d + 11..];
        StitchDamages(t[d + 11..], rest, links, followed, y);
        StitchCopies(t, rest, links, d);
        DamageAhead(t, d + 11, Stitch(t[d + 11..] + rest, links), y);
      } else {
        FollowsStartsAt(rest);
        CopiedHeadShows(t, rest, links, d);
        assert (t + y)[|t|] == '<';
      }
    } else {
      StitchSkips(t, rest, links);
      StitchDamages(t[1..], rest, links, followed, y);
      DamageAhead(t, 1, Stitch(t[1..] + rest, links), y);
    }
  }

  lemma DamageAhead(t: string, m: nat, z: string, y: string)
    requires m <= |t| && z != t[m..] + y
    ensures t[..m] + z != t + y && (m == 1 ==> t[..m] == [t[0]])
  {
    SplitAt(t, m, y);
    EqualTails(t[..m], z, t[m..] + y);
  }

  lemma StitchedLinkShows(t: string, rest: string, links: seq<string>, d: nat)
    requires MatchToken(t + rest) == Some(d) && NumberOf((t + rest)[9..9 + d]) < |links|
    requires forall i :: 0 <= i < |links| ==> links[i] != "" && links[i][0] == '<'
    ensures Stitch(t + rest, links) != "" && Stitch(t + rest, links)[0] == '<'
  {
  }

  /** A placeholder that starts in t and ends in what follows is copied, the next one's `@` with it. */
  lemma CopiedHeadShows(t: string, rest: string, links: seq<string>, d: nat)
    requires MatchToken(t + rest) == Some(d) && NumberOf((t + rest)[9..9 + d]) >= |links|
    requires 9 + d <= |t| < 11 + d && |rest| > 2 && rest[0] == rest[1] == '@'
    ensures |Stitch(t + rest, links)| > |t| && Stitch(t + rest, links)[|t|] == '@'
  {
    var s := t + rest;
    assert Stitch(s, links) == s[..d + 11] + Stitch(s[d + 11..], links);
    assert s[|t|] == rest[0];
  }

  lemma EqualTails(a: string, b: string, c: string)
    ensures a + b == a + c ==> b == c
  {
    if a + b == a + c { EqualParts(a, b, a, c); }
  }

  lemma ThreeParts(head: string, a: string, b: string)
    ensures var s := head + (a + b);
            && s[|head|..] == a + b && s[|head|..|head| + |a|] == a && s[|head| + |a|..] == b
  {
  }

  lemma TokenParts(k: nat, rest: string)
    ensures var s, d := Token(k) + rest, |Decimal(k)|;
            && |s| == d + 11 + |rest| && TOKEN_HEAD <= s && s[9..] == Decimal(k) + ("@@" + rest)
            && s[9..9 + d] == Decimal(k) && s[9 + d..] == "@@" + rest && s[d + 11..] == rest
  {
    var s, d := Token(k) + rest, |Decimal(k)|;
    Regroup(Decimal(k), "@@", rest);
    Regroup(TOKEN_HEAD, Decimal(k) + "@@", rest);
    ThreeParts(TOKEN_HEAD, Decimal(k), "@@" + rest);
    ThreeParts(TOKEN_HEAD + Decimal(k), "@@", rest);
    Regroup(TOKEN_HEAD, Decimal(k), "@@" + rest);
  }

  lemma TokenMatches(k: nat, rest: string)
    ensures MatchToken(Token(k) + rest) == Some(|Decimal(k)|)
    ensures (Token(k) + rest)[9..9 + |Decimal(k)|] == Decimal(k) && (Token(k) + rest)[|Decimal(k)| + 11..] == rest
  {
    TokenParts(k, rest);
    var tail, d := Decimal(k) + ("@@" + rest), |Decimal(k)|;
    assert tail[..d] == Decimal(k) && tail[d] == '@';
    DigitRunIs(tail, d);
  }

  lemma StitchToken(k: nat, rest: string, links: seq<string>)
    requires k < |links|
    ensures Stitch(Token(k) + rest, links) == links[k] + Stitch(rest, links)
  {
    TokenMatches(k, rest);
    NumberOfDecimal(k);
  }

  /** Stitching the woven text gives the anchors in order exactly when every stretch is inert. */
  lemma {:induction false} StitchWeaveIff(ts: seq<string>, k: nat, links: seq<string>)
    requires k <= |links| && |ts| == |links| - k + 1
    requires forall i :: 0 <= i < |links| ==> links[i] != "" && links[i][0] == '<'
    ensures Stitch(Weave(ts, Tokens(k, |links| - k)), links) == Weave(ts, links[k..]) <==> AllInert(ts, |links|)
    decreases |links| - k
  {
    var n := |links| - k;
    if n == 0 {
      assert ts[0] + "" == ts[0];
      if Inert(ts[0], |links|, false) {
        StitchPassesInert(ts[0], "", links, false);
      } else {
        StitchDamages(ts[0], "", links, false, "");
      }
    } else {
      var tail := Weave(ts[1..], Tokens(k + 1, n - 1));
      var rest := Token(k) + tail;
      var wanted := links[k] + Weave(ts[1..], links[k + 1..]);
      assert links[k..][1..] == links[k + 1..];
      StitchWeaveIff(ts[1..], k + 1, links);
      InertTail(ts, |links|);
      if Inert(ts[0], |links|, true) {
        StitchPassesInert(ts[0], rest, links, true);
        StitchToken(k, tail, links);
        EqualTails(ts[0], links[k] + Stitch(tail, links), wanted);
        EqualTails(links[k], Stitch(tail, links), Weave(ts[1..], links[k + 1..]));
      } else {
        assert wanted[0] == links[k][0];
        StitchDamages(ts[0], rest, links, true, wanted);
      }
    }
  }

  lemma InertTail(ts: seq<string>, n: nat)
    requires |ts| > 1
    ensures AllInert(ts, n) <==> Inert(ts[0], n, true) && AllInert(ts[1..], n)
  {
    if AllInert(ts, n) {
      forall i | 0 <= i < |ts[1..]| ensures Inert(ts[1..][i], n, i + 1 < |ts[1..]|) {
        assert Inert(ts[i + 1], n, i + 2 < |ts|);
      }
    }
    if Inert(ts[0], n, true) && AllInert(ts[1..], n) {
      forall i | 0 <= i < |ts| ensures Inert(ts[i], n, i + 1 < |ts|) {
        if i > 0 { assert Inert(ts[1..][i - 1], n, i < |ts[1..]|); }
      }
    }
  }
}
