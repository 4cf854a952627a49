/** The whole renderer: when every anchor survives, and a text for which one does not. */
module InlineMdRender {
  import opened Wrappers
  import opened Text
  import opened HtmlEscape
  import opened InlineMd
  import opened InlineMdRewriting
  import opened InlineMdAnchors

  // Emphasis neither makes nor breaks placeholders

  lemma {:induction false} SkipWithoutAt(x: string, rest: string, n: nat, followed: bool)
    requires '@' !in x
    ensures Inert(x + rest, n, followed) <==> Inert(rest, n, followed)
    decreases |x|
  {
    if x == "" {
      assert x + rest == rest;
    } else {
      var s := x + rest;
      assert s[0] == x[0] && x[0] in x;
      assert TOKEN_HEAD[0] == '@' && !(TOKEN_HEAD <= s);
      assert s[1..] == x[1..] + rest;
      SkipWithoutAt(x[1..], rest, n, followed);
    }
  }

  lemma FirstCharKept(p: string, t: string)
    requires Rewrites(p, t)
    ensures p == "" <==> t == ""
    ensures p != "" ==> t[0] == p[0] || t[0] == '<'
    ensures p != "" && t[0] == '<' ==> p[0] == '<' || IsMark(p[0])
  {
    if p != "" && !(t != "" && p[0] == t[0] && Rewrites(p[1..], t[1..])) {
      var m: nat, g: string :| RunTag(p, t, m, g) && Rewrites(p[m..], t[|g|..]);
      TagFacts(g);
      assert t[0] == g[0] && p[..m][0] == p[0] && p[..m][0] in p[..m];
    }
  }

  lemma OpeningHasNoMarks(p: string)
    requires Opening(p) > 0
    ensures NoMarks(p[..9 + Opening(p)]) && '<' !in p[..9 + Opening(p)]
  {
    var x := p[..9 + Opening(p)];
    assert x == TOKEN_HEAD + p[9..9 + Opening(p)];
    forall c | c in x ensures !IsMark(c) && c != '<' {
      assert c in TOKEN_HEAD || c in p[9..9 + Opening(p)];
    }
  }

  /** Openings, and whether they close, are the same before and after the passes. */
  lemma OpeningKept(p: string, t: string, followed: bool)
    requires Rewrites(p, t)
    ensures var d := Opening(p);
            && Opening(t) == d
            && (d > 0 ==> t[..9 + d] == p[..9 + d] && Rewrites(p[9 + d..], t[9 + d..])
                          && (TakesNext(p[9 + d..], followed) <==> TakesNext(t[9 + d..], followed)))
  {
    if Opening(p) > 0 { OpeningStays(p, t); ClosingKept(p[9 + Opening(p)..], t[9 + Opening(p)..]); }
    if Opening(t) > 0 { OpeningWasThere(p, t); }
  }

  lemma KeepsUnmarkedPrefix(p: string, m: nat, t: string)
    requires m <= |p| && NoMarks(p[..m]) && Rewrites(p, t)
    ensures p[..m] <= t && Rewrites(p[m..], t[m..])
  {
    assert p == p[..m] + p[m..];
    KeepsUnmarked(p[..m], p[m..], t);
  }

  lemma OpeningStays(p: string, t: string)
    requires Rewrites(p, t) && Opening(p) > 0
    ensures var d := Opening(p);
            Opening(t) == d && 9 + d <= |t| && t[..9 + d] == p[..9 + d] && Rewrites(p[9 + d..], t[9 + d..])
  {
    var d := Opening(p);
    OpeningHasNoMarks(p);
    KeepsUnmarkedPrefix(p, 9 + d, t);
    FirstCharKept(p[9 + d..], t[9 + d..]);
    SameOpening(p, t, d);
  }

  lemma SameOpening(p: string, t: string, d: nat)
    requires d == Opening(p) && d > 0 && p[..9 + d] <= t
    requires 9 + d < |t| ==> t[9 + d] == '<' || (9 + d < |p| && t[9 + d] == p[9 + d])
    ensures Opening(t) == d
  {
    assert t[..9] == p[..9 + d][..9] && p[..9] == p[..9 + d][..9];
    assert t[9..][..d] == p[..9 + d][9..] && p[9..9 + d] == p[..9 + d][9..];
    DigitRunIs(t[9..], d);
  }

  lemma OpeningWasThere(p: string, t: string)
    requires Rewrites(p, t) && Opening(t) > 0
    ensures Opening(p) > 0
  {
    var e := Opening(t);
    OpeningHasNoMarks(t);
    assert t == t[..9 + e] + t[9 + e..];
    WasThere(p, t[..9 + e], t[9 + e..]);
    OpensIfPrefix(p, t, e);
  }

  lemma OpensIfPrefix(p: string, t: string, e: nat)
    requires e == Opening(t) && e > 0 && t[..9 + e] <= p
    ensures Opening(p) > 0
  {
    assert p[..9] == t[..9] && p[9] == t[9] && t[9] == t[9..9 + e][0] && t[9] in t[9..9 + e];
  }

  lemma ClosingKept(a: string, b: string)
    requires Rewrites(a, b)
    ensures "@@" <= a <==> "@@" <= b
    ensures "@@" <= a ==> Rewrites(a[2..], b[2..])
    ensures (a == "" <==> b == "") && (a == "@" <==> b == "@")
  {
    FirstCharKept(a, b);
    if "@@" <= a {
      assert a == "@@" + a[2..];
      KeepsUnmarked("@@", a[2..], b);
    }
    if "@@" <= b {
      assert b == "@@" + b[2..];
      WasThere(a, "@@", b[2..]);
    }
    if a == "@" {
      assert a == "@" + "";
      KeepsUnmarked("@", "", b);
      FirstCharKept("", b[1..]);
    }
    if b == "@" {
      assert b == "@" + "";
      WasThere(a, "@", "");
      FirstCharKept(a[1..], "");
    }
  }

  lemma {:induction false} RewritingKeepsInert(p: string, t: string, n: nat, followed: bool)
    requires Rewrites(p, t)
    ensures Inert(p, n, followed) <==> Inert(t, n, followed)
    decreases |p|
  {
    if p == "" {
      FirstCharKept(p, t);
    } else if t != "" && p[0] == t[0] && Rewrites(p[1..], t[1..]) {
      OpeningKept(p, t, followed);
      RewritingKeepsInert(p[1..], t[1..], n, followed);
      var d := Opening(p);
      if d > 0 {
        ClosingKept(p[9 + d..], t[9 + d..]);
        assert p[9..9 + d] == p[..9 + d][9..] && t[9..9 + d] == t[..9 + d][9..];
        if "@@" <= p[9 + d..] { RewritingKeepsInert(p[9 + d..][2..], t[9 + d..][2..], n, followed); }
      }
    } else {
      var m: nat, g: string :| RunTag(p, t, m, g) && Rewrites(p[m..], t[|g|..]);
      TagFacts(g);
      assert p == p[..m] + p[m..] && t == g + t[|g|..];
      SkipWithoutAt(p[..m], p[m..], n, followed);
      SkipWithoutAt(g, t[|g|..], n, followed);
      RewritingKeepsInert(p[m..], t[|g|..], n, followed);
    }
  }

  lemma AllRewriteKeepsInert(ps: seq<string>, ts: seq<string>, n: nat)
    requires AllRewrite(ps, ts)
    ensures AllInert(ps, n) <==> AllInert(ts, n)
  {
    forall i | 0 <= i < |ps| ensures Inert(ps[i], n, i + 1 < |ps|) <==> Inert(ts[i], n, i + 1 < |ts|) {
      RewritingKeepsInert(ps[i], ts[i], n, i + 1 < |ps|);
    }
  }

  lemma {:induction false} LinksAreAnchors(s: string)
    ensures forall i :: 0 <= i < |Links(s)| ==> Links(s)[i] != "" && Links(s)[i][0] == '<'
    decreases |s|
  {
    if s != "" {
      if MatchLink(s).Some? { LinksAreAnchors(AfterLink(s)); } else { LinksAreAnchors(s[1..]); }
    }
  }

  /** Emphasis acts on each stretch between the links on its own, whatever the text; and the anchors come back
      in order, each exactly once and unaltered, exactly when every stretch is inert. */
  lemma AnchorsSurviveIff(text: string) returns (ts: seq<string>)
    ensures var html := EscapeHtml(text);
            var links := Links(html);
            && AllRewrite(Pieces(html), ts)
            && Emphasise(Extract(html, 0).0) == Weave(ts, Tokens(0, |links|))
            && (Render(text) == Weave(ts, links) <==> AllInert(Pieces(html), |links|))
  {
    var html := EscapeHtml(text);
    var links := Links(html);
    var ps := Pieces(html);
    ExtractIsWeave(html, 0);
    var woven := Weave(ps, Tokens(0, |links|));
    EmphasiseRewrites(woven);
    ts := RewriteWeave(ps, 0, |links|, Emphasise(woven));
    AllRewriteKeepsInert(ps, ts, |links|);
    LinksAreAnchors(html);
    StitchWeaveIff(ts, 0, links);
    assert links[0..] == links;
  }

  // What an anchor can contain

  /** An address the renderer lets through, and no character in it or in the label that could end the
      attribute or open a tag. */
  ghost predicate SafeAnchor(a: string) {
    exists href, caption ::
      && a == Anchor(href, caption)
      && Harmless(href) && Harmless(caption)
      && (StartsWithHttp(href) || ("/" <= href && !("//" <= href)))
  }

  lemma PartIsHarmless(s: string, i: nat, j: nat)
    requires Harmless(s) && i <= j <= |s|
    ensures Harmless(s[i..j]) && Harmless(s[i..])
  {
    assert forall c :: c in s[i..j] ==> c in s;
    assert forall c :: c in s[i..] ==> c in s;
  }

  lemma {:induction false} TrimKeepsHarmless(s: string)
    requires Harmless(s)
    ensures Harmless(Trim(s))
    decreases |s|
  {
    if s != "" {
      PartIsHarmless(s, 1, |s|);
      PartIsHarmless(s, 0, |s| - 1);
      assert s[0..|s| - 1] == s[..|s| - 1];
      if IsScriptSpace(s[0]) { TrimKeepsHarmless(s[1..]); }
      else if IsScriptSpace(s[|s| - 1]) { TrimKeepsHarmless(s[..|s| - 1]); }
    }
  }

  lemma LinkPartsAreHarmless(s: string)
    requires Harmless(s) && MatchLink(s).Some?
    ensures Harmless(Label(s)) && Harmless(Href(s)) && Harmless(AfterLink(s))
  {
    var m := MatchLink(s).value;
    PartIsHarmless(s, 1, 1 + m.caption);
    PartIsHarmless(s, m.caption + 3, m.caption + 3 + m.href);
    PartIsHarmless(s, m.caption + m.href + 4, |s|);
  }

  lemma LetThroughIsSafe(raw: string, caption: string)
    requires Harmless(raw) && Harmless(caption)
    ensures var safe := SafeHref(raw); safe.Some? ==> SafeAnchor(Anchor(safe.value, caption))
  {
    TrimKeepsHarmless(raw);
  }

  lemma {:induction false} LinksAreSafe(s: string)
    requires Harmless(s)
    ensures forall i :: 0 <= i < |Links(s)| ==> SafeAnchor(Links(s)[i])
    decreases |s|
  {
    if s != "" {
      if MatchLink(s).Some? {
        LinkPartsAreHarmless(s);
        LinksAreSafe(AfterLink(s));
        LetThroughIsSafe(Href(s), Label(s));
      } else {
        PartIsHarmless(s, 1, |s|);
        LinksAreSafe(s[1..]);
      }
    }
  }

  /** For every text: each anchor the renderer stitches in is safe. */
  lemma RenderedAnchorsAreSafe(text: string)
    ensures forall i :: 0 <= i < |Links(EscapeHtml(text))| ==> SafeAnchor(Links(EscapeHtml(text))[i])
  {
    EscapedIsHarmless(text);
    LinksAreSafe(EscapeHtml(text));
  }

  // A condition on the text itself

  const WORD: string := "PQLLINK"

  /** No link in the escaped text has an address that is refused. */
  predicate NoRefusedLinks(s: string)
    decreases |s|
  {
    if s == "" then true
    else if MatchLink(s).Some? then SafeHref(Href(s)).Some? && NoRefusedLinks(AfterLink(s))
    else NoRefusedLinks(s[1..])
  }

  lemma MentionsLater(s: string, i: nat)
    requires i <= |s|
    ensures Contains(s[i..], WORD) ==> Contains(s, WORD)
  {
    if Contains(s[i..], WORD) {
      var j :| 0 <= j <= |s[i..]| && WORD <= s[i..][j..];
      assert s[i..][j..] == s[i + j..];
    }
  }

  lemma HeadMentions(t: string)
    ensures TOKEN_HEAD <= t ==> Contains(t, WORD)
  {
    if TOKEN_HEAD <= t { assert t[2..][..7] == WORD && WORD <= t[2..]; }
  }

  lemma {:induction false} UnmentionedIsInert(t: string, n: nat, followed: bool)
    requires !Contains(t, WORD)
    ensures Inert(t, n, followed)
    decreases |t|
  {
    if t != "" {
      HeadMentions(t);
      MentionsLater(t, 1);
      UnmentionedIsInert(t[1..], n, followed);
    }
  }

  /** With no refused link, a stretch that mentions the word lies in a text that does. */
  lemma {:induction false} PiecesDoNotMention(s: string)
    requires NoRefusedLinks(s) && !Contains(s, WORD)
    ensures Pieces(s)[0] <= s
    ensures forall i :: 0 <= i < |Pieces(s)| ==> !Contains(Pieces(s)[i], WORD)
    decreases |s|
  {
    if s != "" {
      if MatchLink(s).Some? {
        var rest := AfterLink(s);
        MentionsLater(s, |s| - |rest|);
        PiecesDoNotMention(rest);
        assert !Contains("", WORD);
        assert Pieces(s) == [""] + Pieces(rest);
      } else {
        MentionsLater(s, 1);
        PiecesDoNotMention(s[1..]);
        assert Pieces(s)[0] <= s;
        PrefixMentions(Pieces(s)[0], s);
        assert Pieces(s)[1..] == Pieces(s[1..])[1..];
        forall i | 0 <= i < |Pieces(s)| ensures !Contains(Pieces(s)[i], WORD) {
          if i > 0 { assert Pieces(s)[i] == Pieces(s)[1..][i - 1] == Pieces(s[1..])[i]; }
        }
      }
    }
  }

  lemma PrefixMentions(p: string, s: string)
    requires p <= s
    ensures Contains(p, WORD) ==> Contains(s, WORD)
  {
    if Contains(p, WORD) {
      var i :| 0 <= i <= |p| && WORD <= p[i..];
      assert p[i..] <= s[i..];
    }
  }

  /** Escaping brings no capital letters in, so it does not make up the word. */
  lemma {:induction false} EscapedPrefix(w: string, s: string)
    requires w <= EscapeEach(s) && forall c :: c in w ==> 'A' <= c <= 'Z'
    ensures w <= s
    decreases |s|
  {
    if w != "" {
      assert s != "";
      assert w[0] == Entity(s[0])[0] && w[0] in w;
      assert Entity(s[0]) == [s[0]];
      assert EscapeEach(s)[1..] == EscapeEach(s[1..]);
      forall c | c in w[1..] ensures 'A' <= c <= 'Z' { assert c in w; }
      EscapedPrefix(w[1..], s[1..]);
    }
  }

  lemma EntityHasNoCapital(c: char)
    requires Entity(c) != [c]
    ensures 'P' !in Entity(c)
  {
  }

  lemma WordStarts(s: string, i: nat)
    requires i <= |s| && WORD <= s[i..]
    ensures i < |s| && s[i] == 'P'
  {
    assert s[i..][0] == WORD[0];
  }

  /** The word cannot begin inside what the first character is escaped to. */
  lemma HeadDoesNotMention(s: string, i: nat)
    requires s != "" && !Contains(s, WORD) && i < |Entity(s[0])| && i <= |EscapeEach(s)|
    ensures !(WORD <= EscapeEach(s)[i..])
  {
    var e, head := EscapeEach(s), Entity(s[0]);
    if WORD <= e[i..] {
      WordStarts(e, i);
      assert e[i] == head[i] && head[i] in head;
      if head != [s[0]] { EntityHasNoCapital(s[0]); }
      assert i == 0 && e[0..] == e && s[0..] == s;
      WordIsCapital();
      EscapedPrefix(WORD, s);
    }
  }

  lemma WordIsCapital()
    ensures forall c :: c in WORD ==> 'A' <= c <= 'Z'
  {
  }

  lemma {:induction false} EscapeDoesNotMention(s: string)
    requires !Contains(s, WORD)
    ensures !Contains(EscapeEach(s), WORD)
    decreases |s|
  {
    if s != "" {
      MentionsLater(s, 1);
      EscapeDoesNotMention(s[1..]);
      var e, n := EscapeEach(s), |Entity(s[0])|;
      forall i | 0 <= i <= |e| ensures !(WORD <= e[i..]) {
        if i < n { HeadDoesNotMention(s, i); } else { assert e[i..] == EscapeEach(s[1..])[i - n..]; }
      }
    }
  }

  /** For every text without the word, unless a link in it is refused, all anchors survive. */
  lemma AnchorsSurvive(text: string) returns (ts: seq<string>)
    requires !Contains(text, WORD) && NoRefusedLinks(EscapeHtml(text))
    ensures AllRewrite(Pieces(EscapeHtml(text)), ts) && Render(text) == Weave(ts, Links(EscapeHtml(text)))
  {
    var html := EscapeHtml(text);
    EscapeIsOnePass(text);
    EscapeDoesNotMention(text);
    PiecesDoNotMention(html);
    forall i | 0 <= i < |Pieces(html)| ensures Inert(Pieces(html)[i], |Links(html)|, i + 1 < |Pieces(html)|) {
      UnmentionedIsInert(Pieces(html)[i], |Links(html)|, i + 1 < |Pieces(html)|);
    }
    ts := AnchorsSurviveIff(text);
  }

  // A text without the word that still forges a placeholder

  function LinkText(caption: string, href: string, rest: string): string {
    "[" + (caption + ("](" + (href + (")" + rest))))
  }

  lemma {:induction false} RunIs(a: string, stop: char, b: string)
    requires stop !in a
    ensures RunWithout(a + ([stop] + b), stop) == |a|
  {
    var s := a + ([stop] + b);
    if a != "" {
      assert s[1..] == a[1..] + ([stop] + b) && s[0] == a[0] && a[0] in a;
      RunIs(a[1..], stop, b);
    }
  }

  lemma {:induction false} HrefRunIs(a: string, b: string)
    requires forall c :: c in a ==> c != ')' && !IsScriptSpace(c)
    ensures HrefRun(a + (")" + b)) == |a|
  {
    var s := a + (")" + b);
    if a != "" {
      assert s[1..] == a[1..] + (")" + b) && s[0] == a[0] && a[0] in a;
      assert forall c :: c in a[1..] ==> c in a;
      HrefRunIs(a[1..], b);
    }
  }

  lemma LinkSlices(caption: string, href: string, rest: string)
    ensures var s := LinkText(caption, href, rest);
            var n, k := |caption|, |href|;
            && |s| == n + k + 4 + |rest| && s[0] == '['
            && s[1..] == caption + ([']'] + ("(" + (href + (")" + rest))))
            && s[1..1 + n] == caption && s[n + 1..n + 3] == "](" && s[n + 3..] == href + (")" + rest)
            && s[n + 3..n + 3 + k] == href && s[n + 3 + k] == ')' && s[n + k + 4..] == rest
  {
    assert "](" + (href + (")" + rest)) == [']'] + ("(" + (href + (")" + rest)));
  }

  lemma LinkAt(caption: string, href: string, rest: string)
    requires caption != "" && ']' !in caption && href != ""
    requires forall c :: c in href ==> c != ')' && !IsScriptSpace(c)
    ensures var s := LinkText(caption, href, rest);
            && MatchLink(s) == Some(LinkMatch(|caption|, |href|))
            && Label(s) == caption && Href(s) == href && AfterLink(s) == rest
  {
    LinkSlices(caption, href, rest);
    RunIs(caption, ']', "(" + (href + (")" + rest)));
    HrefRunIs(href, rest);
  }

  lemma ExtractPlainChar(s: string, k: nat)
    requires s != "" && s[0] != '['
    ensures Extract(s, k).0 == [s[0]] + Extract(s[1..], k).0 && Extract(s, k).1 == Extract(s[1..], k).1
  {
    assert MatchLink(s).None?;
  }

  lemma {:induction false} PlainExtract(x: string, rest: string, k: nat)
    requires '[' !in x
    ensures Extract(x + rest, k).0 == x + Extract(rest, k).0 && Extract(x + rest, k).1 == Extract(rest, k).1
  {
    if x == "" {
      assert x + rest == rest;
    } else {
      var s := x + rest;
      assert s[0] == x[0] && x[0] in x && s[1..] == x[1..] + rest;
      ExtractPlainChar(s, k);
      PlainExtract(x[1..], rest, k);
      SplitAt(x, 1, Extract(rest, k).0);
    }
  }

  lemma {:induction false} EscapePlain(s: string)
    requires forall c :: c in s ==> Entity(c) == [c]
    ensures EscapeHtml(s) == s
  {
    EscapeIsOnePass(s);
    if s != "" {
      EscapePlain(s[1..]);
      EscapeIsOnePass(s[1..]);
      assert s == [s[0]] + s[1..] && s[0] in s;
    }
  }

  lemma UnmarkedIsNotEmphasised(s: string)
    requires NoMarks(s)
    ensures Emphasise(s) == s
  {
    EmphasiseRewrites(s);
    assert s + "" == s;
    KeepsUnmarked(s, "", Emphasise(s));
    FirstCharKept("", Emphasise(s)[|s|..]);
  }

  const FORGED: string := "[a](/x)@@PQL[LINK0@@](b)"

  lemma RefusedPartExtracts()
    ensures Extract(LinkText("LINK0@@", "b", ""), 1) == ("LINK0@@" + "", [])
  {
    LinkAt("LINK0@@", "b", "");
    assert LowerCase("b")[0] == 'b';
    assert SafeHref("b").None?;
  }

  lemma RestExtracts(rest: string)
    requires rest == "@@PQL" + LinkText("LINK0@@", "b", "")
    ensures Extract(rest, 1).0 == "@@PQL" + ("LINK0@@" + "") && Extract(rest, 1).1 == []
  {
    PlainExtract("@@PQL", LinkText("LINK0@@", "b", ""), 1);
    RefusedPartExtracts();
  }

  /** With parts given by name, so that the text is not taken apart again. */
  lemma FirstLinkExtracts(s: string, rest: string)
    requires s == LinkText("a", "/x", rest)
    ensures Extract(s, 0).0 == Token(0) + Extract(rest, 1).0
    ensures Extract(s, 0).1 == [Anchor("/x", "a")] + Extract(rest, 1).1
  {
    LinkAt("a", "/x", rest);
    assert SafeHref("/x") == Some("/x");
  }

  lemma ForgedParts(rest: string)
    requires rest == "@@PQL" + LinkText("LINK0@@", "b", "")
    ensures FORGED == LinkText("a", "/x", rest)
  {
    assert LinkText("LINK0@@", "b", "") == "[LINK0@@](b)";
  }

  lemma ForgedToken()
    ensures "@@PQL" + ("LINK0@@" + "") == Token(0) + ""
  {
    assert Decimal(0) == "0";
  }

  lemma ForgedExtracts()
    ensures Extract(FORGED, 0).0 == Token(0) + (Token(0) + "") && Extract(FORGED, 0).1 == [Anchor("/x", "a")]
  {
    var rest := "@@PQL" + LinkText("LINK0@@", "b", "");
    ForgedParts(rest);
    ForgedToken();
    RestExtracts(rest);
    FirstLinkExtracts(FORGED, rest);
  }

  lemma WordAt(s: string, i: nat)
    requires i <= |s| && WORD <= s[i..]
    ensures i + 3 < |s| && s[i] == 'P' && s[i + 3] == 'L'
  {
    assert s[i..][0] == WORD[0] && s[i..][3] == WORD[3];
  }

  lemma ForgedDoesNotMention()
    ensures !Contains(FORGED, WORD)
  {
    if i :| 0 <= i <= |FORGED| && WORD <= FORGED[i..] {
      WordAt(FORGED, i);
      OnlyP(i);
    }
  }

  lemma OnlyP(i: nat)
    requires i + 3 < |FORGED| && FORGED[i] == 'P'
    ensures FORGED[i + 3] == '['
  {
    assert i == 9;
  }

  lemma ForgedIsStitchedTwice()
    ensures Stitch(Emphasise(Token(0) + (Token(0) + "")), [Anchor("/x", "a")]) == Anchor("/x", "a") + (Anchor("/x", "a") + "")
  {
    var links := [Anchor("/x", "a")];
    TokenHasNoMarks(0);
    UnmarkedIsNotEmphasised(Token(0) + (Token(0) + ""));
    StitchToken(0, Token(0) + "", links);
    StitchToken(0, "", links);
  }

  /** No placeholder word in the text, one link in it, and its anchor comes out twice. */
  lemma RefusedLinkForgesAnchor()
    ensures !Contains(FORGED, WORD)
    ensures var a := Anchor("/x", "a"); Links(EscapeHtml(FORGED)) == [a] && Render(FORGED) == a + (a + "")
  {
    ForgedDoesNotMention();
    ForgedIsPlain();
    ForgedExtracts();
    ExtractIsWeave(FORGED, 0);
    ForgedIsStitchedTwice();
  }

  lemma ForgedIsPlain()
    ensures EscapeHtml(FORGED) == FORGED
  {
    EscapePlain(FORGED);
  }
}
