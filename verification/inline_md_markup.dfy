/** What a rendered text is made of, whatever the author wrote. */
module InlineMdMarkup {
  import opened Text
  import opened HtmlEscape
  import opened InlineMd
  import opened InlineMdRewriting
  import opened InlineMdAnchors
  import opened InlineMdRender

  /** A tag of the renderer's own, or one of its anchors, starts the string. */
  predicate Element(g: string, s: string, links: seq<string>) {
    g != "" && g <= s && (g in TAGS || g in links)
  }

  /** A sequence of harmless characters, tags and anchors. */
  ghost predicate MadeOf(s: string, links: seq<string>)
    decreases |s|
  {
    || s == ""
    || (IsHarmless(s[0]) && MadeOf(s[1..], links))
    || (exists g :: Element(g, s, links) && MadeOf(s[|g|..], links))
  }

  lemma PutElement(g: string, s: string, links: seq<string>)
    requires g != "" && (g in TAGS || g in links) && MadeOf(s, links)
    ensures MadeOf(g + s, links)
  {
    assert (g + s)[|g|..] == s;
    assert Element(g, g + s, links);
  }

  lemma PutChar(c: char, s: string, links: seq<string>)
    requires IsHarmless(c) && MadeOf(s, links)
    ensures MadeOf([c] + s, links)
  {
    assert ([c] + s)[1..] == s;
  }

  lemma {:induction false} PutHarmless(x: string, s: string, links: seq<string>)
    requires Harmless(x) && MadeOf(s, links)
    ensures MadeOf(x + s, links)
  {
    if x == "" {
      assert x + s == s;
    } else {
      assert x[0] in x && forall c :: c in x[1..] ==> c in x;
      PutHarmless(x[1..], s, links);
      PutChar(x[0], x[1..] + s, links);
      SplitAt(x, 1, s);
    }
  }

  // After the emphasis passes: harmless characters and tags

  lemma {:induction false} RewritingIsMadeOf(s: string, t: string)
    requires Harmless(s) && Rewrites(s, t)
    ensures MadeOf(t, [])
    decreases |s|
  {
    if s != "" {
      if t != "" && s[0] == t[0] && Rewrites(s[1..], t[1..]) {
        PartIsHarmless(s, 1, |s|);
        assert s[0] in s;
        RewritingIsMadeOf(s[1..], t[1..]);
        PutChar(t[0], t[1..], []);
        assert t == [t[0]] + t[1..];
      } else {
        var m: nat, g: string :| RunTag(s, t, m, g) && Rewrites(s[m..], t[|g|..]);
        PartIsHarmless(s, m, |s|);
        TagFacts(g);
        RewritingIsMadeOf(s[m..], t[|g|..]);
        PutElement(g, t[|g|..], []);
        assert t == g + t[|g|..];
      }
    }
  }

  lemma DecimalIsHarmless(n: nat)
    ensures Harmless(Decimal(n))
  {
    forall c | c in Decimal(n) ensures IsHarmless(c) { assert IsDigit(c); }
  }

  lemma TokenIsHarmless(k: nat)
    ensures Harmless(Token(k))
  {
    DecimalIsHarmless(k);
    assert Harmless(TOKEN_HEAD) && Harmless("@@");
  }

  lemma JoinIsHarmless(a: string, b: string)
    requires Harmless(a) && Harmless(b)
    ensures Harmless(a + b)
  {
  }

  lemma {:induction false} ExtractIsHarmless(s: string, k: nat)
    requires Harmless(s)
    ensures Harmless(Extract(s, k).0)
    decreases |s|
  {
    if s != "" {
      if MatchLink(s).Some? {
        LinkPartsAreHarmless(s);
        ExtractIsHarmless(AfterLink(s), k + 1);
        ExtractIsHarmless(AfterLink(s), k);
        TokenIsHarmless(k);
        JoinIsHarmless(Token(k), Extract(AfterLink(s), k + 1).0);
        JoinIsHarmless(Label(s), Extract(AfterLink(s), k).0);
      } else {
        PartIsHarmless(s, 1, |s|);
        assert s[0] in s;
        ExtractIsHarmless(s[1..], k);
        JoinIsHarmless([s[0]], Extract(s[1..], k).0);
      }
    }
  }

  // After stitching: anchors besides

  lemma ElementIsTag(g: string, s: string)
    requires Element(g, s, [])
    ensures s != "" && s[0] == '<'
  {
    TagFacts(g);
    assert g[0] == s[0];
  }

  /** Before anchors are in, a stretch without `<` holds no part of a tag. */
  lemma {:induction false} AfterHarmless(s: string, m: nat)
    requires m <= |s| && MadeOf(s, []) && '<' !in s[..m]
    ensures MadeOf(s[m..], []) && Harmless(s[..m])
    decreases m
  {
    if m > 0 {
      forall g | Element(g, s, []) ensures s[0] == '<' { ElementIsTag(g, s); }
      assert s[0] == s[..m][0] && s[0] in s[..m];
      assert s[1..][..m - 1] == s[1..m];
      forall c | c in s[1..m] ensures c in s[..m] {}
      AfterHarmless(s[1..], m - 1);
      assert s[1..][m - 1..] == s[m..] && s[..m] == [s[0]] + s[1..m];
    }
  }

  lemma PlaceholderHasNoTag(s: string)
    requires MatchToken(s).Some?
    ensures '<' !in s[..MatchToken(s).value + 11]
  {
    var d := MatchToken(s).value;
    var x := s[..d + 11];
    assert x == TOKEN_HEAD + (s[9..9 + d] + "@@") by {
      assert s[9 + d..][..2] == s[9 + d..d + 11];
    }
    forall c | c in x ensures c != '<' {
      assert c in TOKEN_HEAD || c in s[9..9 + d] || c in "@@";
    }
  }

  lemma {:induction false} StitchPassesTag(x: string, rest: string, links: seq<string>)
    requires '@' !in x
    ensures Stitch(x + rest, links) == x + Stitch(rest, links)
  {
    if x == "" {
      assert x + rest == rest;
    } else {
      assert (x + rest)[0] == x[0] && x[0] in x;
      StitchSkips(x, rest, links);
      StitchPassesTag(x[1..], rest, links);
      SplitAt(x, 1, Stitch(rest, links));
    }
  }

  lemma StitchPlaceholder(s: string, links: seq<string>)
    requires MatchToken(s).Some? && MadeOf(s, []) && (forall i :: 0 <= i < |links| ==> links[i] != "")
    requires MadeOf(Stitch(s[MatchToken(s).value + 11..], links), links)
    ensures MadeOf(Stitch(s, links), links) && MadeOf(s[MatchToken(s).value + 11..], [])
  {
    var d := MatchToken(s).value;
    PlaceholderHasNoTag(s);
    AfterHarmless(s, d + 11);
    var i := NumberOf(s[9..9 + d]);
    var rest := Stitch(s[d + 11..], links);
    if i < |links| { PutElement(links[i], rest, links); } else { PutHarmless(s[..d + 11], rest, links); }
  }

  lemma {:induction false} StitchIsMadeOf(s: string, links: seq<string>)
    requires MadeOf(s, []) && forall i :: 0 <= i < |links| ==> links[i] != ""
    ensures MadeOf(Stitch(s, links), links)
    decreases |s|
  {
    if s != "" {
      if MatchToken(s).Some? {
        var d := MatchToken(s).value;
        PlaceholderHasNoTag(s);
        AfterHarmless(s, d + 11);
        StitchIsMadeOf(s[d + 11..], links);
        StitchPlaceholder(s, links);
      } else if IsHarmless(s[0]) && MadeOf(s[1..], []) {
        StitchIsMadeOf(s[1..], links);
        PutChar(s[0], Stitch(s[1..], links), links);
      } else {
        var g :| Element(g, s, []) && MadeOf(s[|g|..], []);
        TagFacts(g);
        StitchIsMadeOf(s[|g|..], links);
        assert s == g + s[|g|..];
        StitchPassesTag(g, s[|g|..], links);
        PutElement(g, Stitch(s[|g|..], links), links);
      }
    }
  }

  /** No markup of the author's survives, in any text: what is rendered is harmless characters, the six tags and
      anchors with a permitted address. */
  lemma NoForeignMarkup(text: string)
    ensures var links := Links(EscapeHtml(text));
            MadeOf(Render(text), links) && forall i :: 0 <= i < |links| ==> SafeAnchor(links[i])
  {
    var html := EscapeHtml(text);
    var links := Links(html);
    EscapedIsHarmless(text);
    ExtractIsWeave(html, 0);
    ExtractIsHarmless(html, 0);
    EmphasiseRewrites(Extract(html, 0).0);
    RewritingIsMadeOf(Extract(html, 0).0, Emphasise(Extract(html, 0).0));
    LinksAreAnchors(html);
    StitchIsMadeOf(Emphasise(Extract(html, 0).0), links);
    RenderedAnchorsAreSafe(text);
  }
}
