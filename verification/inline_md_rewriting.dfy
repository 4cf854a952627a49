/** The emphasis passes only ever replace runs of marks by tags. */
module InlineMdRewriting {
  import opened Wrappers
  import opened InlineMd

  const TAGS: set<string> := {"<code>", "</code>", "<strong>", "</strong>", "<em>", "</em>"}

  predicate IsMark(c: char) { c == '`' || c == '*' || c == '_' }

  predicate AllMarks(s: string) { forall c :: c in s ==> IsMark(c) }

  predicate NoMarks(s: string) { forall c :: c in s ==> !IsMark(c) }

  /** s starts with a run of m marks, and t with the tag g that stands for it. */
  predicate RunTag(s: string, t: string, m: nat, g: string) {
    1 <= m <= |s| && AllMarks(s[..m]) && g in TAGS && g <= t
  }

  /** t is s with some runs of marks replaced by tags, and every other character kept in its place. */
  ghost predicate Rewrites(s: string, t: string)
    decreases |s|
  {
    || (s == "" && t == "")
    || (s != "" && t != "" && s[0] == t[0] && Rewrites(s[1..], t[1..]))
    || (exists m: nat, g: string :: RunTag(s, t, m, g) && Rewrites(s[m..], t[|g|..]))
  }

  lemma TagFacts(g: string)
    requires g in TAGS
    ensures g != "" && g[0] == '<' && NoMarks(g) && '@' !in g
  {
  }

  lemma NoRunAt(s: string, t: string)
    requires s != "" && !IsMark(s[0])
    ensures forall m: nat, g: string :: !RunTag(s, t, m, g)
  {
    forall m: nat, g: string ensures !RunTag(s, t, m, g) {
      if 1 <= m <= |s| { assert s[..m][0] == s[0] && s[..m][0] in s[..m]; }
    }
  }

  lemma NoRunInto(s: string, t: string)
    requires t != "" && t[0] != '<'
    ensures forall m: nat, g: string :: !RunTag(s, t, m, g)
  {
  }

  lemma {:induction false} RewritesSelf(s: string)
    ensures Rewrites(s, s)
  {
    if s != "" { RewritesSelf(s[1..]); }
  }

  lemma RunThen(s: string, t: string, m: nat, g: string, s': string, t': string)
    requires RunTag(s, t, m, g) && s' == s[m..] && t' == t[|g|..] && Rewrites(s', t')
    ensures Rewrites(s, t)
  {
  }

  lemma {:induction false} RewritesConcat(a: string, b: string, c: string, d: string)
    requires Rewrites(a, b) && Rewrites(c, d)
    ensures Rewrites(a + c, b + d)
    decreases |a|
  {
    if a == "" && b == "" {
      assert a + c == c && b + d == d;
    } else if a != "" && b != "" && a[0] == b[0] && Rewrites(a[1..], b[1..]) {
      RewritesConcat(a[1..], b[1..], c, d);
      assert (a + c)[1..] == a[1..] + c && (b + d)[1..] == b[1..] + d;
    } else {
      var m: nat, g: string :| RunTag(a, b, m, g) && Rewrites(a[m..], b[|g|..]);
      RewritesConcat(a[m..], b[|g|..], c, d);
      RunTagConcat(a, b, c, d, m, g);
      RunThen(a + c, b + d, m, g, a[m..] + c, b[|g|..] + d);
    }
  }

  lemma RunTagConcat(a: string, b: string, c: string, d: string, m: nat, g: string)
    requires RunTag(a, b, m, g)
    ensures RunTag(a + c, b + d, m, g) && (a + c)[m..] == a[m..] + c && (b + d)[|g|..] == b[|g|..] + d
  {
    assert (a + c)[..m] == a[..m];
  }

  lemma RunRewrites(m: string, g: string)
    requires m != "" && AllMarks(m) && g in TAGS
    ensures Rewrites(m, g)
  {
    assert m[..|m|] == m && m[|m|..] == "" && g[|g|..] == "";
    assert RunTag(m, g, |m|, g) && Rewrites("", "");
  }

  /** A stretch without marks is kept as it is. */
  lemma {:induction false} KeepsUnmarked(x: string, b: string, t: string)
    requires NoMarks(x) && Rewrites(x + b, t)
    ensures x <= t && Rewrites(b, t[|x|..])
    decreases |x|
  {
    if x == "" {
      assert x + b == b && t[0..] == t;
    } else {
      assert (x + b)[0] == x[0] && x[0] in x;
      NoRunAt(x + b, t);
      assert (x + b)[1..] == x[1..] + b;
      KeepsUnmarked(x[1..], b, t[1..]);
      assert t[1..][|x| - 1..] == t[|x|..];
    }
  }

  /** A stretch of the result without `<` was there before. */
  lemma {:induction false} WasThere(s: string, x: string, t: string)
    requires '<' !in x && Rewrites(s, x + t)
    ensures x <= s && Rewrites(s[|x|..], t)
    decreases |x|
  {
    if x == "" {
      assert x + t == t && s[0..] == s;
    } else {
      var u := x + t;
      assert u[0] == x[0] && x[0] in x;
      NoRunInto(s, u);
      assert u[1..] == x[1..] + t;
      WasThere(s[1..], x[1..], t);
      assert s[1..][|x| - 1..] == s[|x|..];
    }
  }

  lemma MarksHaveNoTagStart(x: string)
    requires AllMarks(x)
    ensures '<' !in x
  {
  }

  lemma {:induction false} RewritesCompose(s: string, t: string, u: string)
    requires Rewrites(s, t) && Rewrites(t, u)
    ensures Rewrites(s, u)
    decreases |s|
  {
    if s == "" {
      assert t == "" && u == "";
    } else if t != "" && s[0] == t[0] && Rewrites(s[1..], t[1..]) {
      if u != "" && t[0] == u[0] && Rewrites(t[1..], u[1..]) {
        RewritesCompose(s[1..], t[1..], u[1..]);
      } else {
        var m: nat, g: string :| RunTag(t, u, m, g) && Rewrites(t[m..], u[|g|..]);
        MarksHaveNoTagStart(t[..m]);
        assert t == t[..m] + t[m..];
        WasThere(s, t[..m], t[m..]);
        assert s[..m] == t[..m];
        RewritesCompose(s[m..], t[m..], u[|g|..]);
        assert RunTag(s, u, m, g);
      }
    } else {
      var m: nat, g: string :| RunTag(s, t, m, g) && Rewrites(s[m..], t[|g|..]);
      TagFacts(g);
      assert t == g + t[|g|..];
      KeepsUnmarked(g, t[|g|..], u);
      RewritesCompose(s[m..], t[|g|..], u[|g|..]);
      assert RunTag(s, u, m, g);
    }
  }

  // The passes

  lemma CharThen(s: string, t: string)
    requires s != "" && Rewrites(s[1..], t)
    ensures Rewrites(s, [s[0]] + t)
  {
    assert ([s[0]] + t)[1..] == t;
  }

  /** open body close rest, with tags for the two runs. */
  lemma EnclosedRewrites(s: string, run: string, body: string, rest: string, open: string, close: string, t: string)
    requires run != "" && AllMarks(run) && open in TAGS && close in TAGS
    requires s == run + (body + (run + rest)) && Rewrites(rest, t)
    ensures Rewrites(s, open + body + close + t)
  {
    RunThenRest(run, close, rest, t);
    BodyThenRest(body, run + rest, close + t);
    RunThenRest(run, open, body + (run + rest), body + (close + t));
    RegroupFour(open, body, close, t);
  }

  lemma RunThenRest(run: string, tag: string, rest: string, t: string)
    requires run != "" && AllMarks(run) && tag in TAGS && Rewrites(rest, t)
    ensures Rewrites(run + rest, tag + t)
  {
    RunRewrites(run, tag);
    RewritesConcat(run, tag, rest, t);
  }

  lemma BodyThenRest(body: string, rest: string, t: string)
    requires Rewrites(rest, t)
    ensures Rewrites(body + rest, body + t)
  {
    RewritesSelf(body);
    RewritesConcat(body, body, rest, t);
  }

  lemma RegroupFour(a: string, b: string, c: string, d: string)
    ensures a + b + c + d == a + (b + (c + d))
  {
  }

  lemma {:induction false} CodeRewrites(s: string)
    ensures Rewrites(s, CodePass(s))
    decreases |s|
  {
    if s != "" {
      var n := RunWithout(s[1..], '`');
      if s[0] == '`' && n > 0 && n + 1 < |s| {
        CodeRewrites(s[n + 2..]);
        assert s == "`" + (s[1..n + 1] + ("`" + s[n + 2..]));
        EnclosedRewrites(s, "`", s[1..n + 1], s[n + 2..], "<code>", "</code>", CodePass(s[n + 2..]));
      } else {
        CodeRewrites(s[1..]);
        CharThen(s, CodePass(s[1..]));
      }
    }
  }

  lemma BoldParts(s: string, n: nat)
    requires "**" <= s && n + 2 <= |s| && "**" <= s[n + 2..]
    ensures s == "**" + (s[2..n + 2] + ("**" + s[n + 4..]))
  {
    assert s[n + 2..] == "**" + s[n + 4..] && s == "**" + (s[2..n + 2] + s[n + 2..]);
  }

  lemma BoldHere(s: string, n: nat)
    requires "**" <= s && n == RunWithout(s[2..], '*') && n > 0 && "**" <= s[n + 2..]
    requires Rewrites(s[n + 4..], BoldPass(s[n + 4..]))
    ensures Rewrites(s, BoldPass(s))
  {
    BoldParts(s, n);
    EnclosedRewrites(s, "**", s[2..n + 2], s[n + 4..], "<strong>", "</strong>", BoldPass(s[n + 4..]));
  }

  lemma {:induction false} BoldRewrites(s: string)
    ensures Rewrites(s, BoldPass(s))
    decreases |s|
  {
    if s != "" {
      var n := if "**" <= s then RunWithout(s[2..], '*') else 0;
      if "**" <= s && n > 0 && "**" <= s[n + 2..] {
        BoldRewrites(s[n + 4..]);
        BoldHere(s, n);
      } else {
        BoldRewrites(s[1..]);
        CharThen(s, BoldPass(s[1..]));
      }
    }
  }

  lemma EmphasisedRewrites(s: string, mark: char, t: string)
    requires IsMark(mark) && Emphasised(s, mark).Some? && Rewrites(s[Emphasised(s, mark).value + 2..], t)
    ensures Rewrites(s, "<em>" + s[1..Emphasised(s, mark).value + 1] + "</em>" + t)
  {
    var n := Emphasised(s, mark).value;
    assert s == [mark] + (s[1..n + 1] + ([mark] + s[n + 2..]));
    EnclosedRewrites(s, [mark], s[1..n + 1], s[n + 2..], "<em>", "</em>", t);
  }

  lemma RegroupFive(a: string, b: string, c: string, d: string, e: string)
    ensures a + (b + c + d + e) == a + b + c + d + e
  {
  }

  lemma EmphasisedAfterOne(s: string, mark: char, n: nat, t: string)
    requires IsMark(mark) && s != "" && Emphasised(s[1..], mark) == Some(n)
    requires Rewrites(s[n + 3..], t)
    ensures Rewrites(s, [s[0]] + "<em>" + s[2..n + 2] + "</em>" + t)
  {
    var body := s[2..n + 2];
    assert s[1..][n + 2..] == s[n + 3..] && s[1..][1..n + 1] == body;
    EmphasisedRewrites(s[1..], mark, t);
    CharThen(s, "<em>" + body + "</em>" + t);
    RegroupFive([s[0]], "<em>", body, "</em>", t);
  }

  lemma ItalicHere(s: string, mark: char, n: nat)
    requires IsMark(mark) && s != "" && Emphasised(s, mark) == Some(n)
    requires Rewrites(s[n + 2..], ItalicPass(s[n + 2..], mark, false))
    ensures Rewrites(s, ItalicPass(s, mark, true))
  {
    EmphasisedRewrites(s, mark, ItalicPass(s[n + 2..], mark, false));
  }

  lemma ItalicNext(s: string, mark: char, n: nat, atStart: bool)
    requires IsMark(mark) && s != "" && s[0] != mark && Emphasised(s[1..], mark) == Some(n)
    requires Rewrites(s[n + 3..], ItalicPass(s[n + 3..], mark, false))
    ensures Rewrites(s, ItalicPass(s, mark, atStart))
  {
    EmphasisedAfterOne(s, mark, n, ItalicPass(s[n + 3..], mark, false));
  }

  lemma {:induction false} ItalicRewrites(s: string, mark: char, atStart: bool)
    requires IsMark(mark)
    ensures Rewrites(s, ItalicPass(s, mark, atStart))
    decreases |s|
  {
    if s != "" {
      if atStart && Emphasised(s, mark).Some? {
        var n := Emphasised(s, mark).value;
        ItalicRewrites(s[n + 2..], mark, false);
        ItalicHere(s, mark, n);
      } else if s[0] != mark && Emphasised(s[1..], mark).Some? {
        var n := Emphasised(s[1..], mark).value;
        ItalicRewrites(s[n + 3..], mark, false);
        ItalicNext(s, mark, n, atStart);
      } else {
        ItalicRewrites(s[1..], mark, false);
        CharThen(s, ItalicPass(s[1..], mark, false));
      }
    }
  }

  /** All four passes together. */
  lemma EmphasiseRewrites(s: string)
    ensures Rewrites(s, Emphasise(s))
  {
    var a := CodePass(s);
    var b := BoldPass(a);
    var c := ItalicPass(b, '*', true);
    CodeRewrites(s);
    BoldRewrites(a);
    ItalicRewrites(b, '*', true);
    ItalicRewrites(c, '_', true);
    RewritesCompose(s, a, b);
    RewritesCompose(s, b, c);
    RewritesCompose(s, c, Emphasise(s));
  }
}
