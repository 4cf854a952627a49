/**
 What the renderer must do, said without its passes: which stretches are replaced by which tags, that the leftmost
 replaceable stretch is taken and none is left out, and what plain text with one mark-up in it comes out as.
 */
module InlineMdEmphasis {
  import opened Wrappers
  import opened Text
  import opened HtmlEscape
  import opened InlineMd
  import opened InlineMdRewriting
  import opened InlineMdAnchors
  import opened InlineMdRender
  import opened InlineMdMarkup

  // Replaceable stretches

  /** A body with a back-quote on either side, and none inside, starts the text. */
  ghost predicate CodeAt(s: string, body: string, rest: string) {
    s == "`" + (body + ("`" + rest)) && body != "" && '`' !in body
  }

  /** A body with two stars on either side, and none inside. */
  ghost predicate BoldAt(s: string, body: string, rest: string) {
    s == "**" + (body + ("**" + rest)) && body != "" && '*' !in body
  }

  /** A body with one mark on either side, none inside, no white space at its start and no third mark behind. */
  ghost predicate ItalicAt(s: string, mark: char, body: string, rest: string) {
    && s == [mark] + (body + ([mark] + rest)) && body != "" && mark !in body && !IsScriptSpace(body[0])
    && (rest == "" || rest[0] != mark)
  }

  /** Such a stretch counts at the beginning of the whole text, or behind a character that is not the mark. */
  ghost predicate OpensAt(s: string, i: int, mark: char, atStart: bool, body: string, rest: string) {
    0 <= i < |s| && ItalicAt(s[i..], mark, body, rest) && (if i == 0 then atStart else s[i - 1] != mark)
  }

  ghost predicate HasCode(s: string) { exists b, r :: CodeAt(s, b, r) }

  ghost predicate HasBold(s: string) { exists b, r :: BoldAt(s, b, r) }

  ghost predicate Opens(s: string, i: int, mark: char, atStart: bool) { exists b, r :: OpensAt(s, i, mark, atStart, b, r) }

  lemma RunIsBody(body: string, stop: char, tail: string)
    requires stop !in body
    ensures RunWithout(body + ([stop] + tail), stop) == |body|
  {
    RunIs(body, stop, tail);
  }

  /** A pass that copies every character of a copies a. */
  lemma {:induction false} CopiesAhead(f: string -> string, s: string, a: string, tail: string)
    requires s == a + tail && forall i :: 0 <= i < |a| ==> f(s[i..]) == [s[i]] + f(s[i + 1..])
    ensures f(s) == a + f(tail)
    decreases |a|
  {
    if a == "" {
      assert s == tail;
    } else {
      assert s[0..] == s && s[1..] == a[1..] + tail;
      forall i | 0 <= i < |a[1..]| ensures f(s[1..][i..]) == [s[1..][i]] + f(s[1..][i + 1..]) {
        assert s[1..][i..] == s[i + 1..] && s[1..][i + 1..] == s[i + 2..];
      }
      CopiesAhead(f, s[1..], a[1..], tail);
      SplitAt(a, 1, f(tail));
    }
  }

  // Code

  lemma CodeHere(s: string, body: string, rest: string)
    requires CodeAt(s, body, rest)
    ensures CodePass(s) == "<code>" + (body + ("</code>" + CodePass(rest)))
  {
    RunIsBody(body, '`', rest);
    assert s[1..] == body + (['`'] + rest);
    var n := |body|;
    assert s[1..n + 1] == body && s[n + 2..] == rest;
    RegroupFour("<code>", body, "</code>", CodePass(rest));
  }

  lemma CodeFound(s: string, n: nat)
    requires s != "" && s[0] == '`' && n == RunWithout(s[1..], '`') && n > 0 && n + 1 < |s|
    ensures CodeAt(s, s[1..n + 1], s[n + 2..])
  {
    assert s[1..][..n] == s[1..n + 1] && s[1..][n] == s[n + 1];
    Surrounded("`", s[1..n + 1], s[n + 2..], s);
  }

  lemma Surrounded(fence: string, body: string, rest: string, s: string)
    requires |s| == 2 * |fence| + |body| + |rest| && fence <= s && s[|fence|..|fence| + |body|] == body
    requires s[|fence| + |body|..2 * |fence| + |body|] == fence && s[2 * |fence| + |body|..] == rest
    ensures s == fence + (body + (fence + rest))
  {
  }

  predicate TakesCode(s: string) {
    s != "" && s[0] == '`' && RunWithout(s[1..], '`') > 0 && RunWithout(s[1..], '`') + 1 < |s|
  }

  lemma TakesOnlyCode(s: string)
    ensures TakesCode(s) ==> HasCode(s)
  {
    if TakesCode(s) { CodeFound(s, RunWithout(s[1..], '`')); }
  }

  lemma PassesOver(s: string)
    requires s != "" && !TakesCode(s)
    ensures CodePass(s) == [s[0]] + CodePass(s[1..])
  {
  }

  lemma NoCodeHere(s: string)
    requires s != "" && !HasCode(s)
    ensures CodePass(s) == [s[0]] + CodePass(s[1..])
  {
    TakesOnlyCode(s);
    PassesOver(s);
  }

  lemma CodePassesAhead(s: string, a: string, tail: string)
    requires s == a + tail && forall i :: 0 <= i < |a| ==> !HasCode(s[i..])
    ensures CodePass(s) == a + CodePass(tail)
  {
    forall i | 0 <= i < |a| ensures CodePass(s[i..]) == [s[i]] + CodePass(s[i + 1..]) {
      NoCodeHere(s[i..]);
      assert s[i..][1..] == s[i + 1..];
    }
    CopiesAhead(CodePass, s, a, tail);
  }

  /** The leftmost stretch in back-quotes becomes code, and the search goes on behind it. */
  lemma CodeIsLeftmost(s: string, a: string, tail: string, body: string, rest: string)
    requires s == a + tail && CodeAt(tail, body, rest)
    requires forall i :: 0 <= i < |a| ==> !HasCode(s[i..])
    ensures CodePass(s) == a + ("<code>" + (body + ("</code>" + CodePass(rest))))
  {
    CodePassesAhead(s, a, tail);
    CodeHere(tail, body, rest);
  }

  /** Without such a stretch nothing changes. */
  lemma CodeLeaves(s: string)
    requires forall i :: 0 <= i < |s| ==> !HasCode(s[i..])
    ensures CodePass(s) == s
  {
    assert s == s + "";
    CodePassesAhead(s, s, "");
  }

  // Strong

  lemma BoldSlices(s: string, body: string, rest: string)
    requires BoldAt(s, body, rest)
    ensures var n := |body|;
            && RunWithout(s[2..], '*') == n && n + 4 <= |s| && "**" <= s && "**" <= s[n + 2..]
            && s[2..n + 2] == body && s[n + 4..] == rest
  {
    RunIsBody(body, '*', "*" + rest);
    assert s[2..] == body + (['*'] + ("*" + rest)) && s[|body| + 2..] == "**" + rest;
  }

  lemma BoldHereIs(s: string, body: string, rest: string)
    requires BoldAt(s, body, rest)
    ensures BoldPass(s) == "<strong>" + (body + ("</strong>" + BoldPass(rest)))
  {
    BoldSlices(s, body, rest);
    RegroupFour("<strong>", body, "</strong>", BoldPass(rest));
  }

  lemma BoldFound(s: string, n: nat)
    requires "**" <= s && n == RunWithout(s[2..], '*') && n > 0 && "**" <= s[n + 2..]
    ensures BoldAt(s, s[2..n + 2], s[n + 4..])
  {
    BoldParts(s, n);
    assert s[2..][..n] == s[2..n + 2];
  }

  predicate TakesBold(s: string) {
    "**" <= s && RunWithout(s[2..], '*') > 0 && "**" <= s[RunWithout(s[2..], '*') + 2..]
  }

  lemma TakesOnlyBold(s: string)
    ensures TakesBold(s) ==> HasBold(s)
  {
    if TakesBold(s) { BoldFound(s, RunWithout(s[2..], '*')); }
  }

  lemma PassesOverBold(s: string)
    requires s != "" && !TakesBold(s)
    ensures BoldPass(s) == [s[0]] + BoldPass(s[1..])
  {
  }

  lemma NoBoldHere(s: string)
    requires s != "" && !HasBold(s)
    ensures BoldPass(s) == [s[0]] + BoldPass(s[1..])
  {
    TakesOnlyBold(s);
    PassesOverBold(s);
  }

  lemma BoldPassesAhead(s: string, a: string, tail: string)
    requires s == a + tail && forall i :: 0 <= i < |a| ==> !HasBold(s[i..])
    ensures BoldPass(s) == a + BoldPass(tail)
  {
    forall i | 0 <= i < |a| ensures BoldPass(s[i..]) == [s[i]] + BoldPass(s[i + 1..]) {
      NoBoldHere(s[i..]);
      assert s[i..][1..] == s[i + 1..];
    }
    CopiesAhead(BoldPass, s, a, tail);
  }

  /** The leftmost stretch in double stars becomes strong, and the search goes on behind it. */
  lemma BoldIsLeftmost(s: string, a: string, tail: string, body: string, rest: string)
    requires s == a + tail && BoldAt(tail, body, rest)
    requires forall i :: 0 <= i < |a| ==> !HasBold(s[i..])
    ensures BoldPass(s) == a + ("<strong>" + (body + ("</strong>" + BoldPass(rest))))
  {
    BoldPassesAhead(s, a, tail);
    BoldHereIs(tail, body, rest);
  }

  /** Without such a stretch nothing changes. */
  lemma BoldLeaves(s: string)
    requires forall i :: 0 <= i < |s| ==> !HasBold(s[i..])
    ensures BoldPass(s) == s
  {
    assert s == s + "";
    BoldPassesAhead(s, s, "");
  }

  // Emphasis

  lemma ItalicIsEmphasised(s: string, mark: char, body: string, rest: string)
    requires ItalicAt(s, mark, body, rest)
    ensures Emphasised(s, mark) == Some(|body|) && s[1..|body| + 1] == body && s[|body| + 2..] == rest
  {
    RunIsBody(body, mark, rest);
    assert s[1..] == body + ([mark] + rest) && s[0] == mark;
    assert s[1] == body[0];
  }

  lemma EmphasisedOpens(s: string, i: nat, mark: char, atStart: bool)
    requires i < |s| && Emphasised(s[i..], mark).Some? && (if i == 0 then atStart else s[i - 1] != mark)
    ensures Opens(s, i, mark, atStart)
  {
    var u, n := s[i..], Emphasised(s[i..], mark).value;
    assert u[1..][..n] == u[1..n + 1] && u[1..][n] == u[n + 1];
    Surrounded([mark], u[1..n + 1], u[n + 2..], u);
    assert OpensAt(s, i, mark, atStart, u[1..n + 1], u[n + 2..]);
  }

  lemma ItalicFirst(s: string, mark: char, body: string, rest: string)
    requires ItalicAt(s, mark, body, rest)
    ensures ItalicPass(s, mark, true) == "<em>" + (body + ("</em>" + ItalicPass(rest, mark, false)))
  {
    ItalicIsEmphasised(s, mark, body, rest);
    RegroupFour("<em>", body, "</em>", ItalicPass(rest, mark, false));
  }

  lemma ItalicSecond(s: string, mark: char, atStart: bool, body: string, rest: string)
    requires s != "" && s[0] != mark && ItalicAt(s[1..], mark, body, rest)
    ensures ItalicPass(s, mark, atStart) == [s[0]] + ("<em>" + (body + ("</em>" + ItalicPass(rest, mark, false))))
  {
    ItalicIsEmphasised(s[1..], mark, body, rest);
    var n := |body|;
    assert s[2..n + 2] == s[1..][1..n + 1] && s[n + 3..] == s[1..][n + 2..];
    assert !(atStart && Emphasised(s, mark).Some?);
    RegroupFour("<em>", body, "</em>", ItalicPass(rest, mark, false));
    RegroupFive([s[0]], "<em>", body, "</em>", ItalicPass(rest, mark, false));
  }

  lemma NoItalicHere(s: string, mark: char, atStart: bool)
    requires s != ""
    requires !Opens(s, 0, mark, atStart) && !Opens(s, 1, mark, atStart)
    ensures ItalicPass(s, mark, atStart) == [s[0]] + ItalicPass(s[1..], mark, false)
  {
    assert s[0..] == s;
    if atStart && Emphasised(s, mark).Some? { EmphasisedOpens(s, 0, mark, atStart); }
    if s[0] != mark && Emphasised(s[1..], mark).Some? { EmphasisedOpens(s, 1, mark, atStart); }
  }

  lemma OpensLater(s: string, i: nat, mark: char, atStart: bool, b: string, r: string)
    requires s != ""
    ensures OpensAt(s[1..], i, mark, false, b, r) ==> OpensAt(s, i + 1, mark, atStart, b, r)
    ensures i > 0 && OpensAt(s, i + 1, mark, atStart, b, r) ==> OpensAt(s[1..], i, mark, false, b, r)
  {
    if i < |s[1..]| { assert s[1..][i..] == s[i + 1..]; }
  }

  lemma OpensNext(s: string, i: nat, mark: char, atStart: bool)
    requires s != ""
    ensures Opens(s[1..], i, mark, false) ==> Opens(s, i + 1, mark, atStart)
  {
    if b, r :| OpensAt(s[1..], i, mark, false, b, r) { OpensLater(s, i, mark, atStart, b, r); }
  }

  /** The leftmost stretch between single marks becomes emphasis, and the search goes on behind it. */
  lemma {:induction false} ItalicIsLeftmost(s: string, mark: char, atStart: bool, a: string, body: string, rest: string)
    requires a <= s && OpensAt(s, |a|, mark, atStart, body, rest)
    requires forall i :: 0 <= i < |a| ==> !Opens(s, i, mark, atStart)
    ensures ItalicPass(s, mark, atStart) == a + ("<em>" + (body + ("</em>" + ItalicPass(rest, mark, false))))
    decreases |a|
  {
    if a == "" {
      assert s[0..] == s;
      ItalicFirst(s, mark, body, rest);
    } else if |a| == 1 {
      assert s[0..] == s;
      ItalicSecond(s, mark, atStart, body, rest);
      assert a == [s[0]];
    } else {
      NoItalicHere(s, mark, atStart);
      OpensLater(s, |a| - 1, mark, atStart, body, rest);
      forall i | 0 <= i < |a[1..]| ensures !Opens(s[1..], i, mark, false) { OpensNext(s, i, mark, atStart); }
      ItalicIsLeftmost(s[1..], mark, false, a[1..], body, rest);
      SplitAt(a, 1, "<em>" + (body + ("</em>" + ItalicPass(rest, mark, false))));
    }
  }

  lemma {:induction false} ItalicLeaves(s: string, mark: char, atStart: bool)
    requires forall i :: 0 <= i < |s| ==> !Opens(s, i, mark, atStart)
    ensures ItalicPass(s, mark, atStart) == s
    decreases |s|
  {
    if s != "" {
      NoItalicHere(s, mark, atStart);
      forall i | 0 <= i < |s[1..]| ensures !Opens(s[1..], i, mark, false) { OpensNext(s, i, mark, atStart); }
      ItalicLeaves(s[1..], mark, false);
    }
  }

  // Plain text with one mark-up in it

  predicate IsPlain(c: char) { c !in "`*_[]@&<>\"'" }

  predicate Plain(s: string) { forall c :: c in s ==> IsPlain(c) }

  lemma PlainFacts(s: string)
    requires Plain(s)
    ensures '`' !in s && '*' !in s && '_' !in s && '[' !in s && '@' !in s && NoMarks(s) && EscapeHtml(s) == s
  {
    forall c | c in s ensures Entity(c) == [c] && !IsMark(c) { assert IsPlain(c); }
    EscapePlain(s);
  }

  lemma PlainLacks(s: string)
    requires Plain(s)
    ensures '`' !in s && '*' !in s && '_' !in s
  {
    assert forall c :: c in s ==> IsPlain(c);
  }

  lemma CodeNeedsMark(s: string)
    requires '`' !in s
    ensures CodePass(s) == s
  {
    forall i | 0 <= i < |s| ensures !HasCode(s[i..]) {
      assert s[i] in s;
      forall b, r ensures !CodeAt(s[i..], b, r) { assert s[i..][0] == s[i]; }
    }
    CodeLeaves(s);
  }

  lemma BoldNeedsPair(s: string)
    requires forall i :: 0 <= i < |s| - 1 ==> !(s[i] == '*' && s[i + 1] == '*')
    ensures BoldPass(s) == s
  {
    forall i | 0 <= i < |s| ensures !HasBold(s[i..]) { NoPairNoBold(s, i); }
    BoldLeaves(s);
  }

  lemma NoPairNoBold(s: string, i: nat)
    requires i < |s| && (i + 1 < |s| ==> !(s[i] == '*' && s[i + 1] == '*'))
    ensures !HasBold(s[i..])
  {
    forall b, r ensures !BoldAt(s[i..], b, r) {
      assert |s[i..]| > 1 ==> s[i..][0] == s[i] && s[i..][1] == s[i + 1];
    }
  }

  lemma NoMarkNoItalic(s: string, i: nat, mark: char, atStart: bool)
    requires i < |s| && s[i] != mark
    ensures !Opens(s, i, mark, atStart)
  {
    forall b, r ensures !OpensAt(s, i, mark, atStart, b, r) { assert s[i..][0] == s[i]; }
  }

  lemma ItalicNeedsMark(s: string, mark: char, atStart: bool)
    requires mark !in s
    ensures ItalicPass(s, mark, atStart) == s
  {
    forall i | 0 <= i < |s| ensures !Opens(s, i, mark, atStart) {
      assert s[i] in s;
      NoMarkNoItalic(s, i, mark, atStart);
    }
    ItalicLeaves(s, mark, atStart);
  }

  /** A text without links and placeholders is escaped and emphasised, no more. */
  lemma LinklessRender(s: string, t: string)
    requires EscapeHtml(s) == s && '[' !in s && Emphasise(s) == t && '@' !in t
    ensures Render(s) == t
  {
    PlainExtract(s, "", 0);
    assert s + "" == s && t + "" == t;
    StitchPassesTag(t, "", []);
  }

  lemma JoinedEscapes(a: string, b: string)
    requires EscapeHtml(a) == a && EscapeHtml(b) == b
    ensures EscapeHtml(a + b) == a + b
  {
    EscapeConcat(a, b);
  }

  lemma MarkEscapes(m: string)
    requires forall c :: c in m ==> c in "`*_"
    ensures EscapeHtml(m) == m
  {
    forall c | c in m ensures Entity(c) == [c] {}
    EscapePlain(m);
  }

  lemma FencedEscapes(pre: string, fence: string, b: string, post: string)
    requires Plain(pre) && Plain(b) && Plain(post) && forall c :: c in fence ==> c in "`*_"
    ensures EscapeHtml(pre + (fence + (b + (fence + post)))) == pre + (fence + (b + (fence + post)))
  {
    PlainFacts(pre);
    PlainFacts(b);
    PlainFacts(post);
    MarkEscapes(fence);
    JoinedEscapes(fence, post);
    JoinedEscapes(b, fence + post);
    JoinedEscapes(fence, b + (fence + post));
    JoinedEscapes(pre, fence + (b + (fence + post)));
  }

  lemma NotInFive(c: char, a: string, b: string, d: string, e: string, f: string)
    requires c !in a && c !in b && c !in d && c !in e && c !in f
    ensures c !in a + (b + (d + (e + f)))
  {
  }

  lemma Passes(s: string, a: string, b: string, c: string, t: string)
    requires CodePass(s) == a && BoldPass(a) == b && ItalicPass(b, '*', true) == c && ItalicPass(c, '_', true) == t
    ensures Emphasise(s) == t
  {
  }

  lemma NoStarNoBold(s: string)
    requires '*' !in s
    ensures BoldPass(s) == s && ItalicPass(s, '*', true) == s
  {
    BoldNeedsPair(s);
    ItalicNeedsMark(s, '*', true);
  }

  lemma OneCode(pre: string, b: string, post: string)
    requires '`' !in pre && '`' !in b && '`' !in post && b != ""
    ensures CodePass(pre + ("`" + (b + ("`" + post)))) == pre + ("<code>" + (b + ("</code>" + post)))
  {
    var tail := "`" + (b + ("`" + post));
    var s := pre + tail;
    assert CodeAt(tail, b, post);
    forall i | 0 <= i < |pre| ensures !HasCode(s[i..]) {
      assert s[i] == pre[i] && pre[i] in pre;
      NoMarkNoCode(s, i);
    }
    CodeIsLeftmost(s, pre, tail, b, post);
    CodeNeedsMark(post);
  }

  lemma NoMarkNoCode(s: string, i: nat)
    requires i < |s| && s[i] != '`'
    ensures !HasCode(s[i..])
  {
    forall c, r ensures !CodeAt(s[i..], c, r) { assert s[i..][0] == s[i]; }
  }

  lemma OneBold(pre: string, b: string, post: string)
    requires '*' !in pre && '*' !in b && '*' !in post && b != ""
    ensures BoldPass(pre + ("**" + (b + ("**" + post)))) == pre + ("<strong>" + (b + ("</strong>" + post)))
  {
    var tail := "**" + (b + ("**" + post));
    var s := pre + tail;
    assert BoldAt(tail, b, post);
    forall i | 0 <= i < |pre| ensures !HasBold(s[i..]) {
      assert s[i] == pre[i] && pre[i] in pre;
      NoPairNoBold(s, i);
    }
    BoldIsLeftmost(s, pre, tail, b, post);
    BoldNeedsPair(post);
  }

  lemma FencedHasNoLink(pre: string, fence: string, b: string, post: string)
    requires Plain(pre) && Plain(b) && Plain(post) && forall c :: c in fence ==> c in "`*_"
    ensures '[' !in pre + (fence + (b + (fence + post)))
  {
    PlainFacts(pre);
    PlainFacts(b);
    PlainFacts(post);
    NotInFive('[', pre, fence, b, fence, post);
  }

  lemma TaggedHasNo(c: char, pre: string, open: string, b: string, close: string, post: string)
    requires Plain(pre) && Plain(b) && Plain(post) && c in "`*_@" && c !in open && c !in close
    ensures c !in pre + (open + (b + (close + post)))
  {
    PlainFacts(pre);
    PlainFacts(b);
    PlainFacts(post);
    NotInFive(c, pre, open, b, close, post);
  }

  lemma CodeEmphasises(pre: string, b: string, post: string)
    requires Plain(pre) && Plain(b) && Plain(post) && b != ""
    ensures Emphasise(pre + ("`" + (b + ("`" + post)))) == pre + ("<code>" + (b + ("</code>" + post)))
  {
    var s, t := pre + ("`" + (b + ("`" + post))), pre + ("<code>" + (b + ("</code>" + post)));
    PlainLacks(pre);
    PlainLacks(b);
    PlainLacks(post);
    OneCode(pre, b, post);
    TaggedHasNo('*', pre, "<code>", b, "</code>", post);
    TaggedHasNo('_', pre, "<code>", b, "</code>", post);
    NoStarNoBold(t);
    ItalicNeedsMark(t, '_', true);
    Passes(s, t, t, t, t);
  }

  /** Back-quotes come out as code, within plain text. */
  lemma CodeRenders(pre: string, b: string, post: string)
    requires Plain(pre) && Plain(b) && Plain(post) && b != ""
    ensures Render(pre + ("`" + (b + ("`" + post)))) == pre + ("<code>" + (b + ("</code>" + post)))
  {
    FencedEscapes(pre, "`", b, post);
    FencedHasNoLink(pre, "`", b, post);
    TaggedHasNo('@', pre, "<code>", b, "</code>", post);
    CodeEmphasises(pre, b, post);
    LinklessRender(pre + ("`" + (b + ("`" + post))), pre + ("<code>" + (b + ("</code>" + post))));
  }

  lemma BoldEmphasises(pre: string, b: string, post: string)
    requires Plain(pre) && Plain(b) && Plain(post) && b != ""
    ensures Emphasise(pre + ("**" + (b + ("**" + post)))) == pre + ("<strong>" + (b + ("</strong>" + post)))
  {
    var s, t := pre + ("**" + (b + ("**" + post))), pre + ("<strong>" + (b + ("</strong>" + post)));
    TaggedHasNo('`', pre, "**", b, "**", post);
    CodeNeedsMark(s);
    PlainLacks(pre);
    PlainLacks(b);
    PlainLacks(post);
    OneBold(pre, b, post);
    TaggedHasNo('*', pre, "<strong>", b, "</strong>", post);
    TaggedHasNo('_', pre, "<strong>", b, "</strong>", post);
    ItalicNeedsMark(t, '*', true);
    ItalicNeedsMark(t, '_', true);
    Passes(s, s, t, t, t);
  }

  /** Double stars come out as strong. */
  lemma BoldRenders(pre: string, b: string, post: string)
    requires Plain(pre) && Plain(b) && Plain(post) && b != ""
    ensures Render(pre + ("**" + (b + ("**" + post)))) == pre + ("<strong>" + (b + ("</strong>" + post)))
  {
    FencedEscapes(pre, "**", b, post);
    FencedHasNoLink(pre, "**", b, post);
    TaggedHasNo('@', pre, "<strong>", b, "</strong>", post);
    BoldEmphasises(pre, b, post);
    LinklessRender(pre + ("**" + (b + ("**" + post))), pre + ("<strong>" + (b + ("</strong>" + post))));
  }

  lemma OneItalic(pre: string, mark: char, b: string, post: string)
    requires mark !in pre && mark !in b && mark !in post && b != "" && !IsScriptSpace(b[0])
    ensures ItalicPass(pre + ([mark] + (b + ([mark] + post))), mark, true) == pre + ("<em>" + (b + ("</em>" + post)))
  {
    var tail := [mark] + (b + ([mark] + post));
    var s := pre + tail;
    assert s[|pre|..] == tail && pre <= s;
    assert post != "" ==> post[0] in post;
    assert pre != "" ==> s[|pre| - 1] == pre[|pre| - 1] && pre[|pre| - 1] in pre;
    assert OpensAt(s, |pre|, mark, true, b, post);
    forall i | 0 <= i < |pre| ensures !Opens(s, i, mark, true) {
      assert s[i] == pre[i] && pre[i] in pre;
      NoMarkNoItalic(s, i, mark, true);
    }
    ItalicIsLeftmost(s, mark, true, pre, b, post);
    ItalicNeedsMark(post, mark, false);
  }

  lemma StarEmphasises(pre: string, b: string, post: string)
    requires Plain(pre) && Plain(b) && Plain(post) && b != "" && !IsScriptSpace(b[0])
    ensures Emphasise(pre + ("*" + (b + ("*" + post)))) == pre + ("<em>" + (b + ("</em>" + post)))
  {
    var s, t := pre + ("*" + (b + ("*" + post))), pre + ("<em>" + (b + ("</em>" + post)));
    TaggedHasNo('`', pre, "*", b, "*", post);
    CodeNeedsMark(s);
    PlainLacks(pre);
    PlainLacks(b);
    PlainLacks(post);
    StarsApart(pre, b, post);
    BoldNeedsPair(s);
    OneItalic(pre, '*', b, post);
    TaggedHasNo('_', pre, "<em>", b, "</em>", post);
    ItalicNeedsMark(t, '_', true);
    Passes(s, s, s, t, t);
  }

  /** Single stars come out as emphasis, unless white space follows the first. */
  lemma StarRenders(pre: string, b: string, post: string)
    requires Plain(pre) && Plain(b) && Plain(post) && b != "" && !IsScriptSpace(b[0])
    ensures Render(pre + ("*" + (b + ("*" + post)))) == pre + ("<em>" + (b + ("</em>" + post)))
  {
    FencedEscapes(pre, "*", b, post);
    FencedHasNoLink(pre, "*", b, post);
    TaggedHasNo('@', pre, "<em>", b, "</em>", post);
    StarEmphasises(pre, b, post);
    LinklessRender(pre + ("*" + (b + ("*" + post))), pre + ("<em>" + (b + ("</em>" + post))));
  }

  lemma StarsApart(pre: string, b: string, post: string)
    requires '*' !in pre && '*' !in b && '*' !in post && b != ""
    ensures var s := pre + ("*" + (b + ("*" + post)));
            forall i :: 0 <= i < |s| - 1 ==> !(s[i] == '*' && s[i + 1] == '*')
  {
    var s := pre + ("*" + (b + ("*" + post)));
    forall i | 0 <= i < |s| ensures s[i] == '*' ==> i == |pre| || i == |pre| + 1 + |b| {
      if i < |pre| { assert s[i] == pre[i] && pre[i] in pre; }
      else if |pre| < i < |pre| + 1 + |b| { assert s[i] == b[i - |pre| - 1] && b[i - |pre| - 1] in b; }
      else if i > |pre| + 1 + |b| { assert s[i] == post[i - |pre| - |b| - 2] && post[i - |pre| - |b| - 2] in post; }
    }
  }

  lemma UnderscoreEmphasises(pre: string, b: string, post: string)
    requires Plain(pre) && Plain(b) && Plain(post) && b != "" && !IsScriptSpace(b[0])
    ensures Emphasise(pre + ("_" + (b + ("_" + post)))) == pre + ("<em>" + (b + ("</em>" + post)))
  {
    var s, t := pre + ("_" + (b + ("_" + post))), pre + ("<em>" + (b + ("</em>" + post)));
    TaggedHasNo('`', pre, "_", b, "_", post);
    TaggedHasNo('*', pre, "_", b, "_", post);
    CodeNeedsMark(s);
    NoStarNoBold(s);
    PlainLacks(pre);
    PlainLacks(b);
    PlainLacks(post);
    OneItalic(pre, '_', b, post);
    Passes(s, s, s, s, t);
  }

  /** Underscores likewise. */
  lemma UnderscoreRenders(pre: string, b: string, post: string)
    requires Plain(pre) && Plain(b) && Plain(post) && b != "" && !IsScriptSpace(b[0])
    ensures Render(pre + ("_" + (b + ("_" + post)))) == pre + ("<em>" + (b + ("</em>" + post)))
  {
    FencedEscapes(pre, "_", b, post);
    FencedHasNoLink(pre, "_", b, post);
    TaggedHasNo('@', pre, "<em>", b, "</em>", post);
    UnderscoreEmphasises(pre, b, post);
    LinklessRender(pre + ("_" + (b + ("_" + post))), pre + ("<em>" + (b + ("</em>" + post))));
  }

  /** Three stars: strong inside emphasis. */
  lemma ThreeStarsBold(pre: string, b: string, post: string)
    requires '*' !in pre && '*' !in b && '*' !in post && b != ""
    ensures BoldPass(pre + ("***" + (b + ("***" + post)))) == pre + ("*" + (("<strong>" + (b + "</strong>")) + ("*" + post)))
  {
    var tail := "**" + (b + ("**" + ("*" + post)));
    var s := (pre + "*") + tail;
    assert s == pre + ("***" + (b + ("***" + post)));
    assert BoldAt(tail, b, "*" + post);
    ThirdStarFirst(pre, b, post);
    BoldIsLeftmost(s, pre + "*", tail, b, "*" + post);
    StarThenPlain(post);
    StrongInStars(pre, b, post);
  }

  lemma StarThenPlain(post: string)
    requires '*' !in post
    ensures BoldPass("*" + post) == "*" + post
  {
    var s := "*" + post;
    forall i | 0 <= i < |s| - 1 ensures !(s[i] == '*' && s[i + 1] == '*') {
      assert s[i + 1] == post[i] && post[i] in post;
    }
    BoldNeedsPair(s);
  }

  lemma StrongInStars(pre: string, b: string, post: string)
    ensures (pre + "*") + ("<strong>" + (b + ("</strong>" + ("*" + post))))
            == pre + ("*" + (("<strong>" + (b + "</strong>")) + ("*" + post)))
  {
  }

  lemma EmphasisOfStrong(pre: string, b: string, post: string)
    ensures pre + ("<em>" + (("<strong>" + (b + "</strong>")) + ("</em>" + post)))
            == pre + ("<em><strong>" + (b + ("</strong></em>" + post)))
  {
  }

  lemma BoldItalicEmphasises(pre: string, b: string, post: string)
    requires Plain(pre) && Plain(b) && Plain(post) && b != ""
    ensures Emphasise(pre + ("***" + (b + ("***" + post)))) == pre + ("<em><strong>" + (b + ("</strong></em>" + post)))
  {
    var s, strong := pre + ("***" + (b + ("***" + post))), "<strong>" + (b + "</strong>");
    var t := pre + ("<em><strong>" + (b + ("</strong></em>" + post)));
    TaggedHasNo('`', pre, "***", b, "***", post);
    CodeNeedsMark(s);
    PlainLacks(pre);
    PlainLacks(b);
    PlainLacks(post);
    ThreeStarsBold(pre, b, post);
    StrongHasNoStar(b);
    OneItalic(pre, '*', strong, post);
    EmphasisOfStrong(pre, b, post);
    TaggedHasNo('_', pre, "<em><strong>", b, "</strong></em>", post);
    ItalicNeedsMark(t, '_', true);
    Passes(s, s, pre + ("*" + (strong + ("*" + post))), t, t);
  }

  lemma BoldItalicRenders(pre: string, b: string, post: string)
    requires Plain(pre) && Plain(b) && Plain(post) && b != ""
    ensures Render(pre + ("***" + (b + ("***" + post)))) == pre + ("<em><strong>" + (b + ("</strong></em>" + post)))
  {
    FencedEscapes(pre, "***", b, post);
    FencedHasNoLink(pre, "***", b, post);
    TaggedHasNo('@', pre, "<em><strong>", b, "</strong></em>", post);
    BoldItalicEmphasises(pre, b, post);
    LinklessRender(pre + ("***" + (b + ("***" + post))), pre + ("<em><strong>" + (b + ("</strong></em>" + post))));
  }

  lemma StrongHasNoStar(b: string)
    requires '*' !in b
    ensures var x := "<strong>" + (b + "</strong>"); '*' !in x && x != "" && !IsScriptSpace(x[0])
  {
  }

  lemma ThirdStarFirst(pre: string, b: string, post: string)
    requires '*' !in pre && '*' !in b && b != ""
    ensures var s := (pre + "*") + ("**" + (b + ("**" + ("*" + post))));
            forall i :: 0 <= i < |pre| + 1 ==> !HasBold(s[i..])
  {
    var s := (pre + "*") + ("**" + (b + ("**" + ("*" + post))));
    forall i | 0 <= i < |pre| + 1 ensures !HasBold(s[i..]) {
      if i < |pre| {
        assert s[i] == pre[i] && pre[i] in pre;
        NoPairNoBold(s, i);
      } else {
        forall c, r ensures !BoldAt(s[i..], c, r) {
          if c != "" && s[i..] == "**" + (c + ("**" + r)) { assert s[i..][2] == c[0] == '*' && c[0] in c; }
        }
      }
    }
  }

  // Links

  lemma {:induction false} TrimSolid(s: string)
    requires forall c :: c in s ==> !IsScriptSpace(c)
    ensures Trim(s) == s
  {
    if s != "" { assert s[0] in s && s[|s| - 1] in s; }
  }

  /** A web address, or a path of the same origin. */
  predicate Permitted(href: string) {
    || (|href| >= 7 && LowerCase(href[..7]) == "http://")
    || (|href| >= 8 && LowerCase(href[..8]) == "https://")
    || (|href| >= 1 && href[0] == '/' && !(|href| >= 2 && href[1] == '/'))
  }

  lemma PermittedIff(href: string)
    requires forall c :: c in href ==> !IsScriptSpace(c)
    ensures SafeHref(href) == if Permitted(href) then Some(href) else None
  {
    TrimSolid(href);
    var low := LowerCase(href);
    assert |href| >= 7 ==> LowerCase(href[..7]) == low[..7];
    assert |href| >= 8 ==> LowerCase(href[..8]) == low[..8];
  }

  predicate Unescaped(s: string) { forall c :: c in s ==> c !in "&<>\"'" }

  lemma LinkEscapes(pre: string, caption: string, href: string, post: string)
    requires Plain(pre) && Plain(post) && Unescaped(caption) && Unescaped(href)
    ensures EscapeHtml(pre + LinkText(caption, href, post)) == pre + LinkText(caption, href, post)
  {
    var s := pre + LinkText(caption, href, post);
    forall c | c in s ensures Entity(c) == [c] {
      assert c in pre || c in "[" || c in caption || c in "](" || c in href || c in ")" || c in post;
      if c in pre || c in post { assert IsPlain(c); }
    }
    EscapePlain(s);
  }

  lemma LinkFirst(caption: string, href: string, post: string)
    requires Permitted(href)
    requires caption != "" && ']' !in caption && href != "" && forall c :: c in href ==> c != ')' && !IsScriptSpace(c)
    ensures var s := LinkText(caption, href, post);
            Extract(s, 0).0 == Token(0) + Extract(post, 1).0 && Extract(s, 0).1 == [Anchor(href, caption)] + Extract(post, 1).1
  {
    PermittedIff(href);
    LinkAt(caption, href, post);
    LinkStarts(LinkText(caption, href, post));
  }

  lemma LinkStarts(s: string)
    requires MatchLink(s).Some? && SafeHref(Href(s)).Some?
    ensures Extract(s, 0).0 == Token(0) + Extract(AfterLink(s), 1).0
    ensures Extract(s, 0).1 == [Anchor(SafeHref(Href(s)).value, Label(s))] + Extract(AfterLink(s), 1).1
  {
  }

  lemma PlainIsKept(x: string, k: nat)
    requires '[' !in x
    ensures Extract(x, k) == (x, [])
  {
    PlainExtract(x, "", k);
    assert x + "" == x && Extract("", k) == ("", []);
  }

  lemma LinkExtracts(pre: string, caption: string, href: string, post: string)
    requires '[' !in pre && '[' !in post && Permitted(href)
    requires caption != "" && ']' !in caption && href != "" && forall c :: c in href ==> c != ')' && !IsScriptSpace(c)
    ensures Extract(pre + LinkText(caption, href, post), 0) == (pre + (Token(0) + post), [Anchor(href, caption)])
  {
    LinkFirst(caption, href, post);
    PlainIsKept(post, 1);
    assert [Anchor(href, caption)] + [] == [Anchor(href, caption)];
    PlainExtract(pre, LinkText(caption, href, post), 0);
  }

  lemma OneLinkStitches(pre: string, post: string, a: string)
    requires '@' !in pre && '@' !in post
    ensures Stitch(pre + (Token(0) + post), [a]) == pre + (a + post)
  {
    StitchPassesTag(pre, Token(0) + post, [a]);
    StitchToken(0, post, [a]);
    StitchPassesTag(post, "", [a]);
    assert post + "" == post && Stitch("", [a]) == "";
  }

  /** A link with a permitted address comes out as one anchor, whatever marks its label and address hold. */
  lemma LinkRenders(pre: string, caption: string, href: string, post: string)
    requires Plain(pre) && Plain(post) && Unescaped(caption) && Unescaped(href)
    requires caption != "" && ']' !in caption && href != "" && forall c :: c in href ==> c != ')' && !IsScriptSpace(c)
    requires Permitted(href)
    ensures Render(pre + LinkText(caption, href, post))
            == pre + (("<a href=\"" + href + "\" rel=\"noopener\">" + caption + "</a>") + post)
  {
    PlainFacts(pre);
    PlainFacts(post);
    LinkEscapes(pre, caption, href, post);
    LinkExtracts(pre, caption, href, post);
    WovenHasNoMarks(pre, post);
    UnmarkedIsNotEmphasised(pre + (Token(0) + post));
    OneLinkStitches(pre, post, Anchor(href, caption));
  }

  lemma WovenHasNoMarks(pre: string, post: string)
    requires NoMarks(pre) && NoMarks(post)
    ensures NoMarks(pre + (Token(0) + post))
  {
    TokenHasNoMarks(0);
  }

  /** A link with any other address leaves its label. */
  lemma RefusedLinkLeavesLabel(pre: string, caption: string, href: string, post: string)
    requires Plain(pre) && Plain(post) && Plain(caption) && Unescaped(href)
    requires caption != "" && href != "" && forall c :: c in href ==> c != ')' && !IsScriptSpace(c)
    requires !Permitted(href)
    ensures Render(pre + LinkText(caption, href, post)) == pre + (caption + post)
  {
    PlainFacts(pre);
    PlainFacts(caption);
    PlainFacts(post);
    forall c | c in caption ensures c !in "&<>\"'" && c != ']' { assert IsPlain(c); }
    LinkEscapes(pre, caption, href, post);
    PermittedIff(href);
    LinkAt(caption, href, post);
    PlainExtract(pre, LinkText(caption, href, post), 0);
    PlainExtract(post, "", 0);
    assert post + "" == post;
    var woven := pre + (caption + post);
    assert Extract(pre + LinkText(caption, href, post), 0) == (woven, []);
    UnmarkedIsNotEmphasised(woven);
    StitchPassesTag(woven, "", []);
    assert woven + "" == woven;
  }
}
