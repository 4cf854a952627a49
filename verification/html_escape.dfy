/** The HTML escaper: five replacement passes over the whole string, and what they amount to. */
module HtmlEscape {

  /** One pass: every occurrence of c becomes r. */
  function ReplaceAll(s: string, c: char, r: string): string {
    if s == "" then "" else (if s[0] == c then r else [s[0]]) + ReplaceAll(s[1..], c, r)
  }

  function EscapeHtml(s: string): string {
    var a := ReplaceAll(s, '&', "&amp;");
    var b := ReplaceAll(a, '<', "&lt;");
    var c := ReplaceAll(b, '>', "&gt;");
    var d := ReplaceAll(c, '"', "&quot;");
    ReplaceAll(d, '\'', "&#39;")
  }

  function Entity(c: char): string {
    match c
    case '&' => "&amp;"
    case '<' => "&lt;"
    case '>' => "&gt;"
    case '"' => "&quot;"
    case '\'' => "&#39;"
    case _ => [c]
  }

  /** One pass, each character on its own. */
  function EscapeEach(s: string): string {
    if s == "" then "" else Entity(s[0]) + EscapeEach(s[1..])
  }

  lemma {:induction false} ReplaceConcat(a: string, b: string, c: char, r: string)
    ensures ReplaceAll(a + b, c, r) == ReplaceAll(a, c, r) + ReplaceAll(b, c, r)
  {
    if a == "" {
      assert a + b == b;
    } else {
      assert (a + b)[1..] == a[1..] + b;
      ReplaceConcat(a[1..], b, c, r);
    }
  }

  lemma {:induction false} ReplaceNothing(s: string, c: char, r: string)
    requires c !in s
    ensures ReplaceAll(s, c, r) == s
  {
    if s != "" { ReplaceNothing(s[1..], c, r); }
  }

  lemma ReplaceChar(x: char, c: char, r: string)
    ensures ReplaceAll([x], c, r) == if x == c then r else [x]
  {
    assert [x][1..] == "" && ReplaceAll("", c, r) == "";
  }

  /** A string without the later characters passes through the later replacements unchanged. */
  lemma LaterPasses(e: string)
    requires Harmless(e)
    ensures ReplaceAll(e, '<', "&lt;") == e && ReplaceAll(e, '>', "&gt;") == e
    ensures ReplaceAll(e, '"', "&quot;") == e && ReplaceAll(e, '\'', "&#39;") == e
  {
    ReplaceNothing(e, '<', "&lt;");
    ReplaceNothing(e, '>', "&gt;");
    ReplaceNothing(e, '"', "&quot;");
    ReplaceNothing(e, '\'', "&#39;");
  }

  lemma OneCharPasses(x: char)
    ensures EscapeHtml([x]) == Entity(x)
  {
    ReplaceChar(x, '&', "&amp;");
    ReplaceChar(x, '<', "&lt;");
    ReplaceChar(x, '>', "&gt;");
    ReplaceChar(x, '"', "&quot;");
    ReplaceChar(x, '\'', "&#39;");
    LaterPasses(if x in {'&', '<', '>', '"', '\''} then Entity(x) else "");
  }

  /** The five sequential passes equal the one-pass, per-character escape. */
  lemma {:induction false} EscapeIsOnePass(s: string)
    ensures EscapeHtml(s) == EscapeEach(s)
  {
    if s != "" {
      var x, t := [s[0]], s[1..];
      assert s == x + t;
      EscapeConcat(x, t);
      OneCharPasses(s[0]);
      EscapeIsOnePass(t);
    }
  }

  lemma EscapeConcat(x: string, t: string)
    ensures EscapeHtml(x + t) == EscapeHtml(x) + EscapeHtml(t)
  {
    ReplaceConcat(x, t, '&', "&amp;");
    var a, a' := ReplaceAll(x, '&', "&amp;"), ReplaceAll(t, '&', "&amp;");
    ReplaceConcat(a, a', '<', "&lt;");
    var b, b' := ReplaceAll(a, '<', "&lt;"), ReplaceAll(a', '<', "&lt;");
    ReplaceConcat(b, b', '>', "&gt;");
    var c, c' := ReplaceAll(b, '>', "&gt;"), ReplaceAll(b', '>', "&gt;");
    ReplaceConcat(c, c', '"', "&quot;");
    var d, d' := ReplaceAll(c, '"', "&quot;"), ReplaceAll(c', '"', "&quot;");
    ReplaceConcat(d, d', '\'', "&#39;");
  }

  /** What becomes of one character, wherever it stands. */
  lemma EscapedInPlace(pre: string, c: char, post: string)
    ensures EscapeHtml(pre + ([c] + post)) == EscapeHtml(pre) +
              ((if c == '&' then "&amp;" else if c == '<' then "&lt;" else if c == '>' then "&gt;"
                else if c == '"' then "&quot;" else if c == '\'' then "&#39;" else [c]) + EscapeHtml(post))
  {
    EscapeConcat(pre, [c] + post);
    EscapeConcat([c], post);
    OneCharPasses(c);
  }

  // Reading it back

  /** The character an escaped string starts with, and how many characters it takes up. */
  function First(s: string): (char, nat)
    requires s != ""
    ensures First(s).1 >= 1
  {
    if "&amp;" <= s then ('&', 5)
    else if "&lt;" <= s then ('<', 4)
    else if "&gt;" <= s then ('>', 4)
    else if "&quot;" <= s then ('"', 6)
    else if "&#39;" <= s then ('\'', 5)
    else (s[0], 1)
  }

  function Unescape(s: string): string {
    if s == "" then "" else [First(s).0] + Unescape(s[First(s).1..])
  }

  lemma EntityIsFirst(c: char, rest: string)
    ensures First(Entity(c) + rest) == (c, |Entity(c)|)
  {
    var s := Entity(c) + rest;
    assert Entity(c) <= s;
    if |s| > 1 && c in {'&', '<', '>', '"', '\''} {
      assert s[1] == Entity(c)[1];
    }
    if c == '<' || c == '>' { assert s[..4] == Entity(c); }
    if c !in {'&', '<', '>', '"', '\''} {
      assert s[0] == c;
      assert s[0] != "&amp;"[0] && s[0] != "&lt;"[0] && s[0] != "&gt;"[0] && s[0] != "&quot;"[0] && s[0] != "&#39;"[0];
    }
  }

  /** Unescaping recovers every string. */
  lemma {:induction false} UnescapeRecovers(s: string)
    ensures Unescape(EscapeHtml(s)) == s
  {
    EscapeIsOnePass(s);
    if s != "" {
      var rest := EscapeEach(s[1..]);
      EntityIsFirst(s[0], rest);
      assert (Entity(s[0]) + rest)[|Entity(s[0])|..] == rest;
      EscapeIsOnePass(s[1..]);
      UnescapeRecovers(s[1..]);
      assert s == [s[0]] + s[1..];
    }
  }

  /** Neither opens a tag nor leaves an attribute. */
  predicate IsHarmless(c: char) { c != '<' && c != '>' && c != '"' && c != '\'' }

  predicate Harmless(s: string) {
    forall c :: c in s ==> IsHarmless(c)
  }

  lemma {:induction false} EscapedIsHarmless(s: string)
    ensures Harmless(EscapeHtml(s))
  {
    EscapeIsOnePass(s);
    if s != "" {
      EscapedIsHarmless(s[1..]);
      EscapeIsOnePass(s[1..]);
      assert Harmless(Entity(s[0]));
      forall c | c in EscapeEach(s) ensures c in Entity(s[0]) || c in EscapeEach(s[1..]) {}
    }
  }
}
