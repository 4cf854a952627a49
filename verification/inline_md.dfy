/** The inline-markdown renderer: escape, pull links out, three kinds of emphasis, stitch links back. */
module InlineMd {
  import opened Wrappers
  import opened Text
  import opened HtmlEscape

  /** Length of the longest prefix without the given character. */
  function RunWithout(s: string, stop: char): (n: nat)
    ensures n <= |s| && stop !in s[..n] && (n < |s| ==> s[n] == stop)
  {
    if s == "" || s[0] == stop then 0 else 1 + RunWithout(s[1..], stop)
  }

  /** Length of the longest prefix without `)` and without white space. */
  function HrefRun(s: string): (n: nat)
    ensures n <= |s| && (n < |s| ==> s[n] == ')' || IsScriptSpace(s[n]))
    ensures forall i :: 0 <= i < n ==> s[i] != ')' && !IsScriptSpace(s[i])
  {
    if s == "" || s[0] == ')' || IsScriptSpace(s[0]) then 0 else 1 + HrefRun(s[1..])
  }

  // Links

  /** Lengths of label and address when a link `[label](address)` starts the string. */
  datatype LinkMatch = LinkMatch(caption: nat, href: nat)

  function MatchLink(s: string): (m: Option<LinkMatch>)
    ensures m.Some? ==> m.value.caption + m.value.href + 4 <= |s|
  {
    if s == "" || s[0] != '[' then None
    else
      var n := RunWithout(s[1..], ']');
      if n == 0 || |s| < n + 3 || s[n + 1..n + 3] != "](" then None
      else
        var k := HrefRun(s[n + 3..]);
        if k == 0 || |s| <= n + 3 + k || s[n + 3 + k] != ')' then None else Some(LinkMatch(n, k))
  }

  function Label(s: string): string
    requires MatchLink(s).Some?
  {
    s[1..1 + MatchLink(s).value.caption]
  }

  function Href(s: string): string
    requires MatchLink(s).Some?
  {
    var m := MatchLink(s).value;
    s[m.caption + 3..m.caption + 3 + m.href]
  }

  function AfterLink(s: string): (rest: string)
    requires MatchLink(s).Some?
    ensures |rest| < |s|
  {
    s[MatchLink(s).value.caption + MatchLink(s).value.href + 4..]
  }

  predicate StartsWithHttp(s: string) {
    "http://" <= LowerCase(s) || "https://" <= LowerCase(s)
  }

  /** Absolute web addresses and root-relative paths, but not `//host`. */
  function SafeHref(raw: string): Option<string> {
    var href := Trim(raw);
    if StartsWithHttp(href) || ("/" <= href && !("//" <= href)) then Some(href) else None
  }

  function Anchor(href: string, caption: string): string {
    "<a href=\"" + href + "\" rel=\"noopener\">" + caption + "</a>"
  }

  const TOKEN_HEAD: string := "@@PQLLINK"

  function Token(k: nat): string { TOKEN_HEAD + (Decimal(k) + "@@") }

  /** The extraction pass when k links have been pulled out before: the text with placeholders, and the
      anchors they stand for.  A link with an unsafe address leaves its label. */
  function Extract(s: string, k: nat): (string, seq<string>)
    decreases |s|
  {
    if s == "" then ("", [])
    else if MatchLink(s).Some? then
      var safe := SafeHref(Href(s));
      if safe.Some? then
        var r := Extract(AfterLink(s), k + 1);
        (Token(k) + r.0, [Anchor(safe.value, Label(s))] + r.1)
      else
        var r := Extract(AfterLink(s), k);
        (Label(s) + r.0, r.1)
    else
      var r := Extract(s[1..], k);
      ([s[0]] + r.0, r.1)
  }

  // Emphasis

  function CodePass(s: string): string
    decreases |s|
  {
    if s == "" then ""
    else
      var n := RunWithout(s[1..], '`');
      if s[0] == '`' && n > 0 && n + 1 < |s| then "<code>" + s[1..n + 1] + "</code>" + CodePass(s[n + 2..])
      else [s[0]] + CodePass(s[1..])
  }

  function BoldPass(s: string): string
    decreases |s|
  {
    if s == "" then ""
    else if "**" <= s then
      var n := RunWithout(s[2..], '*');
      if n > 0 && "**" <= s[n + 2..] then "<strong>" + s[2..n + 2] + "</strong>" + BoldPass(s[n + 4..])
      else [s[0]] + BoldPass(s[1..])
    else [s[0]] + BoldPass(s[1..])
  }

  /** Length of the body when `mark body mark` starts the string: the body starts with no white space and
      holds no mark, and no third mark follows. */
  function Emphasised(s: string, mark: char): (m: Option<nat>)
    ensures m.Some? ==> 0 < m.value && m.value + 1 < |s| && s[0] == mark && s[m.value + 1] == mark
  {
    if s == "" || s[0] != mark then None
    else
      var n := RunWithout(s[1..], mark);
      if n == 0 || n + 1 >= |s| || IsScriptSpace(s[1]) then None
      else if n + 2 < |s| && s[n + 2] == mark then None
      else Some(n)
  }

  /** An emphasised stretch opens the whole string, or stands after one character that is not a mark. */
  function ItalicPass(s: string, mark: char, atStart: bool): string
    decreases |s|
  {
    if s == "" then ""
    else if atStart && Emphasised(s, mark).Some? then
      var n := Emphasised(s, mark).value;
      "<em>" + s[1..n + 1] + "</em>" + ItalicPass(s[n + 2..], mark, false)
    else if s[0] != mark && Emphasised(s[1..], mark).Some? then
      var n := Emphasised(s[1..], mark).value;
      [s[0]] + "<em>" + s[2..n + 2] + "</em>" + ItalicPass(s[n + 3..], mark, false)
    else [s[0]] + ItalicPass(s[1..], mark, false)
  }

  function Emphasise(s: string): string {
    ItalicPass(ItalicPass(BoldPass(CodePass(s)), '*', true), '_', true)
  }

  // Stitching

  /** Number of digits when a placeholder starts the string. */
  function MatchToken(s: string): (m: Option<nat>)
    ensures m.Some? ==> 0 < m.value && m.value + 11 <= |s| && AllDigits(s[9..9 + m.value])
  {
    if !(TOKEN_HEAD <= s) then None
    else
      var d := DigitRun(s[9..]);
      assert s[9..][..d] == s[9..9 + d];
      if d > 0 && "@@" <= s[9 + d..] then Some(d) else None
  }

  function Stitch(s: string, links: seq<string>): string
    decreases |s|
  {
    if s == "" then ""
    else if MatchToken(s).Some? then
      var d := MatchToken(s).value;
      var i := NumberOf(s[9..9 + d]);
      (if i < |links| then links[i] else s[..d + 11]) + Stitch(s[d + 11..], links)
    else [s[0]] + Stitch(s[1..], links)
  }

  function Render(text: string): string {
    var r := Extract(EscapeHtml(text), 0);
    Stitch(Emphasise(r.0), r.1)
  }

  // The renderer as written: one string reassigned through the passes, one list of links appended to

  method ExtractLinks(html: string) returns (out: string, links: seq<string>)
    ensures out == Extract(html, 0).0 && links == Extract(html, 0).1
  {
    out, links := "", [];
    var rest := html;
    while rest != ""
      invariant out + Extract(rest, |links|).0 == Extract(html, 0).0
      invariant links + Extract(rest, |links|).1 == Extract(html, 0).1
      decreases |rest|
    {
      if MatchLink(rest).Some? {
        var caption := Label(rest);
        var safe := SafeHref(Href(rest));
        if safe.None? {
          Regroup(out, caption, Extract(AfterLink(rest), |links|).0);
          out := out + caption;
        } else {
          var token := Token(|links|);
          var anchor := Anchor(safe.value, caption);
          Regroup(out, token, Extract(AfterLink(rest), |links| + 1).0);
          Regroup(links, [anchor], Extract(AfterLink(rest), |links| + 1).1);
          out := out + token;
          links := links + [anchor];
        }
        rest := AfterLink(rest);
      } else {
        Regroup(out, [rest[0]], Extract(rest[1..], |links|).0);
        out := out + [rest[0]];
        rest := rest[1..];
      }
    }
  }

  method RenderInlineMd(text: Option<string>) returns (html: string)
    ensures html == Render(if text.Some? then text.value else "")
  {
    html := EscapeHtml(if text.Some? then text.value else "");
    var links;
    html, links := ExtractLinks(html);
    html := CodePass(html);
    html := BoldPass(html);
    html := ItalicPass(html, '*', true);
    html := ItalicPass(html, '_', true);
    html := Stitch(html, links);
  }
}
