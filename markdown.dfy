/** formatMarkdown of frontend/src/components/AIChatPanel.jsx: the chain of
    regular-expression replacements that turns an assistant reply into the
    HTML the panel renders. Each replacement is modelled as the left-to-right
    scan JavaScript's String.prototype.replace performs with a global
    pattern: at each position the pattern is tried, a match is replaced and
    the scan resumes after it, otherwise one character is copied. In these
    patterns `.` matches any character but a line terminator, and with the
    m flag `^` and `$` match at line terminators. */
module Markdown {
  import opened Outcomes
  import opened Text
  import ApiClient

  /** The line terminators of JavaScript regular expressions. */
  const Terminators: set<char> := {'\n', '\r', '\U{2028}', '\U{2029}'}

  /** No character of s is a line terminator: s lies within one line. */
  predicate OneLine(s: string) {
    forall k :: 0 <= k < |s| ==> s[k] !in Terminators
  }

  /** The length of the first line of t, up to its first terminator. */
  function LineLen(t: string): (n: nat)
    ensures n <= |t| && OneLine(t[..n])
    ensures n < |t| ==> t[n] in Terminators
  {
    if t == [] || t[0] in Terminators then 0
    else
      var n := 1 + LineLen(t[1..]);
      assert t[..n] == [t[0]] + t[1..][..n - 1];
      n
  }

  // ---------------------------------------------------------------------------
  // Replacing one character everywhere

  /** `s.replace(/c/g, r)` for a single character c. */
  function ReplaceChar(s: string, c: char, r: string): (t: string)
    ensures c !in r ==> c !in t
  {
    if s == [] then []
    else (if s[0] == c then r else [s[0]]) + ReplaceChar(s[1..], c, r)
  }

  lemma {:induction false} ReplaceCharConcat(a: string, b: string, c: char, r: string)
    ensures ReplaceChar(a + b, c, r) == ReplaceChar(a, c, r) + ReplaceChar(b, c, r)
    decreases |a|
  {
    if a == [] {
      assert a + b == b;
    } else {
      assert (a + b)[0] == a[0] && (a + b)[1..] == a[1..] + b;
      ReplaceCharConcat(a[1..], b, c, r);
    }
  }

  /** A character that does not occur is not replaced. */
  lemma {:induction false} ReplaceCharAbsent(s: string, c: char, r: string)
    requires c !in s
    ensures ReplaceChar(s, c, r) == s
    decreases |s|
  {
    if s != [] {
      assert c !in s[1..];
      ReplaceCharAbsent(s[1..], c, r);
    }
  }

  // ---------------------------------------------------------------------------
  // Escaping

  function EscapeChar(c: char): (e: string)
    ensures '<' !in e && '>' !in e
  {
    if c == '&' then "&amp;" else if c == '<' then "&lt;" else if c == '>' then "&gt;" else [c]
  }

  /** Each character escaped on its own. */
  function Escape(s: string): (e: string)
    ensures '<' !in e && '>' !in e
  {
    if s == [] then [] else EscapeChar(s[0]) + Escape(s[1..])
  }

  /** The three escaping replacements, '&' first. */
  function EscapeHtml(s: string): string {
    ReplaceChar(ReplaceChar(ReplaceChar(s, '&', "&amp;"), '<', "&lt;"), '>', "&gt;")
  }

  /** Because '&' is replaced first, the ampersands the later replacements
      introduce are not escaped again: the chain escapes each character once. */
  lemma {:induction false} EscapeHtmlIsEscape(s: string)
    ensures EscapeHtml(s) == Escape(s)
    decreases |s|
  {
    if s != [] {
      assert s == [s[0]] + s[1..];
      EscapeHtmlConcat([s[0]], s[1..]);
      EscapeHtmlOne(s[0]);
      EscapeHtmlIsEscape(s[1..]);
    }
  }

  /** Each replacement works character by character, so the chain does too. */
  lemma EscapeHtmlConcat(a: string, b: string)
    ensures EscapeHtml(a + b) == EscapeHtml(a) + EscapeHtml(b)
  {
    var a1, b1 := ReplaceChar(a, '&', "&amp;"), ReplaceChar(b, '&', "&amp;");
    ReplaceCharConcat(a, b, '&', "&amp;");
    var a2, b2 := ReplaceChar(a1, '<', "&lt;"), ReplaceChar(b1, '<', "&lt;");
    ReplaceCharConcat(a1, b1, '<', "&lt;");
    ReplaceCharConcat(a2, b2, '>', "&gt;");
  }

  /** One character: the ampersand that "&lt;" and "&gt;" bring in is not
      escaped again, because '&' is replaced first. */
  lemma EscapeHtmlOne(c: char)
    ensures EscapeHtml([c]) == EscapeChar(c)
  {
    var first := if c == '&' then "&amp;" else [c];
    assert ReplaceChar([c], '&', "&amp;") == first by {
      assert [c][1..] == [];
    }
    var second := if c == '<' then "&lt;" else first;
    assert ReplaceChar(first, '<', "&lt;") == second by {
      if c == '&' {
        ReplaceCharAbsent("&amp;", '<', "&lt;");
      } else {
        assert first[1..] == [];
      }
    }
    assert ReplaceChar(second, '>', "&gt;") == EscapeChar(c) by {
      if c == '&' {
        ReplaceCharAbsent("&amp;", '>', "&gt;");
      } else if c == '<' {
        ReplaceCharAbsent("&lt;", '>', "&gt;");
      } else {
        assert second[1..] == [];
      }
    }
  }

  /** HTML's decoding of the three entities. */
  function Unescape(s: string): string
    decreases |s|
  {
    if s == [] then []
    else if StartsWith(s, "&amp;") then "&" + Unescape(s[5..])
    else if StartsWith(s, "&lt;") then "<" + Unescape(s[4..])
    else if StartsWith(s, "&gt;") then ">" + Unescape(s[4..])
    else [s[0]] + Unescape(s[1..])
  }

  /** The escaped text reads back as the reply's text. */
  lemma {:induction false} UnescapeEscape(s: string)
    ensures Unescape(Escape(s)) == s
    decreases |s|
  {
    if s != [] {
      assert Escape(s) == EscapeChar(s[0]) + Escape(s[1..]);
      UnescapeOne(s[0], Escape(s[1..]));
      UnescapeEscape(s[1..]);
      assert s == [s[0]] + s[1..];
    }
  }

  /** One escaped character decodes back to itself. */
  lemma UnescapeOne(c: char, rest: string)
    ensures Unescape(EscapeChar(c) + rest) == [c] + Unescape(rest)
  {
    var e := EscapeChar(c);
    var t := e + rest;
    assert t[..|e|] == e && t[|e|..] == rest;
    if c == '&' {
      assert StartsWith(t, "&amp;");
    } else if c == '<' {
      assert t[1] == 'l' && StartsWith(t, "&lt;");
    } else if c == '>' {
      assert t[1] == 'g' && StartsWith(t, "&gt;");
    } else {
      assert t[0] == c && !StartsWith(t, "&amp;") && !StartsWith(t, "&lt;") && !StartsWith(t, "&gt;");
      assert t[1..] == rest;
    }
  }

  // ---------------------------------------------------------------------------
  // Line-anchored replacements: headings and list items

  /** The rules of the form `/^...(.+)$/gm`. */
  datatype LineRule =
    | Heading(prefix: string, open: string, close: string)   // ^<prefix>(.+)$
    | Bullet                                                  // ^[\-\*] (.+)$
    | Numbered                                                // ^\d+\.\s(.+)$

  const H3Rule: LineRule := Heading("### ", "<h4 class=\"md-h3\">", "</h4>")
  const H2Rule: LineRule := Heading("## ", "<h3 class=\"md-h2\">", "</h3>")
  const H1Rule: LineRule := Heading("# ", "<h2 class=\"md-h1\">", "</h2>")

  /** The number of leading decimal digits. */
  function DigitRun(s: string): (n: nat)
    ensures n <= |s| && forall k :: 0 <= k < n ==> IsDigit(s[k])
    ensures n < |s| ==> !IsDigit(s[n])
  {
    if s == [] || !IsDigit(s[0]) then 0 else 1 + DigitRun(s[1..])
  }

  /** The length of the rule's marker at the start of s, 0 when absent. */
  function Marker(rule: LineRule, s: string): (m: nat)
    ensures m <= |s|
  {
    match rule
    case Heading(prefix, _, _) => if StartsWith(s, prefix) then |prefix| else 0
    case Bullet => if |s| >= 2 && (s[0] == '-' || s[0] == '*') && s[1] == ' ' then 2 else 0
    case Numbered =>
      var d := DigitRun(s);
      if d >= 1 && d + 1 < |s| && s[d] == '.' && s[d + 1] in JsWhitespace then d + 2 else 0
  }

  /** A rule's match at a line start: marker, then a non-empty rest of the
      line, which becomes the content. The match is its length and its
      replacement. */
  function Attempt(rule: LineRule, s: string): (m: Option<(nat, string)>)
    ensures m.Some? ==> 1 <= m.value.0 <= |s| && (m.value.0 == |s| || s[m.value.0] in Terminators)
  {
    var marker := Marker(rule, s);
    if marker == 0 then None
    else
      var n := LineLen(s[marker..]);
      if n == 0 then None
      else Some((marker + n, Wrap(rule, s[marker..marker + n])))
  }

  /** The replacement of a line rule's content. */
  function Wrap(rule: LineRule, content: string): string {
    match rule
    case Heading(_, open, close) => open + content + close
    case _ => "<li>" + content + "</li>"
  }

  /** `s.replace(rule, ...)`: try the rule at the start of each line. */
  function LinePass(rule: LineRule, s: string): string
    decreases |s|, 1
  {
    match Attempt(rule, s)
    case Some((n, wrapped)) => wrapped + NextLine(rule, s[n..])
    case None => NextLine(rule, s)
  }

  /** Copy up to and including the next terminator, then resume at the start
      of the following line. */
  function NextLine(rule: LineRule, t: string): string
    decreases |t|, 0
  {
    var n := LineLen(t);
    if n == |t| then t else t[..n + 1] + LinePass(rule, t[n + 1..])
  }

  /** `^### (.+)$`, then `^## (.+)$`, then `^# (.+)$`. */
  function Headings(s: string): string {
    LinePass(H1Rule, LinePass(H2Rule, LinePass(H3Rule, s)))
  }

  /** Bullet items, then numbered items. */
  function ListItems(s: string): string {
    LinePass(Numbered, LinePass(Bullet, s))
  }

  // ---------------------------------------------------------------------------
  // Delimited replacements: emphasis and the list wrapper

  /** The lazy `(.+?)` or `.*?` followed by d: the shortest content of at
      least `least` characters, within one line, that d follows. The search
      has reached k. */
  function Find(t: string, d: string, k: nat, least: nat): (r: Option<nat>)
    requires k <= |t| && OneLine(t[..k])
    ensures r.Some? ==> least <= r.value <= |t| && OneLine(t[..r.value]) && StartsWith(t[r.value..], d)
    ensures r.Some? ==> k <= r.value && forall j :: k <= j < r.value && least <= j ==> !StartsWith(t[j..], d)
    decreases |t| - k
  {
    if k >= least && StartsWith(t[k..], d) then Some(k)
    else if k == |t| || t[k] in Terminators then None
    else
      assert t[..k + 1] == t[..k] + [t[k]];
      Find(t, d, k + 1, least)
  }

  /** `s.replace(/<d>(.+?)<d>/g, open + '$1' + close)`. */
  function Delimited(s: string, d: string, open: string, close: string): string
    requires |d| >= 1
    decreases |s|
  {
    if s == [] then []
    else if StartsWith(s, d) && Find(s[|d|..], d, 0, 1).Some? then
      var k := Find(s[|d|..], d, 0, 1).value;
      open + s[|d|..|d| + k] + close + Delimited(s[|d| + k + |d|..], d, open, close)
    else [s[0]] + Delimited(s[1..], d, open, close)
  }

  /** Bold-italic, then bold, then italic. */
  function Emphasis(s: string): string {
    var a := Delimited(s, "***", "<strong><em>", "</em></strong>");
    var b := Delimited(a, "**", "<strong>", "</strong>");
    Delimited(b, "*", "<em>", "</em>")
  }

  /** `s.replace(/<br\/>/g, '')`. */
  function RemoveBr(s: string): string
    decreases |s|
  {
    if s == [] then []
    else if StartsWith(s, "<br/>") then RemoveBr(s[5..])
    else [s[0]] + RemoveBr(s[1..])
  }

  /** One repetition of `<li>.*?<\/li>(<br\/>)?`: its length. */
  function Item(t: string): (g: Option<nat>)
    ensures g.Some? ==> 9 <= g.value <= |t|
  {
    if !StartsWith(t, "<li>") then None
    else
      match Find(t[4..], "</li>", 0, 0)
      case None => None
      case Some(k) =>
        var base := 4 + k + 5;
        if StartsWith(t[base..], "<br/>") then Some(base + 5) else Some(base)
  }

  /** The greedy `(...)+`: the length of the run of items at the start of t. */
  function Run(t: string): (n: nat)
    ensures n <= |t|
    decreases |t|
  {
    match Item(t)
    case None => 0
    case Some(g) => g + Run(t[g..])
  }

  /** Each run of items becomes `<ul>` + the run without its `<br/>` + `</ul>`. */
  function WrapLists(s: string): string
    decreases |s|
  {
    if s == [] then []
    else
      var n := Run(s);
      if n > 0 then "<ul>" + RemoveBr(s[..n]) + "</ul>" + WrapLists(s[n..])
      else [s[0]] + WrapLists(s[1..])
  }

  // ---------------------------------------------------------------------------
  // formatMarkdown

  /** formatMarkdown: '' for a falsy text, otherwise the replacement chain. */
  function FormatMarkdown(text: Option<string>): (html: string)
    ensures !ApiClient.TruthyText(text) ==> html == ""
  {
    if !ApiClient.TruthyText(text) then ""
    else
      var escaped := EscapeHtml(text.value);
      var marked := ListItems(Emphasis(Headings(escaped)));
      WrapLists(ReplaceChar(marked, '\n', "<br/>"))
  }

  // ---------------------------------------------------------------------------
  // How the passes treat one line, and the boundary between lines

  /** A string does not start with p when they differ at some position. */
  lemma DiffersAt(s: string, p: string, i: nat)
    requires i < |p| && (i < |s| ==> s[i] != p[i])
    ensures !StartsWith(s, p)
  {
    if |p| <= |s| {
      assert s[..|p|][i] == s[i];
    }
  }

  /** On a single line a line rule either rewrites the whole line or leaves
      it as it is. */
  lemma LinePassOneLine(rule: LineRule, s: string)
    requires OneLine(s)
    ensures Attempt(rule, s).Some? ==> Attempt(rule, s).value.0 == |s| && LinePass(rule, s) == Attempt(rule, s).value.1
    ensures Attempt(rule, s).None? ==> LinePass(rule, s) == s
  {
    if Attempt(rule, s).None? {
      assert LineLen(s) == |s|;
    }
  }

  /** The first line's length when a terminator follows it. */
  lemma LineLenAt(x: string, t: char, b: string)
    requires OneLine(x) && t in Terminators
    ensures LineLen(x + [t] + b) == |x| && LineLen(x) == |x|
  {
    var s := x + [t] + b;
    assert s[|x|] == t;
    assert forall k :: 0 <= k < |x| ==> s[k] == x[k];
  }

  /** The prefix a rule needs, the rule marker, lies within one line. */
  predicate MarkerOneLine(rule: LineRule) {
    rule.Heading? ==> OneLine(rule.prefix)
  }

  /** Whether a line rule's marker is present depends on the first line
      only, except that a numbered marker may take the terminator as its `\s`. */
  lemma MarkerFirstLine(rule: LineRule, a: string, t: char, b: string)
    requires OneLine(a) && t in Terminators && MarkerOneLine(rule)
    requires rule.Numbered? ==> a == [] || !IsDigit(a[0])
    ensures Marker(rule, a + [t] + b) == Marker(rule, a)
  {
    var s := a + [t] + b;
    assert s[|a|] == t;
    match rule {
      case Heading(prefix, _, _) =>
        if |prefix| <= |a| {
          assert s[..|prefix|] == a[..|prefix|];
        } else {
          DiffersAt(s, prefix, |a|);
        }
      case Bullet =>
        if |a| >= 2 {
          assert s[0] == a[0] && s[1] == a[1];
        }
      case Numbered =>
        if a != [] {
          assert s[0] == a[0];
        }
    }
  }

  /** Hence the whole match depends on the first line only. */
  lemma AttemptFirstLine(rule: LineRule, a: string, t: char, b: string)
    requires OneLine(a) && t in Terminators && MarkerOneLine(rule)
    requires rule.Numbered? ==> a == [] || !IsDigit(a[0])
    ensures Attempt(rule, a + [t] + b) == Attempt(rule, a)
  {
    var s := a + [t] + b;
    MarkerFirstLine(rule, a, t, b);
    var m := Marker(rule, a);
    if m > 0 {
      assert s[m..] == a[m..] + [t] + b;
      LineLenAt(a[m..], t, b);
      var n := LineLen(a[m..]);
      assert s[m..m + n] == a[m..m + n];
    }
  }

  /** A line rule that cannot cross the terminator rewrites each side of it
      on its own. */
  lemma LinePassSplit(rule: LineRule, a: string, t: char, b: string)
    requires OneLine(a) && t in Terminators && MarkerOneLine(rule)
    requires rule.Numbered? ==> a == [] || !IsDigit(a[0])
    ensures LinePass(rule, a + [t] + b) == LinePass(rule, a) + [t] + LinePass(rule, b)
  {
    var s := a + [t] + b;
    AttemptFirstLine(rule, a, t, b);
    LinePassOneLine(rule, a);
    if Attempt(rule, a).Some? {
      var n := Attempt(rule, a).value.0;
      assert n == |a|;
      assert s[n..] == [t] + b;
      NextLineAtTerminator(rule, t, b);
    } else {
      NextLineAfterLine(rule, a, t, b);
    }
  }

  lemma NextLineAtTerminator(rule: LineRule, t: char, b: string)
    requires t in Terminators
    ensures NextLine(rule, [t] + b) == [t] + LinePass(rule, b)
  {
    assert LineLen([t] + b) == 0;
    assert ([t] + b)[1..] == b;
  }

  lemma NextLineAfterLine(rule: LineRule, a: string, t: char, b: string)
    requires OneLine(a) && t in Terminators
    ensures NextLine(rule, a + [t] + b) == a + [t] + LinePass(rule, b)
  {
    var s := a + [t] + b;
    LineLenAt(a, t, b);
    assert s[..|a| + 1] == a + [t] && s[|a| + 1..] == b;
  }

  /** A stretch without the delimiter's first character is copied. */
  lemma {:induction false} DelimitedSkip(p: string, y: string, d: string, open: string, close: string)
    requires |d| >= 1 && d[0] !in p
    ensures Delimited(p + y, d, open, close) == p + Delimited(y, d, open, close)
    decreases |p|
  {
    if p == [] {
      assert p + y == y;
    } else {
      var s := p + y;
      assert s[0] == p[0] && s[1..] == p[1..] + y;
      DiffersAt(s, d, 0);
      assert d[0] !in p[1..];
      DelimitedSkip(p[1..], y, d, open, close);
    }
  }

  lemma DelimitedAbsent(s: string, d: string, open: string, close: string)
    requires |d| >= 1 && d[0] !in s
    ensures Delimited(s, d, open, close) == s
  {
    DelimitedSkip(s, [], d, open, close);
    assert s + [] == s;
  }

  /** The lazy search stops at the first delimiter after content that has
      none of its first character. */
  lemma {:induction false} FindPlain(x: string, d: string, rest: string, k: nat, least: nat)
    requires |d| >= 1 && OneLine(x) && d[0] !in x && k <= |x| && least <= |x|
    requires OneLine((x + d + rest)[..k])
    ensures Find(x + d + rest, d, k, least) == Some(|x|)
    decreases |x| - k
  {
    var t := x + d + rest;
    assert t[|x|..] == d + rest;
    if k < |x| {
      assert t[k] == x[k];
      DiffersAt(t[k..], d, 0);
      assert t[..k + 1] == t[..k] + [t[k]];
      FindPlain(x, d, rest, k + 1, least);
    }
  }

  lemma {:induction false} RemoveBrSkip(p: string, y: string)
    requires '<' !in p
    ensures RemoveBr(p + y) == p + RemoveBr(y)
    decreases |p|
  {
    if p == [] {
      assert p + y == y;
    } else {
      var s := p + y;
      assert s[0] == p[0] && s[1..] == p[1..] + y;
      assert '<' !in p[1..];
      RemoveBrSkip(p[1..], y);
    }
  }

  /** A tag other than `<br/>` survives the `<br/>` removal. */
  lemma RemoveBrTag(tag: string, y: string)
    requires |tag| >= 2 && tag[0] == '<' && tag[1] != 'b' && '<' !in tag[1..]
    ensures RemoveBr(tag + y) == tag + RemoveBr(y)
  {
    var s := tag + y;
    assert s[1] == tag[1];
    assert s[1..] == tag[1..] + y;
    RemoveBrSkip(tag[1..], y);
    assert tag == [tag[0]] + tag[1..];
  }

  lemma {:induction false} WrapListsAbsent(s: string)
    requires '<' !in s
    ensures WrapLists(s) == s
    decreases |s|
  {
    if s != [] {
      DiffersAt(s, "<li>", 0);
      assert Run(s) == 0;
      assert '<' !in s[1..];
      WrapListsAbsent(s[1..]);
    }
  }

  // ---------------------------------------------------------------------------
  // What formatMarkdown does to typical replies

  /** Text with no character any replacement reacts to inside a line. */
  predicate Plain(x: string) {
    x != [] && OneLine(x) && '&' !in x && '<' !in x && '>' !in x && '*' !in x
  }

  lemma OneLineWhole(x: string)
    requires OneLine(x)
    ensures LineLen(x) == |x| && '\n' !in x
  {
    assert '\n' in Terminators;
    assert forall k :: 0 <= k < |x| ==> x[k] != '\n';
  }

  lemma OneLineJoin(a: string, b: string)
    requires OneLine(a) && OneLine(b)
    ensures OneLine(a + b)
  {
    forall k | 0 <= k < |a + b| ensures (a + b)[k] !in Terminators {
      if k < |a| {
        assert (a + b)[k] == a[k];
      } else {
        assert (a + b)[k] == b[k - |a|];
      }
    }
  }

  /** A heading rule rewrites a line that starts with its prefix. */
  lemma HeadingMatches(prefix: string, open: string, close: string, x: string)
    requires prefix != [] && OneLine(x) && x != []
    ensures LinePass(Heading(prefix, open, close), prefix + x) == open + x + close
  {
    var s := prefix + x;
    var rule := Heading(prefix, open, close);
    assert s[..|prefix|] == prefix && s[|prefix|..] == x;
    OneLineWhole(x);
    assert s[|prefix|..|prefix| + |x|] == x;
    assert Attempt(rule, s) == Some((|s|, open + x + close));
    assert s[|s|..] == [];
  }

  /** A line rule whose marker is absent leaves a line alone. */
  lemma RuleSkips(rule: LineRule, s: string)
    requires OneLine(s) && Marker(rule, s) == 0
    ensures LinePass(rule, s) == s
  {
    LinePassOneLine(rule, s);
  }

  /** `# `, `## ` and `### ` lines become h2, h3 and h4 headings: the longest
      prefix is tried first, and a rewritten line starts with '<', which no
      later heading rule matches. */
  lemma HeadingLevels(x: string)
    requires OneLine(x) && x != []
    ensures Headings("### " + x) == "<h4 class=\"md-h3\">" + x + "</h4>"
    ensures Headings("## " + x) == "<h3 class=\"md-h2\">" + x + "</h3>"
    ensures Headings("# " + x) == "<h2 class=\"md-h1\">" + x + "</h2>"
  {
    SmallHeading(x);
    MiddleHeading(x);
    LargeHeading(x);
  }

  lemma SmallHeading(x: string)
    requires OneLine(x) && x != []
    ensures Headings("### " + x) == "<h4 class=\"md-h3\">" + x + "</h4>"
  {
    var h4 := "<h4 class=\"md-h3\">" + x + "</h4>";
    OneLineJoin("<h4 class=\"md-h3\">", x);
    OneLineJoin("<h4 class=\"md-h3\">" + x, "</h4>");
    HeadingMatches("### ", "<h4 class=\"md-h3\">", "</h4>", x);
    DiffersAt(h4, "## ", 0);
    RuleSkips(H2Rule, h4);
    DiffersAt(h4, "# ", 0);
    RuleSkips(H1Rule, h4);
  }

  lemma MiddleHeading(x: string)
    requires OneLine(x) && x != []
    ensures Headings("## " + x) == "<h3 class=\"md-h2\">" + x + "</h3>"
  {
    var h3 := "<h3 class=\"md-h2\">" + x + "</h3>";
    OneLineJoin("<h3 class=\"md-h2\">", x);
    OneLineJoin("<h3 class=\"md-h2\">" + x, "</h3>");
    OneLineJoin("## ", x);
    DiffersAt("## " + x, "### ", 2);
    RuleSkips(H3Rule, "## " + x);
    HeadingMatches("## ", "<h3 class=\"md-h2\">", "</h3>", x);
    DiffersAt(h3, "# ", 0);
    RuleSkips(H1Rule, h3);
  }

  lemma LargeHeading(x: string)
    requires OneLine(x) && x != []
    ensures Headings("# " + x) == "<h2 class=\"md-h1\">" + x + "</h2>"
  {
    OneLineJoin("# ", x);
    DiffersAt("# " + x, "### ", 1);
    RuleSkips(H3Rule, "# " + x);
    DiffersAt("# " + x, "## ", 1);
    RuleSkips(H2Rule, "# " + x);
    HeadingMatches("# ", "<h2 class=\"md-h1\">", "</h2>", x);
  }

  /** A delimited run whose content has no delimiter character is replaced. */
  lemma DelimitedMatches(d: string, open: string, close: string, x: string)
    requires |d| >= 1 && OneLine(x) && x != [] && d[0] !in x
    ensures Delimited(d + x + d, d, open, close) == open + x + close
  {
    var s := d + x + d;
    DelimitedCloses(d, x);
    DelimitedAt(s, d, open, close, |x|);
    DelimitedParts(d, x);
    assert Delimited([], d, open, close) == [];
    assert open + x + close + [] == open + x + close;
  }

  /** The search after the opening delimiter stops at the closing one. */
  lemma DelimitedCloses(d: string, x: string)
    requires |d| >= 1 && OneLine(x) && x != [] && d[0] !in x
    ensures StartsWith(d + x + d, d) && Find((d + x + d)[|d|..], d, 0, 1) == Some(|x|)
  {
    SliceAfterOpening(d, x);
    FindPlain(x, d, [], 0, 1);
  }

  lemma SliceAfterOpening(d: string, x: string)
    ensures StartsWith(d + x + d, d) && (d + x + d)[|d|..] == x + d + []
  {
    var s := d + x + d;
    assert s[..|d|] == d;
    assert forall k :: 0 <= k < |s| - |d| ==> s[|d|..][k] == (x + d + [])[k];
  }

  lemma AfterPrefix(a: string, b: string)
    ensures StartsWith(a + b, a) && (a + b)[|a|..] == b
  {
    assert (a + b)[..|a|] == a;
  }

  lemma DelimitedParts(d: string, x: string)
    ensures (d + x + d)[|d|..|d| + |x|] == x
    ensures (d + x + d)[|d| + |x| + |d|..] == []
  {
  }

  /** A delimiter at the front that the search closes after k characters. */
  lemma DelimitedAt(s: string, d: string, open: string, close: string, k: nat)
    requires |d| >= 1 && StartsWith(s, d) && Find(s[|d|..], d, 0, 1) == Some(k)
    ensures |d| + k + |d| <= |s|
    ensures Delimited(s, d, open, close) == open + s[|d|..|d| + k] + close + Delimited(s[|d| + k + |d|..], d, open, close)
  {
  }

  /** `***x***` is bold italic: the triple rule runs before the bold and
      italic rules, which then find no asterisk. */
  lemma BoldItalicFirst(x: string)
    requires Plain(x)
    ensures Emphasis("***" + x + "***") == "<strong><em>" + x + "</em></strong>"
  {
    DelimitedMatches("***", "<strong><em>", "</em></strong>", x);
    var r := "<strong><em>" + x + "</em></strong>";
    assert '*' !in r;
    DelimitedAbsent(r, "**", "<strong>", "</strong>");
    DelimitedAbsent(r, "*", "<em>", "</em>");
  }

  /** `**x**` is bold: the triple rule finds no three asterisks in a row. */
  lemma BoldNotItalic(x: string)
    requires Plain(x)
    ensures Emphasis("**" + x + "**") == "<strong>" + x + "</strong>"
  {
    TripleRulePassesBold(x);
    DelimitedMatches("**", "<strong>", "</strong>", x);
    var r := "<strong>" + x + "</strong>";
    assert '*' !in r;
    DelimitedAbsent(r, "*", "<em>", "</em>");
  }

  /** The `***` rule leaves a `**` run alone. */
  lemma TripleRulePassesBold(x: string)
    requires Plain(x)
    ensures Delimited("**" + x + "**", "***", "<strong><em>", "</em></strong>") == "**" + x + "**"
  {
    var s := "**" + x + "**";
    DiffersAt(s, "***", 2);
    assert Delimited(s, "***", "<strong><em>", "</em></strong>")
      == [s[0]] + Delimited(s[1..], "***", "<strong><em>", "</em></strong>");
    var s1 := s[1..];
    assert s1 == "*" + x + "**";
    DiffersAt(s1, "***", 1);
    assert Delimited(s1, "***", "<strong><em>", "</em></strong>")
      == [s1[0]] + Delimited(s1[1..], "***", "<strong><em>", "</em></strong>");
    assert s1[1..] == x + "**";
    DelimitedSkip(x, "**", "***", "<strong><em>", "</em></strong>");
    assert Delimited("**", "***", "<strong><em>", "</em></strong>") == "**";
    assert s == [s[0]] + [s1[0]] + (x + "**");
  }

  /** A one-line reply with no markup is shown as it is. */
  lemma PlainPassesThrough(x: string)
    requires Plain(x) && x[0] != '#' && x[0] != '-' && !IsDigit(x[0])
    ensures FormatMarkdown(Some(x)) == x
  {
    ReplaceCharAbsent(x, '&', "&amp;");
    ReplaceCharAbsent(x, '<', "&lt;");
    ReplaceCharAbsent(x, '>', "&gt;");
    DiffersAt(x, "### ", 0);
    RuleSkips(H3Rule, x);
    DiffersAt(x, "## ", 0);
    RuleSkips(H2Rule, x);
    DiffersAt(x, "# ", 0);
    RuleSkips(H1Rule, x);
    DelimitedAbsent(x, "***", "<strong><em>", "</em></strong>");
    DelimitedAbsent(x, "**", "<strong>", "</strong>");
    DelimitedAbsent(x, "*", "<em>", "</em>");
    RuleSkips(Bullet, x);
    RuleSkips(Numbered, x);
    OneLineWhole(x);
    ReplaceCharAbsent(x, '\n', "<br/>");
    WrapListsAbsent(x);
  }

  /** A list item as the list rules write it. */
  function Li(x: string): string {
    "<li>" + x + "</li>"
  }

  /** A bullet line becomes one item. */
  lemma BulletLine(x: string)
    requires Plain(x)
    ensures LinePass(Bullet, "- " + x) == Li(x)
  {
    var s := "- " + x;
    OneLineJoin("- ", x);
    assert Marker(Bullet, s) == 2;
    assert s[2..] == x;
    OneLineWhole(x);
    assert s[2..2 + |x|] == x;
    LinePassOneLine(Bullet, s);
  }

  /** A line rule whose marker is absent from both lines leaves them alone. */
  lemma RuleSkipsTwo(rule: LineRule, a: string, b: string)
    requires OneLine(a) && OneLine(b) && MarkerOneLine(rule)
    requires rule.Numbered? ==> a == [] || !IsDigit(a[0])
    requires Marker(rule, a) == 0 && Marker(rule, b) == 0
    ensures LinePass(rule, a + "\n" + b) == a + "\n" + b
  {
    LinePassSplit(rule, a, '\n', b);
    RuleSkips(rule, a);
    RuleSkips(rule, b);
  }

  /** Text without '&', '<', '>' and '*' passes escaping and emphasis. */
  lemma NoEscapeNoEmphasis(s: string)
    requires '&' !in s && '<' !in s && '>' !in s && '*' !in s
    ensures EscapeHtml(s) == s && Emphasis(s) == s
  {
    ReplaceCharAbsent(s, '&', "&amp;");
    ReplaceCharAbsent(s, '<', "&lt;");
    ReplaceCharAbsent(s, '>', "&gt;");
    DelimitedAbsent(s, "***", "<strong><em>", "</em></strong>");
    DelimitedAbsent(s, "**", "<strong>", "</strong>");
    DelimitedAbsent(s, "*", "<em>", "</em>");
  }

  /** Two lines that do not start with '#' pass the heading rules. */
  lemma NoHeadings(x: string, y: string)
    requires OneLine(x) && OneLine(y) && x != [] && y != [] && x[0] != '#' && y[0] != '#'
    ensures Headings(x + "\n" + y) == x + "\n" + y
  {
    DiffersAt(x, "### ", 0);
    DiffersAt(y, "### ", 0);
    RuleSkipsTwo(H3Rule, x, y);
    DiffersAt(x, "## ", 0);
    DiffersAt(y, "## ", 0);
    RuleSkipsTwo(H2Rule, x, y);
    DiffersAt(x, "# ", 0);
    DiffersAt(y, "# ", 0);
    RuleSkipsTwo(H1Rule, x, y);
  }

  /** Two bullet lines reach the list rules untouched. */
  lemma BulletsBeforeLists(a: string, b: string)
    requires Plain(a) && Plain(b)
    ensures var s := "- " + a + "\n- " + b;
      Emphasis(Headings(EscapeHtml(s))) == s
  {
    var x := "- " + a;
    var y := "- " + b;
    var s := "- " + a + "\n- " + b;
    assert s == x + "\n" + y;
    OneLineJoin("- ", a);
    OneLineJoin("- ", b);
    assert '&' !in s && '<' !in s && '>' !in s && '*' !in s;
    NoEscapeNoEmphasis(s);
    NoHeadings(x, y);
  }

  /** The bullet rule turns two bullet lines into two items. */
  lemma BulletsToItems(a: string, b: string)
    requires Plain(a) && Plain(b)
    ensures LinePass(Bullet, "- " + a + "\n- " + b) == Li(a) + "\n" + Li(b)
  {
    var x := "- " + a;
    var y := "- " + b;
    assert "- " + a + "\n- " + b == x + ['\n'] + y;
    OneLineJoin("- ", a);
    LinePassSplit(Bullet, x, '\n', y);
    BulletLine(a);
    BulletLine(b);
    assert Li(a) + ['\n'] + Li(b) == Li(a) + "\n" + Li(b);
  }

  /** Items do not start with a digit, so the numbered rule passes them. */
  lemma ItemsNotNumbered(a: string, b: string)
    requires Plain(a) && Plain(b)
    ensures LinePass(Numbered, Li(a) + "\n" + Li(b)) == Li(a) + "\n" + Li(b)
  {
    ItemOneLine(a);
    ItemOneLine(b);
    assert Marker(Numbered, Li(a)) == 0 && Marker(Numbered, Li(b)) == 0;
    RuleSkipsTwo(Numbered, Li(a), Li(b));
  }

  /** The line break between two lines becomes `<br/>`. */
  lemma LineBreakBetween(p: string, q: string)
    requires OneLine(p) && OneLine(q)
    ensures ReplaceChar(p + "\n" + q, '\n', "<br/>") == p + "<br/>" + q
  {
    OneLineWhole(p);
    OneLineWhole(q);
    ReplaceCharConcat(p, "\n", '\n', "<br/>");
    ReplaceCharConcat(p + "\n", q, '\n', "<br/>");
    ReplaceCharAbsent(p, '\n', "<br/>");
    ReplaceCharAbsent(q, '\n', "<br/>");
  }

  lemma ItemOneLine(x: string)
    requires OneLine(x)
    ensures OneLine(Li(x))
  {
    OneLineJoin("<li>", x);
    OneLineJoin("<li>" + x, "</li>");
  }

  /** An item is the shortest `<li>...</li>`, with a `<br/>` that follows it. */
  lemma ItemOf(x: string, y: string)
    requires OneLine(x) && '<' !in x
    ensures Item(Li(x) + y) == Some(9 + |x| + if StartsWith(y, "<br/>") then 5 else 0)
  {
    var t := Li(x) + y;
    assert t[..4] == "<li>";
    assert t[4..] == x + "</li>" + y;
    FindPlain(x, "</li>", y, 0, 0);
    assert t[9 + |x|..] == y;
  }

  lemma RemoveBrItem(x: string, y: string)
    requires '<' !in x
    ensures RemoveBr(Li(x) + y) == Li(x) + RemoveBr(y)
  {
    LiThen(x, y);
    RemoveBrOpening(x + ("</li>" + y));
    RemoveBrSkip(x, "</li>" + y);
    RemoveBrClosing(y);
    LiThen(x, RemoveBr(y));
  }

  lemma LiThen(x: string, y: string)
    ensures Li(x) + y == "<li>" + (x + ("</li>" + y))
  {
  }

  lemma RemoveBrOpening(y: string)
    ensures RemoveBr("<li>" + y) == "<li>" + RemoveBr(y)
  {
    RemoveBrTag("<li>", y);
  }

  lemma RemoveBrClosing(y: string)
    ensures RemoveBr("</li>" + y) == "</li>" + RemoveBr(y)
  {
    RemoveBrTag("</li>", y);
  }

  /** Two items separated by `<br/>` make one run. */
  lemma RunOfTwo(a: string, b: string)
    requires Plain(a) && Plain(b)
    ensures Run(Li(a) + "<br/>" + Li(b)) == |Li(a) + "<br/>" + Li(b)|
  {
    var y := "<br/>" + Li(b);
    var w := Li(a) + y;
    assert Li(a) + "<br/>" + Li(b) == w;
    assert y[..5] == "<br/>";
    ItemOf(a, y);
    var g := |Li(a)| + 5;
    assert Item(w) == Some(g);
    assert Run(w) == g + Run(w[g..]);
    assert w[g..] == Li(b);
    RunOfOne(b);
  }

  /** A single item is a run of its own length. */
  lemma RunOfOne(x: string)
    requires Plain(x)
    ensures Run(Li(x)) == |Li(x)|
  {
    ItemOf(x, []);
    assert Li(x) + [] == Li(x);
    assert !StartsWith([], "<br/>");
    assert Item(Li(x)) == Some(|Li(x)|);
    assert Li(x)[|Li(x)|..] == [];
    assert Run([]) == 0;
  }

  /** The run loses its `<br/>`. */
  lemma RemoveBrOfTwo(a: string, b: string)
    requires Plain(a) && Plain(b)
    ensures RemoveBr(Li(a) + "<br/>" + Li(b)) == Li(a) + Li(b)
  {
    assert Li(a) + "<br/>" + Li(b) == Li(a) + ("<br/>" + Li(b));
    RemoveBrItem(a, "<br/>" + Li(b));
    assert ("<br/>" + Li(b))[5..] == Li(b);
    RemoveBrItem(b, []);
    assert Li(b) + [] == Li(b);
  }

  /** Two items separated by `<br/>` form one list. */
  lemma TwoItemsWrapped(a: string, b: string)
    requires Plain(a) && Plain(b)
    ensures WrapLists(Li(a) + "<br/>" + Li(b)) == "<ul>" + Li(a) + Li(b) + "</ul>"
  {
    var w := Li(a) + "<br/>" + Li(b);
    RunOfTwo(a, b);
    RemoveBrOfTwo(a, b);
    WrapWholeRun(w);
    assert "<ul>" + (Li(a) + Li(b)) + "</ul>" == "<ul>" + Li(a) + Li(b) + "</ul>";
  }

  /** Text that is one run of items becomes one list. */
  lemma WrapWholeRun(w: string)
    requires w != [] && Run(w) == |w|
    ensures WrapLists(w) == "<ul>" + RemoveBr(w) + "</ul>"
  {
    WrapListsAtRun(w);
    WholeSlices(w);
  }

  /** A run at the front becomes one list, and the scan resumes after it. */
  lemma WrapListsAtRun(s: string)
    requires s != [] && Run(s) > 0
    ensures WrapLists(s) == "<ul>" + RemoveBr(s[..Run(s)]) + "</ul>" + WrapLists(s[Run(s)..])
  {
  }

  lemma WholeSlices(w: string)
    ensures w[..|w|] == w && w[|w|..] == [] && WrapLists([]) == []
  {
  }

  /** Consecutive bullet lines become one list of their items. */
  lemma BulletRun(a: string, b: string)
    requires Plain(a) && Plain(b)
    ensures FormatMarkdown(Some("- " + a + "\n- " + b)) == "<ul>" + Li(a) + Li(b) + "</ul>"
  {
    var s := "- " + a + "\n- " + b;
    BulletsBeforeLists(a, b);
    var lines := Li(a) + "\n" + Li(b);
    BulletsToItems(a, b);
    ItemsNotNumbered(a, b);
    assert ListItems(s) == lines;
    ItemOneLine(a);
    ItemOneLine(b);
    LineBreakBetween(Li(a), Li(b));
    TwoItemsWrapped(a, b);
    assert FormatMarkdown(Some(s)) == WrapLists(Li(a) + "<br/>" + Li(b));
  }

  /** The `\s` after a numbered marker also matches a line break, so a
      marker alone on its line takes the next line as its item. */
  lemma NumberedMarkerTakesNextLine(x: string)
    requires Plain(x) && x[0] != '-'
    ensures ListItems("1.\n" + x) == Li(x)
  {
    var s := "1.\n" + x;
    BulletSkipsMarkerLine(x);
    NumberedTakesAll(x);
    assert s[|s|..] == [];
    assert LinePass(Numbered, s) == Li(x) + NextLine(Numbered, []);
  }

  lemma BulletSkipsMarkerLine(x: string)
    requires Plain(x) && x[0] != '-'
    ensures LinePass(Bullet, "1.\n" + x) == "1.\n" + x
  {
    BulletMarkersAbsent(x);
    RuleSkipsTwo(Bullet, "1.", x);
    assert "1." + "\n" + x == "1.\n" + x;
  }

  lemma BulletMarkersAbsent(x: string)
    requires Plain(x) && x[0] != '-'
    ensures OneLine("1.") && OneLine(x)
    ensures Marker(Bullet, "1.") == 0 && Marker(Bullet, x) == 0
  {
  }

  lemma NumberedTakesAll(x: string)
    requires Plain(x)
    ensures Attempt(Numbered, "1.\n" + x) == Some((|"1.\n" + x|, Li(x)))
  {
    var s := "1.\n" + x;
    assert DigitRun(s) == 1;
    assert '\n' in JsWhitespace;
    assert Marker(Numbered, s) == 3;
    AfterPrefix("1.\n", x);
    OneLineWhole(x);
    assert s[3..3 + |x|] == x;
  }
}
