/** The Markdown subset of web/src/lib/markdown.ts: HTML escaping, the four inline
    rewrite rules (bold, italic, image, link) and the line scanner that groups lines into
    headings, ordered and bullet lists and paragraphs. */
module Markdown {
  import opened Wrappers
  import opened Text

  // ---------------------------------------------------------------- escaping

  predicate IsHtmlSpecial(c: char) {
    c == '&' || c == '<' || c == '>' || c == '"' || c == '\''
  }

  function EscapeChar(c: char): (r: string)
    ensures !IsHtmlSpecial(c) ==> r == [c]
    ensures IsHtmlSpecial(c) ==> |r| >= 4 && r[0] == '&'
  {
    match c
    case '&' => "&amp;"
    case '<' => "&lt;"
    case '>' => "&gt;"
    case '"' => "&quot;"
    case '\'' => "&#39;"
    case _ => [c]
  }

  /** No raw `<`, `>`, `"` or `'`: the characters that could open a tag or an attribute. */
  predicate NoRawMarkup(s: string) {
    forall i :: 0 <= i < |s| ==> s[i] != '<' && s[i] != '>' && s[i] != '"' && s[i] != '\''
  }

  /** `escapeHtml`: each of `& < > " '` becomes its entity; other characters are kept. */
  function EscapeHtml(s: string): (r: string)
    ensures NoRawMarkup(r)
    ensures (forall i :: 0 <= i < |s| ==> !IsHtmlSpecial(s[i])) ==> r == s
  {
    if s == [] then [] else EscapeChar(s[0]) + EscapeHtml(s[1..])
  }

  /** Reference inverse of `EscapeHtml`: each of the five entities is decoded. */
  function UnescapeHtml(s: string): string
    decreases |s|
  {
    if s == [] then []
    else if StartsWith(s, "&amp;") then "&" + UnescapeHtml(s[5..])
    else if StartsWith(s, "&lt;") then "<" + UnescapeHtml(s[4..])
    else if StartsWith(s, "&gt;") then ">" + UnescapeHtml(s[4..])
    else if StartsWith(s, "&quot;") then "\"" + UnescapeHtml(s[6..])
    else if StartsWith(s, "&#39;") then "'" + UnescapeHtml(s[5..])
    else [s[0]] + UnescapeHtml(s[1..])
  }

  lemma UnescapeAmp(t: string)
    ensures UnescapeHtml("&amp;" + t) == "&" + UnescapeHtml(t)
  {
    var e := "&amp;" + t;
    assert StartsWith(e, "&amp;") && e[5..] == t;
  }

  lemma UnescapeLt(t: string)
    ensures UnescapeHtml("&lt;" + t) == "<" + UnescapeHtml(t)
  {
    var e := "&lt;" + t;
    assert e[1] == 'l' && !StartsWith(e, "&amp;");
    assert StartsWith(e, "&lt;") && e[4..] == t;
  }

  lemma UnescapeGt(t: string)
    ensures UnescapeHtml("&gt;" + t) == ">" + UnescapeHtml(t)
  {
    var e := "&gt;" + t;
    assert e[1] == 'g' && !StartsWith(e, "&amp;") && !StartsWith(e, "&lt;");
    assert StartsWith(e, "&gt;") && e[4..] == t;
  }

  lemma UnescapeQuot(t: string)
    ensures UnescapeHtml("&quot;" + t) == "\"" + UnescapeHtml(t)
  {
    var e := "&quot;" + t;
    assert e[1] == 'q' && !StartsWith(e, "&amp;") && !StartsWith(e, "&lt;") && !StartsWith(e, "&gt;");
    assert StartsWith(e, "&quot;") && e[6..] == t;
  }

  lemma UnescapeApos(t: string)
    ensures UnescapeHtml("&#39;" + t) == "'" + UnescapeHtml(t)
  {
    var e := "&#39;" + t;
    assert e[1] == '#' && !StartsWith(e, "&amp;") && !StartsWith(e, "&lt;") && !StartsWith(e, "&gt;");
    assert !StartsWith(e, "&quot;") && StartsWith(e, "&#39;") && e[5..] == t;
  }

  lemma UnescapeCons(c: char, t: string)
    ensures UnescapeHtml(EscapeChar(c) + t) == [c] + UnescapeHtml(t)
  {
    if c == '&' {
      UnescapeAmp(t);
    } else if c == '<' {
      UnescapeLt(t);
    } else if c == '>' {
      UnescapeGt(t);
    } else if c == '"' {
      UnescapeQuot(t);
    } else if c == '\'' {
      UnescapeApos(t);
    } else {
      assert EscapeChar(c) == [c];
      UnescapePlain(c, t);
    }
  }

  lemma UnescapePlain(c: char, t: string)
    requires c != '&'
    ensures UnescapeHtml([c] + t) == [c] + UnescapeHtml(t)
  {
    var e := [c] + t;
    assert e[0] != '&' && e[1..] == t;
    assert !StartsWith(e, "&amp;") && !StartsWith(e, "&lt;") && !StartsWith(e, "&gt;");
    assert !StartsWith(e, "&quot;") && !StartsWith(e, "&#39;");
  }

  /** Escaping loses nothing: decoding the entities gives the original text back. */
  lemma {:induction false} UnescapeEscape(s: string)
    ensures UnescapeHtml(EscapeHtml(s)) == s
  {
    if s != [] {
      UnescapeEscape(s[1..]);
      UnescapeCons(s[0], EscapeHtml(s[1..]));
      assert s == [s[0]] + s[1..];
    }
  }

  // ---------------------------------------------------------------- inline rules

  /** The four `replace` passes of `transformInline`, in the order they run. */
  datatype Rule = Bold | Italic | Image | Link

  /** A character `[^)\s]` accepts. */
  predicate IsUrlChar(c: char) { c != ')' && !IsSpace(c) }

  /** What `https?:[^)\s]+` accepts. */
  predicate IsHttpUrl(u: string) {
    ((StartsWith(u, "http:") && |u| > 5) || (StartsWith(u, "https:") && |u| > 6)) &&
    forall p :: 0 <= p < |u| ==> IsUrlChar(u[p])
  }

  /** The end of the longest run of URL characters from `k`. */
  function UrlRunEnd(s: string, k: nat): (m: nat)
    requires k <= |s|
    ensures k <= m <= |s|
    ensures forall p :: k <= p < m ==> IsUrlChar(s[p])
    ensures m == |s| || !IsUrlChar(s[m])
    decreases |s| - k
  {
    if k < |s| && IsUrlChar(s[k]) then UrlRunEnd(s, k + 1) else k
  }

  /** `\]\((https?:[^)\s]+)\)` matched at `j`: the URL is `s[j + 2..m]` and `s[m]` is the
      closing parenthesis. The greedy URL run cannot give back characters usefully, as
      the `)` that must follow is not a URL character, so the match is unique. */
  function LinkTailAt(s: string, j: nat): (r: Option<nat>)
    requires j <= |s|
    ensures r.Some? ==> j + 2 < r.value < |s| && s[r.value] == ')' && StartsWith(s[j..], "](")
    ensures r.Some? ==> IsHttpUrl(s[j + 2..r.value])
  {
    if !StartsWith(s[j..], "](http") then None
    else
      var k := if j + 6 < |s| && s[j + 6] == 's' then j + 7 else j + 6;
      if k < |s| && s[k] == ':' then
        var m := UrlRunEnd(s, k + 1);
        if m > k + 1 && m < |s| && s[m] == ')' then
          LinkTailUrl(s, j, k, m);
          Some(m)
        else None
      else None
  }

  lemma LinkTailUrl(s: string, j: nat, k: nat, m: nat)
    requires j + 6 <= k <= j + 7 && k + 1 < m < |s| && s[k] == ':' && StartsWith(s[j..], "](http")
    requires k == j + 7 ==> s[j + 6] == 's'
    requires forall p :: k + 1 <= p < m ==> IsUrlChar(s[p])
    ensures IsHttpUrl(s[j + 2..m])
  {
    var u := s[j + 2..m];
    forall p | 0 <= p < 4 ensures u[p] == "http"[p] {
      assert u[p] == s[j..][..6][p + 2];
    }
    forall p | 0 <= p < |u| ensures IsUrlChar(u[p]) {
      if p < 4 {
        assert u[p] == 'h' || u[p] == 't' || u[p] == 'p';
      } else if j + 2 + p < k {
        assert u[p] == 's';
      } else if j + 2 + p == k {
        assert u[p] == ':';
      } else {
        assert u[p] == s[j + 2 + p];
      }
    }
    if k == j + 6 {
      assert u[..5] == "http:";
    } else {
      assert u[4] == 's' && u[5] == ':';
      assert u[..6] == "https:";
    }
  }

  /** The lazy `(.*?)` before a link tail, searched from `j`: the first position `a` at
      which the tail matches, provided no line terminator lies in `s[j..a]`. */
  function LinkFrom(s: string, j: nat): (r: Option<(nat, nat)>)
    requires j <= |s|
    ensures r.Some? ==> j <= r.value.0 <= |s| && LinkTailAt(s, r.value.0) == Some(r.value.1)
    decreases |s| - j
  {
    match LinkTailAt(s, j)
    case Some(m) => Some((j, m))
    case None => if j < |s| && !IsLineTerminator(s[j]) then LinkFrom(s, j + 1) else None
  }

  /** The search is lazy and stays on one line: the captured text holds no line
      terminator and no earlier position starts a link tail. */
  lemma {:induction false} LinkFromIsLazy(s: string, j: nat)
    requires j <= |s|
    ensures LinkFrom(s, j).Some? ==> forall p :: j <= p < LinkFrom(s, j).value.0 ==>
      !IsLineTerminator(s[p]) && LinkTailAt(s, p).None?
    decreases |s| - j
  {
    match LinkTailAt(s, j)
    case Some(m) =>
      assert LinkFrom(s, j) == Some((j, m));
    case None =>
      if j < |s| && !IsLineTerminator(s[j]) {
        LinkFromIsLazy(s, j + 1);
        assert LinkFrom(s, j) == LinkFrom(s, j + 1);
      } else {
        assert LinkFrom(s, j).None?;
      }
  }

  /** When nothing is found, every candidate either meets a line terminator first or
      has no tail. */
  lemma {:induction false} LinkFromMissesOnlyPastLine(s: string, j: nat)
    requires j <= |s|
    ensures LinkFrom(s, j).None? ==> forall a :: j <= a <= |s| && LinkTailAt(s, a).Some? ==>
      exists p :: j <= p < a && IsLineTerminator(s[p])
    decreases |s| - j
  {
    match LinkTailAt(s, j)
    case Some(m) =>
      assert LinkFrom(s, j) == Some((j, m));
    case None =>
      if j < |s| && !IsLineTerminator(s[j]) {
        LinkFromMissesOnlyPastLine(s, j + 1);
        assert LinkFrom(s, j) == LinkFrom(s, j + 1);
      } else {
        forall a | j <= a <= |s| && LinkTailAt(s, a).Some?
          ensures exists p :: j <= p < a && IsLineTerminator(s[p])
        {
          assert a != j && j < |s| && IsLineTerminator(s[j]);
        }
      }
  }

  /** The lazy `(.+?)` before the closing delimiter `d`, searched from `j`: the first
      occurrence of `d` with no line terminator in between. */
  function CloserFrom(s: string, j: nat, d: string): (r: Option<nat>)
    requires j <= |s| && d != []
    ensures r.Some? ==> j <= r.value <= |s| && StartsWith(s[r.value..], d)
    ensures r.Some? ==> r.value + |d| <= |s|
    decreases |s| - j
  {
    if StartsWith(s[j..], d) then Some(j)
    else if j < |s| && !IsLineTerminator(s[j]) then CloserFrom(s, j + 1, d)
    else None
  }

  /** The closer found is the first one, and the text before it stays on one line; when
      none is found, every later delimiter has a line terminator before it. */
  lemma {:induction false} CloserFromIsLazy(s: string, j: nat, d: string)
    requires j <= |s| && d != []
    ensures CloserFrom(s, j, d).Some? ==> forall p :: j <= p < CloserFrom(s, j, d).value ==>
      !IsLineTerminator(s[p]) && !StartsWith(s[p..], d)
    ensures CloserFrom(s, j, d).None? ==> forall c :: j <= c <= |s| && StartsWith(s[c..], d) ==>
      exists p :: j <= p < c && IsLineTerminator(s[p])
    decreases |s| - j
  {
    if !StartsWith(s[j..], d) && j < |s| && !IsLineTerminator(s[j]) {
      CloserFromIsLazy(s, j + 1, d);
    }
  }

  /** `\*\*(.+?)\*\*` at `i`: the end of the match and `<strong>$1</strong>`. */
  function BoldAt(s: string, i: nat): (r: Option<(nat, string)>)
    requires i < |s|
    ensures r.Some? ==> i < r.value.0 <= |s| && s[i] == '*'
  {
    if StartsWith(s[i..], "**") && i + 2 < |s| && !IsLineTerminator(s[i + 2]) then
      match CloserFrom(s, i + 3, "**")
      case Some(c) => Some((c + 2, "<strong>" + s[i + 2..c] + "</strong>"))
      case None => None
    else None
  }

  /** `\*(.+?)\*` at `i`: the end of the match and `<em>$1</em>`. */
  function ItalicAt(s: string, i: nat): (r: Option<(nat, string)>)
    requires i < |s|
    ensures r.Some? ==> i < r.value.0 <= |s| && s[i] == '*'
  {
    if s[i] == '*' && i + 1 < |s| && !IsLineTerminator(s[i + 1]) then
      match CloserFrom(s, i + 2, "*")
      case Some(c) => Some((c + 1, "<em>" + s[i + 1..c] + "</em>"))
      case None => None
    else None
  }

  function ImageHtml(url: string, alt: string): string {
    "<img src=\"" + url + "\" alt=\"" + alt + "\" />"
  }

  function LinkHtml(url: string, text: string): string {
    "<a href=\"" + url + "\">" + text + "</a>"
  }

  /** `!\[(.*?)\]\((https?:[^)\s]+)\)` at `i`: the end of the match and
      `<img src="$2" alt="$1" />`. */
  function ImageAt(s: string, i: nat): (r: Option<(nat, string)>)
    requires i < |s|
    ensures r.Some? ==> i < r.value.0 <= |s| && s[i] == '!'
  {
    if !StartsWith(s[i..], "![") then None
    else
      var found := LinkFrom(s, i + 2);
      if found.None? then None
      else
        var a := found.value.0;
        var m := found.value.1;
        Some((m + 1, ImageHtml(s[a + 2..m], s[i + 2..a])))
  }

  /** `\[(.*?)\]\((https?:[^)\s]+)\)` at `i`: the end of the match and
      `<a href="$2">$1</a>`. */
  function LinkAt(s: string, i: nat): (r: Option<(nat, string)>)
    requires i < |s|
    ensures r.Some? ==> i < r.value.0 <= |s| && s[i] == '['
  {
    if s[i] != '[' then None
    else
      var found := LinkFrom(s, i + 1);
      if found.None? then None
      else
        var a := found.value.0;
        var m := found.value.1;
        Some((m + 1, LinkHtml(s[a + 2..m], s[i + 1..a])))
  }

  /** The match of `rule` starting exactly at `i`. */
  function MatchAt(rule: Rule, s: string, i: nat): (r: Option<(nat, string)>)
    requires i < |s|
    ensures r.Some? ==> i < r.value.0 <= |s| && IsRuleStart(s[i])
  {
    match rule
    case Bold => BoldAt(s, i)
    case Italic => ItalicAt(s, i)
    case Image => ImageAt(s, i)
    case Link => LinkAt(s, i)
  }

  /** The only characters at which a rule can begin to match. */
  predicate IsRuleStart(c: char) { c == '*' || c == '!' || c == '[' }

  /** `s.replace(<rule>, <replacement>)` with the global flag, scanning from `i`. */
  function ReplaceFrom(rule: Rule, s: string, i: nat): string
    requires i <= |s|
    decreases |s| - i
  {
    if i == |s| then []
    else
      match MatchAt(rule, s, i)
      case Some((e, rep)) => rep + ReplaceFrom(rule, s, e)
      case None => [s[i]] + ReplaceFrom(rule, s, i + 1)
  }

  function ReplaceAll(rule: Rule, s: string): string {
    ReplaceFrom(rule, s, 0)
  }

  /** `transformInline`: escape first, then bold, italic, image and link. */
  function TransformInline(s: string): string {
    ReplaceAll(Link, ReplaceAll(Image, ReplaceAll(Italic, ReplaceAll(Bold, EscapeHtml(s)))))
  }

  // ---------------------------------------------------------------- tag safety

  /** The tag openings the rules write; every `<` in rendered inline text begins one. */
  const Tags: seq<string> := ["<strong>", "</strong>", "<em>", "</em>", "<img src=\"", "<a href=\"", "</a>"]

  /** Characters at which no rule starts and at which no capture group ends. */
  predicate Inert(t: string) {
    forall p :: 0 <= p < |t| ==> !IsRuleStart(t[p]) && t[p] != ']' && t[p] != ')'
  }

  predicate StartsTag(t: string) {
    exists tag :: tag in Tags && StartsWith(t, tag)
  }

  /** Every `<` from position `i` on begins one of the rule-written tags. */
  predicate TagsFrom(s: string, i: nat) {
    forall k :: i <= k < |s| && s[k] == '<' ==> StartsTag(s[k..])
  }

  predicate TagsOk(s: string) { TagsFrom(s, 0) }

  /** `<` only at the head. */
  predicate OpensOnce(t: string) {
    |t| > 0 && t[0] == '<' && forall p :: 1 <= p < |t| ==> t[p] != '<'
  }

  lemma OneTag(tag: string)
    requires tag in Tags
    ensures Inert(tag) && TagsOk(tag)
  {
    var i :| 0 <= i < |Tags| && Tags[i] == tag;
    TagShape(i);
    assert StartsWith(tag[0..], tag);
  }

  /** Each rule-written tag has its `<` at the head and no rule or capture character. */
  lemma TagShape(i: nat)
    requires i < |Tags|
    ensures Inert(Tags[i]) && OpensOnce(Tags[i])
  {
    var t := Tags[i];
    forall p | 0 <= p < |t|
      ensures !IsRuleStart(t[p]) && t[p] != ']' && t[p] != ')' && (p > 0 ==> t[p] != '<')
    {
      TagChar(i, p);
    }
  }

  lemma TagChar(i: nat, p: nat)
    requires i < |Tags| && p < |Tags[i]|
    ensures var c := Tags[i][p]; !IsRuleStart(c) && c != ']' && c != ')' && (p > 0 ==> c != '<') && (p == 0 ==> c == '<')
  {
  }

  lemma TagsAreInert()
    ensures forall tag :: tag in Tags ==> Inert(tag) && TagsOk(tag)
  {
    forall tag | tag in Tags ensures Inert(tag) && TagsOk(tag) {
      OneTag(tag);
    }
  }

  lemma NoOpenTagsOk(t: string)
    requires forall p :: 0 <= p < |t| ==> t[p] != '<'
    ensures TagsOk(t)
  {
  }

  lemma TagsAppend(x: string, y: string)
    requires TagsOk(x) && TagsOk(y)
    ensures TagsOk(x + y)
  {
    forall k | 0 <= k < |x + y| && (x + y)[k] == '<' ensures StartsTag((x + y)[k..]) {
      if k < |x| {
        var tag :| tag in Tags && StartsWith(x[k..], tag);
        assert (x + y)[k..][..|tag|] == x[k..][..|tag|];
      } else {
        assert (x + y)[k..] == y[k - |x|..];
      }
    }
  }

  /** A slice ending at a character no tag contains keeps every tag it starts whole. */
  lemma SliceTags(s: string, a: nat, b: nat)
    requires a <= b <= |s| && TagsFrom(s, a)
    requires b == |s| || s[b] == '*' || s[b] == ']' || s[b] == ')'
    ensures TagsOk(s[a..b])
  {
    TagsAreInert();
    forall k | 0 <= k < b - a && s[a..b][k] == '<' ensures StartsTag(s[a..b][k..]) {
      var tag :| tag in Tags && StartsWith(s[a + k..], tag);
      assert forall p :: a + k <= p < a + k + |tag| ==> s[p] == tag[p - a - k] by {
        assert s[a + k..][..|tag|] == tag;
      }
      assert a + k + |tag| <= b;
      assert s[a..b][k..][..|tag|] == s[a + k..][..|tag|];
    }
  }

  /** A rule never starts inside inert text, so a pass copies it unchanged. */
  lemma {:induction false} CopiesInert(rule: Rule, s: string, i: nat, u: string)
    requires i <= |s| && StartsWith(s[i..], u) && Inert(u)
    ensures StartsWith(ReplaceFrom(rule, s, i), u)
    decreases |u|
  {
    if u != [] {
      assert s[i] == u[0];
      assert s[i + 1..][..|u| - 1] == u[1..];
      CopiesInert(rule, s, i + 1, u[1..]);
      var r := ReplaceFrom(rule, s, i + 1);
      assert ReplaceFrom(rule, s, i) == [s[i]] + r;
      assert ([s[i]] + r)[..|u|] == [u[0]] + r[..|u| - 1];
    }
  }

  /** A captured text between two rule-written tags keeps the tag property. */
  lemma WrapTags(open: string, mid: string, close: string)
    requires open in Tags && close in Tags && TagsOk(mid)
    ensures TagsOk(open + mid + close)
  {
    OneTag(open);
    OneTag(close);
    TagsAppend(open, mid);
    TagsAppend(open + mid, close);
  }

  lemma BoldTags(s: string, i: nat)
    requires i < |s| && TagsFrom(s, i) && BoldAt(s, i).Some?
    ensures TagsOk(BoldAt(s, i).value.1)
  {
    var c := CloserFrom(s, i + 3, "**").value;
    var mid := s[i + 2..c];
    assert TagsOk(mid) by {
      assert s[c..][..2] == "**";
      assert s[c] == '*';
      SliceTags(s, i + 2, c);
    }
    assert "<strong>" == Tags[0] && "</strong>" == Tags[1];
    WrapTags("<strong>", mid, "</strong>");
    assert BoldAt(s, i).value.1 == "<strong>" + mid + "</strong>";
  }

  lemma ItalicTags(s: string, i: nat)
    requires i < |s| && TagsFrom(s, i) && ItalicAt(s, i).Some?
    ensures TagsOk(ItalicAt(s, i).value.1)
  {
    var c := CloserFrom(s, i + 2, "*").value;
    var mid := s[i + 1..c];
    assert TagsOk(mid) by {
      assert s[c..][..1] == "*";
      assert s[c] == '*';
      SliceTags(s, i + 1, c);
    }
    assert "<em>" == Tags[2] && "</em>" == Tags[3];
    WrapTags("<em>", mid, "</em>");
    assert ItalicAt(s, i).value.1 == "<em>" + mid + "</em>";
  }

  /** `open + url + middle + text + close` keeps tags when each piece does. */
  lemma FiveTags(open: string, url: string, middle: string, text: string, close: string)
    requires TagsOk(open) && TagsOk(url) && TagsOk(middle) && TagsOk(text) && TagsOk(close)
    ensures TagsOk(open + url + middle + text + close)
  {
    TagsAppend(open, url);
    TagsAppend(open + url, middle);
    TagsAppend(open + url + middle, text);
    TagsAppend(open + url + middle + text, close);
  }

  lemma ImageTags(s: string, i: nat)
    requires i < |s| && TagsFrom(s, i) && ImageAt(s, i).Some?
    ensures TagsOk(ImageAt(s, i).value.1)
  {
    var found := LinkFrom(s, i + 2);
    var a := found.value.0;
    var m := found.value.1;
    var url, alt := s[a + 2..m], s[i + 2..a];
    assert ImageAt(s, i).value.1 == ImageHtml(url, alt);
    LinkSlices(s, i + 2, a, m);
    ImageHtmlTags(url, alt);
  }

  lemma ImageHtmlTags(url: string, alt: string)
    requires TagsOk(url) && TagsOk(alt)
    ensures TagsOk(ImageHtml(url, alt))
  {
    OneTag(Tags[4]);
    NoOpenTagsOk("\" alt=\"");
    NoOpenTagsOk("\" />");
    FiveTags("<img src=\"", url, "\" alt=\"", alt, "\" />");
  }

  lemma LinkTags(s: string, i: nat)
    requires i < |s| && TagsFrom(s, i) && LinkAt(s, i).Some?
    ensures TagsOk(LinkAt(s, i).value.1)
  {
    var found := LinkFrom(s, i + 1);
    var a := found.value.0;
    var m := found.value.1;
    var url, text := s[a + 2..m], s[i + 1..a];
    assert LinkAt(s, i).value.1 == LinkHtml(url, text);
    LinkSlices(s, i + 1, a, m);
    LinkHtmlTags(url, text);
  }

  /** The two captures of a link or image match keep their tags whole. */
  lemma LinkSlices(s: string, j: nat, a: nat, m: nat)
    requires j <= |s| && TagsFrom(s, j) && LinkFrom(s, j) == Some((a, m))
    ensures a + 2 <= m <= |s| && TagsOk(s[a + 2..m]) && TagsOk(s[j..a])
  {
    assert LinkTailAt(s, a) == Some(m);
    assert StartsWith(s[a..], "](");
    assert s[a] == s[a..][..2][0] == ']';
    SliceTags(s, a + 2, m);
    SliceTags(s, j, a);
  }

  lemma LinkHtmlTags(url: string, text: string)
    requires TagsOk(url) && TagsOk(text)
    ensures TagsOk(LinkHtml(url, text))
  {
    OneTag(Tags[5]);
    OneTag(Tags[6]);
    NoOpenTagsOk("\">");
    FiveTags("<a href=\"", url, "\">", text, "</a>");
  }

  /** The replacement text of a match keeps the tag property of the text it captured. */
  lemma ReplacementTags(rule: Rule, s: string, i: nat)
    requires i < |s| && TagsFrom(s, i) && MatchAt(rule, s, i).Some?
    ensures TagsOk(MatchAt(rule, s, i).value.1)
  {
    match rule
    case Bold => BoldTags(s, i);
    case Italic => ItalicTags(s, i);
    case Image => ImageTags(s, i);
    case Link => LinkTags(s, i);
  }

  /** A pass keeps every `<` at the head of a rule-written tag. */
  lemma {:induction false} ReplaceKeepsTags(rule: Rule, s: string, i: nat)
    requires i <= |s| && TagsFrom(s, i)
    ensures TagsOk(ReplaceFrom(rule, s, i))
    decreases |s| - i
  {
    if i < |s| {
      match MatchAt(rule, s, i)
      case Some((e, rep)) =>
        ReplacementTags(rule, s, i);
        ReplaceKeepsTags(rule, s, e);
        TagsAppend(rep, ReplaceFrom(rule, s, e));
      case None =>
        ReplaceKeepsTags(rule, s, i + 1);
        CopyKeepsTags(rule, s, i);
    }
  }

  /** Copying one unmatched character keeps the tag property of the rest of the pass. */
  lemma CopyKeepsTags(rule: Rule, s: string, i: nat)
    requires i < |s| && TagsFrom(s, i) && MatchAt(rule, s, i).None?
    requires TagsOk(ReplaceFrom(rule, s, i + 1))
    ensures TagsOk(ReplaceFrom(rule, s, i))
  {
    var r := ReplaceFrom(rule, s, i + 1);
    assert ReplaceFrom(rule, s, i) == [s[i]] + r;
    if s[i] == '<' {
      CopiedTagHead(rule, s, i);
    }
    assert forall k :: 1 <= k < |[s[i]] + r| ==> ([s[i]] + r)[k..] == r[k - 1..];
  }

  /** A tag in the input is copied whole, so the copied `<` still starts it. */
  lemma CopiedTagHead(rule: Rule, s: string, i: nat)
    requires i < |s| && TagsFrom(s, i) && s[i] == '<'
    ensures StartsTag([s[i]] + ReplaceFrom(rule, s, i + 1))
  {
    var r := ReplaceFrom(rule, s, i + 1);
    var tag :| tag in Tags && StartsWith(s[i..], tag);
    OneTag(tag);
    assert s[i + 1..][..|tag| - 1] == tag[1..];
    CopiesInert(rule, s, i + 1, tag[1..]);
    assert ([s[i]] + r)[..|tag|] == [tag[0]] + r[..|tag| - 1];
  }


  /** Every `<` in the output of `transformInline` begins a tag one of the rules wrote:
      markup in the input text is escaped before any rule runs. */
  lemma TransformInlineTagsOk(s: string)
    ensures TagsOk(TransformInline(s))
  {
    var e := EscapeHtml(s);
    ReplaceKeepsTags(Bold, e, 0);
    var b := ReplaceAll(Bold, e);
    ReplaceKeepsTags(Italic, b, 0);
    var it := ReplaceAll(Italic, b);
    ReplaceKeepsTags(Image, it, 0);
    ReplaceKeepsTags(Link, ReplaceAll(Image, it), 0);
  }

  /** Image and link output only ever carries an `http:` or `https:` URL without `)` or
      white space. */
  lemma LinkUrlIsHttp(s: string, j: nat)
    requires j <= |s| && LinkFrom(s, j).Some?
    ensures IsHttpUrl(s[LinkFrom(s, j).value.0 + 2..LinkFrom(s, j).value.1])
  {
  }

  /** A pass leaves text in which no rule can start unchanged. */
  lemma {:induction false} ReplaceIdentity(rule: Rule, s: string, i: nat)
    requires i <= |s| && forall p :: i <= p < |s| ==> !IsRuleStart(s[p])
    ensures ReplaceFrom(rule, s, i) == s[i..]
    decreases |s| - i
  {
    if i < |s| {
      ReplaceIdentity(rule, s, i + 1);
      assert s[i..] == [s[i]] + s[i + 1..];
    }
  }

  lemma {:induction false} EscapeKeepsPlain(s: string)
    requires forall p :: 0 <= p < |s| ==> !IsRuleStart(s[p])
    ensures forall p :: 0 <= p < |EscapeHtml(s)| ==> !IsRuleStart(EscapeHtml(s)[p])
  {
    if s != [] {
      EscapeKeepsPlain(s[1..]);
      var e := EscapeChar(s[0]);
      assert forall p :: 0 <= p < |e| ==> !IsRuleStart(e[p]);
      var t := EscapeHtml(s[1..]);
      forall p | 0 <= p < |e + t| ensures !IsRuleStart((e + t)[p]) {
        if p >= |e| { assert (e + t)[p] == t[p - |e|]; }
      }
    }
  }

  /** Text without `*`, `!` or `[` is only escaped. */
  lemma PlainTextIsEscaped(s: string)
    requires forall p :: 0 <= p < |s| ==> !IsRuleStart(s[p])
    ensures TransformInline(s) == EscapeHtml(s)
  {
    var e := EscapeHtml(s);
    EscapeKeepsPlain(s);
    ReplaceIdentity(Bold, e, 0);
    ReplaceIdentity(Italic, e, 0);
    ReplaceIdentity(Image, e, 0);
    ReplaceIdentity(Link, e, 0);
  }

  // ---------------------------------------------------------------- lines

  /** `md.replace(/\r\n?/g, '\n')` */
  function NormalizeNewlines(s: string): (r: string)
    ensures forall p :: 0 <= p < |r| ==> r[p] != '\r'
    ensures (forall p :: 0 <= p < |s| ==> s[p] != '\r') ==> r == s
    decreases |s|
  {
    if s == [] then []
    else if s[0] == '\r' then "\n" + NormalizeNewlines(if |s| > 1 && s[1] == '\n' then s[2..] else s[1..])
    else [s[0]] + NormalizeNewlines(s[1..])
  }

  /** `s.split('\n')` */
  function SplitLines(s: string): (r: seq<string>)
    ensures |r| >= 1
    ensures forall k :: 0 <= k < |r| ==> '\n' !in r[k]
  {
    if s == [] then [[]]
    else
      var rest := SplitLines(s[1..]);
      if s[0] == '\n' then [[]] + rest
      else [[s[0]] + rest[0]] + rest[1..]
  }

  lemma {:induction false} JoinCons(x: string, rest: seq<string>, sep: string)
    requires |rest| >= 1
    ensures Join([x] + rest, sep) == x + sep + Join(rest, sep)
    decreases |rest|
  {
    if |rest| > 1 {
      var front := rest[..|rest| - 1];
      JoinCons(x, front, sep);
      assert ([x] + rest)[..|rest|] == [x] + front;
    }
  }

  /** Splitting loses nothing: joining the lines with `\n` gives the text back. */
  lemma {:induction false} JoinSplitLines(s: string)
    ensures Join(SplitLines(s), "\n") == s
    decreases |s|
  {
    if s != [] {
      JoinSplitLines(s[1..]);
      if s[0] == '\n' {
        JoinSplitBreak(s);
      } else {
        JoinSplitChar(s);
      }
    }
  }

  lemma JoinSplitBreak(s: string)
    requires s != [] && s[0] == '\n' && Join(SplitLines(s[1..]), "\n") == s[1..]
    ensures Join(SplitLines(s), "\n") == s
  {
    var rest := SplitLines(s[1..]);
    assert SplitLines(s) == [[]] + rest;
    JoinCons([], rest, "\n");
    assert s == [s[0]] + s[1..];
  }

  lemma JoinSplitChar(s: string)
    requires s != [] && s[0] != '\n' && Join(SplitLines(s[1..]), "\n") == s[1..]
    ensures Join(SplitLines(s), "\n") == s
  {
    var rest := SplitLines(s[1..]);
    assert SplitLines(s) == [[s[0]] + rest[0]] + rest[1..];
    JoinHeadChar(s[0], rest, "\n");
    assert s == [s[0]] + s[1..];
  }

  lemma JoinHeadChar(c: char, rest: seq<string>, sep: string)
    requires |rest| >= 1
    ensures Join([[c] + rest[0]] + rest[1..], sep) == [c] + Join(rest, sep)
  {
    if |rest| > 1 {
      JoinCons([c] + rest[0], rest[1..], sep);
      JoinCons(rest[0], rest[1..], sep);
      assert rest == [rest[0]] + rest[1..];
    } else {
      assert [[c] + rest[0]] + rest[1..] == [[c] + rest[0]];
    }
  }

  /** The end of the longest run of `\s` characters from `k`. */
  function SpaceRunEnd(s: string, k: nat): (m: nat)
    requires k <= |s|
    ensures k <= m <= |s|
    ensures m == |s| || !IsSpace(s[m])
    decreases |s| - k
  {
    if k < |s| && IsSpace(s[k]) then SpaceRunEnd(s, k + 1) else k
  }

  /** The end of the longest run of decimal digits from `k`. */
  function DigitRunEnd(s: string, k: nat): (m: nat)
    requires k <= |s|
    ensures k <= m <= |s|
    ensures forall p :: k <= p < m ==> IsDigit(s[p])
    ensures m == |s| || !IsDigit(s[m])
    decreases |s| - k
  {
    if k < |s| && IsDigit(s[k]) then DigitRunEnd(s, k + 1) else k
  }

  /** `marker` followed by `\s+` at the start of `line`: the length of the match. */
  function MarkerPrefix(line: string, marker: string): (r: Option<nat>)
    ensures r.Some? ==> |marker| < r.value <= |line| && StartsWith(line, marker)
  {
    if StartsWith(line, marker) && |marker| < |line| && IsSpace(line[|marker|]) then
      Some(SpaceRunEnd(line, |marker|))
    else None
  }

  /** `^##\s+` */
  function H2Prefix(line: string): (r: Option<nat>)
    ensures r.Some? ==> 2 < r.value <= |line|
  {
    MarkerPrefix(line, "##")
  }

  /** `^#\s+` */
  function H1Prefix(line: string): (r: Option<nat>)
    ensures r.Some? ==> 1 < r.value <= |line|
  {
    MarkerPrefix(line, "#")
  }

  datatype ListKind = Ordered | Bullet

  /** `^\d+\.\s+` for an ordered item, `^-\s+` for a bullet item. */
  function ItemPrefix(kind: ListKind, line: string): (r: Option<nat>)
    ensures r.Some? ==> 1 < r.value <= |line|
  {
    match kind
    case Bullet => MarkerPrefix(line, "-")
    case Ordered =>
      var d := DigitRunEnd(line, 0);
      if d > 0 && d + 1 < |line| && line[d] == '.' && IsSpace(line[d + 1]) then Some(SpaceRunEnd(line, d + 1))
      else None
  }

  /** `line.replace(<prefix>, '')`: the line without the matched prefix. */
  function StripPrefix(p: Option<nat>, line: string): string
    requires p.Some? ==> p.value <= |line|
  {
    if p.Some? then line[p.value..] else line
  }

  /** `line.trim().length === 0`; see `BlankIffTrimEmpty`. */
  predicate IsBlank(line: string) { AllSpace(line) }

  lemma BlankIffTrimEmpty(line: string)
    ensures IsBlank(line) <==> |Trim(line)| == 0
  {
    TrimEmptyIffAllSpace(line);
  }

  // ---------------------------------------------------------------- blocks

  /** One emitted element, holding the source lines it came from. */
  datatype Block = Heading2(line: string) | Heading1(line: string) | List(kind: ListKind, items: seq<string>) | Paragraph(line: string)

  /** The number of consecutive items of `kind` at the head of `ls`. */
  function RunLength(kind: ListKind, ls: seq<string>): (n: nat)
    ensures n <= |ls|
  {
    if ls != [] && ItemPrefix(kind, ls[0]).Some? then 1 + RunLength(kind, ls[1..]) else 0
  }

  /** The run is made of items and stops at the first non-item line. */
  lemma {:induction false} RunLengthItems(kind: ListKind, ls: seq<string>)
    ensures forall p :: 0 <= p < RunLength(kind, ls) ==> ItemPrefix(kind, ls[p]).Some?
    ensures RunLength(kind, ls) == |ls| || ItemPrefix(kind, ls[RunLength(kind, ls)]).None?
  {
    if ls != [] && ItemPrefix(kind, ls[0]).Some? {
      RunLengthItems(kind, ls[1..]);
      forall p | 1 <= p < RunLength(kind, ls)
        ensures ItemPrefix(kind, ls[p]).Some?
      {
        assert ls[p] == ls[1..][p - 1];
      }
      if RunLength(kind, ls) < |ls| {
        assert ls[RunLength(kind, ls)] == ls[1..][RunLength(kind, ls[1..])];
      }
    }
  }

  lemma {:induction false} RunAtLeast(kind: ListKind, ls: seq<string>, m: nat)
    requires m < |ls| && RunLength(kind, ls) >= m && ItemPrefix(kind, ls[m]).Some?
    ensures RunLength(kind, ls) >= m + 1
  {
    if m > 0 {
      assert ls[m] == ls[1..][m - 1];
      RunAtLeast(kind, ls[1..], m - 1);
    }
  }

  lemma {:induction false} RunExactly(kind: ListKind, ls: seq<string>, m: nat)
    requires m <= |ls| && RunLength(kind, ls) >= m
    requires m == |ls| || ItemPrefix(kind, ls[m]).None?
    ensures RunLength(kind, ls) == m
  {
    if m > 0 {
      assert m < |ls| ==> ls[m] == ls[1..][m - 1];
      RunExactly(kind, ls[1..], m - 1);
    } else if ls != [] {
      assert ls[0] == ls[m];
    }
  }

  /** The block structure `renderMarkdown` recognises, tried in its order: `##`, `#`,
      ordered run, bullet run, blank, paragraph. */
  function Blocks(ls: seq<string>): seq<Block>
    decreases |ls|
  {
    if ls == [] then []
    else if H2Prefix(ls[0]).Some? then [Heading2(ls[0])] + Blocks(ls[1..])
    else if H1Prefix(ls[0]).Some? then [Heading1(ls[0])] + Blocks(ls[1..])
    else if ItemPrefix(Ordered, ls[0]).Some? then
      var n := RunLength(Ordered, ls);
      [List(Ordered, ls[..n])] + Blocks(ls[n..])
    else if ItemPrefix(Bullet, ls[0]).Some? then
      var n := RunLength(Bullet, ls);
      [List(Bullet, ls[..n])] + Blocks(ls[n..])
    else if IsBlank(ls[0]) then Blocks(ls[1..])
    else [Paragraph(ls[0])] + Blocks(ls[1..])
  }

  /** One `<li>`, with the inline renderer `inline` applied to the item text. */
  function ItemHtml(inline: string -> string, kind: ListKind, line: string): string {
    "<li>" + inline(StripPrefix(ItemPrefix(kind, line), line)) + "</li>"
  }

  /** The `items` array of one list, in line order. */
  function ItemsHtml(inline: string -> string, kind: ListKind, ls: seq<string>): seq<string> {
    seq(|ls|, k requires 0 <= k < |ls| => ItemHtml(inline, kind, ls[k]))
  }

  function BlockHtml(inline: string -> string, b: Block): string {
    match b
    case Heading2(line) => "<h2>" + inline(StripPrefix(H2Prefix(line), line)) + "</h2>"
    case Heading1(line) => "<h1>" + inline(StripPrefix(H1Prefix(line), line)) + "</h1>"
    case List(Ordered, items) => "<ol>" + Concat(ItemsHtml(inline, Ordered, items)) + "</ol>"
    case List(Bullet, items) => "<ul>" + Concat(ItemsHtml(inline, Bullet, items)) + "</ul>"
    case Paragraph(line) => "<p>" + inline(line) + "</p>"
  }

  /** The `out` array for a block sequence. */
  function BlocksHtml(inline: string -> string, bs: seq<Block>): seq<string> {
    if bs == [] then [] else [BlockHtml(inline, bs[0])] + BlocksHtml(inline, bs[1..])
  }

  function Lines(md: string): seq<string> {
    SplitLines(NormalizeNewlines(md))
  }

  /** What `renderMarkdown` returns: the `out` array joined with `''`. */
  function Render(md: string): string {
    Concat(BlocksHtml(TransformInline, Blocks(Lines(md))))
  }

  // ---------------------------------------------------------------- the scanner

  /** The run from `i` reaches past `j` when line `j` is an item too. */
  lemma RunLengthStep(kind: ListKind, ls: seq<string>, i: nat, j: nat)
    requires i <= j < |ls| && RunLength(kind, ls[i..]) >= j - i && ItemPrefix(kind, ls[j]).Some?
    ensures RunLength(kind, ls[i..]) >= j + 1 - i
  {
    assert ls[i..][j - i] == ls[j];
    RunAtLeast(kind, ls[i..], j - i);
  }

  /** The run from `i` ends at the first line `j` that is not an item. */
  lemma RunLengthEnd(kind: ListKind, ls: seq<string>, i: nat, j: nat)
    requires i <= j <= |ls| && RunLength(kind, ls[i..]) >= j - i
    requires j == |ls| || ItemPrefix(kind, ls[j]).None?
    ensures RunLength(kind, ls[i..]) == j - i
  {
    if j < |ls| {
      assert ls[i..][j - i] == ls[j];
    }
    RunExactly(kind, ls[i..], j - i);
  }

  lemma ItemsHtmlSnoc(inline: string -> string, kind: ListKind, ps: seq<string>, x: string)
    ensures ItemsHtml(inline, kind, ps + [x]) == ItemsHtml(inline, kind, ps) + [ItemHtml(inline, kind, x)]
  {
    assert (ps + [x])[..|ps|] == ps;
  }

  /** One turn of the item loop: the run reaches past `j` and the items grow by line `j`'s. */
  lemma CollectStep(inline: string -> string, kind: ListKind, lines: seq<string>, i: nat, j: nat)
    requires i <= j < |lines| && RunLength(kind, lines[i..]) >= j - i && ItemPrefix(kind, lines[j]).Some?
    ensures RunLength(kind, lines[i..]) >= j + 1 - i
    ensures ItemsHtml(inline, kind, lines[i..j + 1]) == ItemsHtml(inline, kind, lines[i..j]) + [ItemHtml(inline, kind, lines[j])]
  {
    RunLengthStep(kind, lines, i, j);
    assert lines[i..j + 1] == lines[i..j] + [lines[j]];
    ItemsHtmlSnoc(inline, kind, lines[i..j], lines[j]);
  }

  /** One inner `while` of `renderMarkdown`: the `<li>` items of the run of `kind` lines
      starting at `i`, and the index just past the run. */
  method CollectItems(inline: string -> string, kind: ListKind, lines: seq<string>, i: nat)
    returns (items: seq<string>, j: nat)
    requires i <= |lines|
    ensures j == i + RunLength(kind, lines[i..]) && j <= |lines|
    ensures items == ItemsHtml(inline, kind, lines[i..j])
  {
    items := [];
    j := i;
    while j < |lines| && ItemPrefix(kind, lines[j]).Some?
      invariant i <= j <= |lines|
      invariant RunLength(kind, lines[i..]) >= j - i
      invariant items == ItemsHtml(inline, kind, lines[i..j])
      decreases |lines| - j
    {
      CollectStep(inline, kind, lines, i, j);
      items := items + [ItemHtml(inline, kind, lines[j])];
      j := j + 1;
    }
    RunLengthEnd(kind, lines, i, j);
  }

  /** The first block of `lines[i..]` and its html, one lemma per branch of the scan. */
  lemma ScanHeading2(inline: string -> string, lines: seq<string>, i: nat)
    requires i < |lines| && H2Prefix(lines[i]).Some?
    ensures BlocksHtml(inline, Blocks(lines[i..])) ==
            ["<h2>" + inline(StripPrefix(H2Prefix(lines[i]), lines[i])) + "</h2>"] + BlocksHtml(inline, Blocks(lines[i + 1..]))
  {
    assert lines[i..][0] == lines[i] && lines[i..][1..] == lines[i + 1..];
  }

  lemma ScanHeading1(inline: string -> string, lines: seq<string>, i: nat)
    requires i < |lines| && H2Prefix(lines[i]).None? && H1Prefix(lines[i]).Some?
    ensures BlocksHtml(inline, Blocks(lines[i..])) ==
            ["<h1>" + inline(StripPrefix(H1Prefix(lines[i]), lines[i])) + "</h1>"] + BlocksHtml(inline, Blocks(lines[i + 1..]))
  {
    assert lines[i..][0] == lines[i] && lines[i..][1..] == lines[i + 1..];
  }

  lemma ScanList(inline: string -> string, kind: ListKind, lines: seq<string>, i: nat, j: nat)
    requires i < j <= |lines| && j == i + RunLength(kind, lines[i..])
    requires H2Prefix(lines[i]).None? && H1Prefix(lines[i]).None?
    requires ItemPrefix(kind, lines[i]).Some?
    requires kind == Bullet ==> ItemPrefix(Ordered, lines[i]).None?
    ensures BlocksHtml(inline, Blocks(lines[i..])) ==
            [BlockHtml(inline, List(kind, lines[i..j]))] + BlocksHtml(inline, Blocks(lines[j..]))
  {
    assert lines[i..][0] == lines[i];
    assert lines[i..][..j - i] == lines[i..j] && lines[i..][j - i..] == lines[j..];
  }

  lemma ScanBlank(inline: string -> string, lines: seq<string>, i: nat)
    requires i < |lines| && H2Prefix(lines[i]).None? && H1Prefix(lines[i]).None?
    requires ItemPrefix(Ordered, lines[i]).None? && ItemPrefix(Bullet, lines[i]).None?
    requires IsBlank(lines[i])
    ensures BlocksHtml(inline, Blocks(lines[i..])) == BlocksHtml(inline, Blocks(lines[i + 1..]))
  {
    assert lines[i..][0] == lines[i] && lines[i..][1..] == lines[i + 1..];
  }

  lemma ScanParagraph(inline: string -> string, lines: seq<string>, i: nat)
    requires i < |lines| && H2Prefix(lines[i]).None? && H1Prefix(lines[i]).None?
    requires ItemPrefix(Ordered, lines[i]).None? && ItemPrefix(Bullet, lines[i]).None?
    requires !IsBlank(lines[i])
    ensures BlocksHtml(inline, Blocks(lines[i..])) ==
            ["<p>" + inline(lines[i]) + "</p>"] + BlocksHtml(inline, Blocks(lines[i + 1..]))
  {
    assert lines[i..][0] == lines[i] && lines[i..][1..] == lines[i + 1..];
  }

  /** One turn of the `renderMarkdown` loop at line `i`: the strings it pushes onto `out`
      (none for a whitespace-only line) and the next line index. */
  method ScanBlock(inline: string -> string, lines: seq<string>, i: nat) returns (pushed: seq<string>, k: nat)
    requires i < |lines|
    ensures i < k <= |lines|
    ensures BlocksHtml(inline, Blocks(lines[i..])) == pushed + BlocksHtml(inline, Blocks(lines[k..]))
  {
    var line := lines[i];
    if H2Prefix(line).Some? {
      ScanHeading2(inline, lines, i);
      pushed, k := ["<h2>" + inline(StripPrefix(H2Prefix(line), line)) + "</h2>"], i + 1;
    } else if H1Prefix(line).Some? {
      ScanHeading1(inline, lines, i);
      pushed, k := ["<h1>" + inline(StripPrefix(H1Prefix(line), line)) + "</h1>"], i + 1;
    } else if ItemPrefix(Ordered, line).Some? {
      var items, j := CollectItems(inline, Ordered, lines, i);
      ScanList(inline, Ordered, lines, i, j);
      pushed, k := ["<ol>" + Concat(items) + "</ol>"], j;
    } else if ItemPrefix(Bullet, line).Some? {
      var items, j := CollectItems(inline, Bullet, lines, i);
      ScanList(inline, Bullet, lines, i, j);
      pushed, k := ["<ul>" + Concat(items) + "</ul>"], j;
    } else if |Trim(line)| == 0 {
      BlankIffTrimEmpty(line);
      ScanBlank(inline, lines, i);
      pushed, k := [], i + 1;
    } else {
      BlankIffTrimEmpty(line);
      ScanParagraph(inline, lines, i);
      pushed, k := ["<p>" + inline(line) + "</p>"], i + 1;
    }
  }

  /** The loop of `renderMarkdown` over the split lines, with `inline` standing for
      `transformInline`; `out` is joined at the end. */
  method RenderLines(inline: string -> string, lines: seq<string>) returns (html: string)
    ensures html == Concat(BlocksHtml(inline, Blocks(lines)))
  {
    var out: seq<string> := [];
    var i := 0;
    while i < |lines|
      invariant 0 <= i <= |lines|
      invariant out + BlocksHtml(inline, Blocks(lines[i..])) == BlocksHtml(inline, Blocks(lines))
      decreases |lines| - i
    {
      var pushed, k := ScanBlock(inline, lines, i);
      out := out + pushed;
      i := k;
    }
    assert Blocks(lines[i..]) == [] by { assert lines[i..] == []; }
    assert out == BlocksHtml(inline, Blocks(lines));
    html := Concat(out);
  }

  /** `renderMarkdown`: normalise line breaks, split into lines, scan. */
  method RenderMarkdown(md: string) returns (html: string)
    ensures html == Render(md)
  {
    var lines := SplitLines(NormalizeNewlines(md));
    html := RenderLines(TransformInline, lines);
  }

  // ---------------------------------------------------------------- properties of the scan

  /** What the lines of each block satisfy, given the order in which the scan tries the
      patterns. */
  predicate Classified(b: Block) {
    match b
    case Heading2(line) => H2Prefix(line).Some?
    case Heading1(line) => H2Prefix(line).None? && H1Prefix(line).Some?
    case List(kind, items) =>
      items != [] && H2Prefix(items[0]).None? && H1Prefix(items[0]).None? &&
      (kind == Bullet ==> ItemPrefix(Ordered, items[0]).None?) &&
      forall x :: x in items ==> ItemPrefix(kind, x).Some?
    case Paragraph(line) =>
      H2Prefix(line).None? && H1Prefix(line).None? && ItemPrefix(Ordered, line).None? &&
      ItemPrefix(Bullet, line).None? && !IsBlank(line)
  }

  /** Each block holds lines of the pattern that chose it, tried in the scan's order: a
      `##` line is never an `<h1>`, a list is a non-empty run of its own kind of item,
      and a paragraph is a non-blank line no other pattern takes. */
  lemma {:induction false} BlocksClassified(ls: seq<string>)
    ensures forall b :: b in Blocks(ls) ==> Classified(b)
    decreases |ls|
  {
    if ls != [] {
      if H2Prefix(ls[0]).Some? || H1Prefix(ls[0]).Some? ||
         (ItemPrefix(Ordered, ls[0]).None? && ItemPrefix(Bullet, ls[0]).None?) {
        BlocksClassified(ls[1..]);
      } else {
        var kind := if ItemPrefix(Ordered, ls[0]).Some? then Ordered else Bullet;
        var n := RunLength(kind, ls);
        RunLengthItems(kind, ls);
        BlocksClassified(ls[n..]);
        forall x | x in ls[..n]
          ensures ItemPrefix(kind, x).Some?
        {
          var p :| 0 <= p < n && ls[..n][p] == x;
          assert ls[p] == x;
        }
        assert ls[..n][0] == ls[0];
        assert Classified(List(kind, ls[..n]));
      }
    }
  }

  function BlockLines(b: Block): seq<string> {
    match b
    case Heading2(line) => [line]
    case Heading1(line) => [line]
    case List(_, items) => items
    case Paragraph(line) => [line]
  }

  /** The source lines the blocks came from, in order. */
  function SourceLines(bs: seq<Block>): seq<string> {
    if bs == [] then [] else BlockLines(bs[0]) + SourceLines(bs[1..])
  }

  /** The lines whose `trim()` is not empty, in order. */
  function NonBlank(ls: seq<string>): seq<string> {
    if ls == [] then [] else (if IsBlank(ls[0]) then [] else [ls[0]]) + NonBlank(ls[1..])
  }

  lemma {:induction false} NonBlankAppend(a: seq<string>, b: seq<string>)
    ensures NonBlank(a + b) == NonBlank(a) + NonBlank(b)
  {
    if a != [] {
      assert (a + b)[0] == a[0] && (a + b)[1..] == a[1..] + b;
      NonBlankAppend(a[1..], b);
    } else {
      assert a + b == b;
    }
  }

  lemma {:induction false} NonBlankKeepsAll(ls: seq<string>)
    requires forall p :: 0 <= p < |ls| ==> !IsBlank(ls[p])
    ensures NonBlank(ls) == ls
  {
    if ls != [] {
      assert forall p :: 0 <= p < |ls[1..]| ==> ls[1..][p] == ls[p + 1];
      NonBlankKeepsAll(ls[1..]);
    }
  }

  lemma MarkerHead(line: string, marker: string)
    requires |marker| > 0 && MarkerPrefix(line, marker).Some?
    ensures line[0] == marker[0]
  {
    assert line[..|marker|][0] == line[0];
  }

  /** A line that any of the patterns matches starts with `#`, `-` or a digit, so it is
      not blank. */
  lemma PrefixedNotBlank(line: string)
    requires H2Prefix(line).Some? || H1Prefix(line).Some? || ItemPrefix(Ordered, line).Some? || ItemPrefix(Bullet, line).Some?
    ensures !IsBlank(line)
  {
    if ItemPrefix(Ordered, line).Some? {
      assert IsDigit(line[0]);
    } else if H2Prefix(line).Some? {
      MarkerHead(line, "##");
    } else if H1Prefix(line).Some? {
      MarkerHead(line, "#");
    } else {
      MarkerHead(line, "-");
    }
    assert !IsSpace(line[0]);
  }

  lemma SourceLinesCons(b: Block, rest: seq<Block>)
    ensures SourceLines([b] + rest) == BlockLines(b) + SourceLines(rest)
  {
    assert ([b] + rest)[1..] == rest;
  }

  lemma KeepLinesOne(ls: seq<string>)
    requires ls != [] && (H2Prefix(ls[0]).Some? || H1Prefix(ls[0]).Some? ||
                          (ItemPrefix(Ordered, ls[0]).None? && ItemPrefix(Bullet, ls[0]).None?))
    requires SourceLines(Blocks(ls[1..])) == NonBlank(ls[1..])
    ensures SourceLines(Blocks(ls)) == NonBlank(ls)
  {
    var line := ls[0];
    if H2Prefix(line).Some? || H1Prefix(line).Some? {
      PrefixedNotBlank(line);
      var b := if H2Prefix(line).Some? then Heading2(line) else Heading1(line);
      SourceLinesCons(b, Blocks(ls[1..]));
    } else if !IsBlank(line) {
      SourceLinesCons(Paragraph(line), Blocks(ls[1..]));
    }
  }

  /** The lines of a run are all kept. */
  lemma NonBlankRun(ls: seq<string>, kind: ListKind)
    ensures NonBlank(ls) == ls[..RunLength(kind, ls)] + NonBlank(ls[RunLength(kind, ls)..])
  {
    var n := RunLength(kind, ls);
    RunLengthItems(kind, ls);
    forall p | 0 <= p < n
      ensures !IsBlank(ls[..n][p])
    {
      PrefixedNotBlank(ls[p]);
    }
    NonBlankKeepsAll(ls[..n]);
    NonBlankAppend(ls[..n], ls[n..]);
    assert ls[..n] + ls[n..] == ls;
  }

  lemma KeepLinesRun(ls: seq<string>, kind: ListKind)
    requires ls != [] && H2Prefix(ls[0]).None? && H1Prefix(ls[0]).None? && ItemPrefix(kind, ls[0]).Some?
    requires kind == Bullet ==> ItemPrefix(Ordered, ls[0]).None?
    requires SourceLines(Blocks(ls[RunLength(kind, ls)..])) == NonBlank(ls[RunLength(kind, ls)..])
    ensures SourceLines(Blocks(ls)) == NonBlank(ls)
  {
    var n := RunLength(kind, ls);
    assert Blocks(ls) == [List(kind, ls[..n])] + Blocks(ls[n..]);
    SourceLinesCons(List(kind, ls[..n]), Blocks(ls[n..]));
    NonBlankRun(ls, kind);
  }

  /** Every non-blank line ends up in exactly one block, in the original order, and
      every blank line is dropped. */
  lemma {:induction false} BlocksKeepLines(ls: seq<string>)
    ensures SourceLines(Blocks(ls)) == NonBlank(ls)
    decreases |ls|
  {
    if ls != [] {
      var line := ls[0];
      if H2Prefix(line).Some? || H1Prefix(line).Some? ||
         (ItemPrefix(Ordered, line).None? && ItemPrefix(Bullet, line).None?) {
        BlocksKeepLines(ls[1..]);
        KeepLinesOne(ls);
      } else {
        var kind := if ItemPrefix(Ordered, line).Some? then Ordered else Bullet;
        BlocksKeepLines(ls[RunLength(kind, ls)..]);
        KeepLinesRun(ls, kind);
      }
    }
  }

  // ---------------------------------------------------------------- markup safety

  const BlockTags: seq<string> := ["<h1>", "</h1>", "<h2>", "</h2>", "<ol>", "</ol>", "<ul>", "</ul>", "<li>", "</li>", "<p>", "</p>"]

  const AllTags: seq<string> := Tags + BlockTags

  predicate StartsMarkup(t: string) {
    exists tag :: tag in AllTags && StartsWith(t, tag)
  }

  /** Every `<` begins a tag the renderer writes. */
  predicate MarkupOk(s: string) {
    forall k :: 0 <= k < |s| && s[k] == '<' ==> StartsMarkup(s[k..])
  }

  lemma InlineMarkupOk(s: string)
    requires TagsOk(s)
    ensures MarkupOk(s)
  {
    forall k | 0 <= k < |s| && s[k] == '<' ensures StartsMarkup(s[k..]) {
      var tag :| tag in Tags && StartsWith(s[k..], tag);
      assert tag in AllTags;
    }
  }

  lemma MarkupAppend(x: string, y: string)
    requires MarkupOk(x) && MarkupOk(y)
    ensures MarkupOk(x + y)
  {
    forall k | 0 <= k < |x + y| && (x + y)[k] == '<' ensures StartsMarkup((x + y)[k..]) {
      if k < |x| {
        var tag :| tag in AllTags && StartsWith(x[k..], tag);
        assert (x + y)[k..] == x[k..] + y;
        assert (x + y)[k..][..|tag|] == x[k..][..|tag|];
      } else {
        assert (x + y)[k..] == y[k - |x|..];
        assert y[k - |x|] == '<';
      }
    }
  }

  /** `open + body + close` for one of the block tag pairs. */
  lemma WrapMarkup(open: string, body: string, close: string)
    requires open in BlockTags && close in BlockTags && OpensOnce(open) && OpensOnce(close)
    requires MarkupOk(body)
    ensures MarkupOk(open + body + close)
  {
    assert open in AllTags && close in AllTags;
    assert open[0..] == open && StartsWith(open, open);
    assert close[0..] == close && StartsWith(close, close);
    assert MarkupOk(open);
    assert MarkupOk(close);
    MarkupAppend(open, body);
    MarkupAppend(open + body, close);
  }

  /** The block tag pairs, each wrapped around a safe body. */
  lemma LiWrap(body: string)
    requires MarkupOk(body)
    ensures MarkupOk("<li>" + body + "</li>")
  {
    WrapMarkup("<li>", body, "</li>");
  }

  lemma H1Wrap(body: string)
    requires MarkupOk(body)
    ensures MarkupOk("<h1>" + body + "</h1>")
  {
    WrapMarkup("<h1>", body, "</h1>");
  }

  lemma H2Wrap(body: string)
    requires MarkupOk(body)
    ensures MarkupOk("<h2>" + body + "</h2>")
  {
    WrapMarkup("<h2>", body, "</h2>");
  }

  lemma OlWrap(body: string)
    requires MarkupOk(body)
    ensures MarkupOk("<ol>" + body + "</ol>")
  {
    WrapMarkup("<ol>", body, "</ol>");
  }

  lemma UlWrap(body: string)
    requires MarkupOk(body)
    ensures MarkupOk("<ul>" + body + "</ul>")
  {
    WrapMarkup("<ul>", body, "</ul>");
  }

  lemma PWrap(body: string)
    requires MarkupOk(body)
    ensures MarkupOk("<p>" + body + "</p>")
  {
    WrapMarkup("<p>", body, "</p>");
  }

  lemma {:induction false} ConcatMarkup(parts: seq<string>)
    requires forall k :: 0 <= k < |parts| ==> MarkupOk(parts[k])
    ensures MarkupOk(Concat(parts))
  {
    if parts != [] {
      ConcatMarkup(parts[..|parts| - 1]);
      MarkupAppend(Concat(parts[..|parts| - 1]), parts[|parts| - 1]);
    }
  }

  lemma ItemsMarkup(kind: ListKind, ls: seq<string>)
    ensures forall k :: 0 <= k < |ItemsHtml(TransformInline, kind, ls)| ==> MarkupOk(ItemsHtml(TransformInline, kind, ls)[k])
  {
    forall k | 0 <= k < |ls| ensures MarkupOk(ItemsHtml(TransformInline, kind, ls)[k]) {
      var line := ls[k];
      var body := TransformInline(StripPrefix(ItemPrefix(kind, line), line));
      InlineBodyMarkup(StripPrefix(ItemPrefix(kind, line), line));
      LiWrap(body);
    }
  }

  lemma InlineBodyMarkup(s: string)
    ensures MarkupOk(TransformInline(s))
  {
    TransformInlineTagsOk(s);
    InlineMarkupOk(TransformInline(s));
  }

  lemma ListMarkup(kind: ListKind, items: seq<string>)
    ensures MarkupOk(Concat(ItemsHtml(TransformInline, kind, items)))
  {
    ItemsMarkup(kind, items);
    ConcatMarkup(ItemsHtml(TransformInline, kind, items));
  }

  lemma Heading2Markup(line: string)
    ensures MarkupOk(BlockHtml(TransformInline, Heading2(line)))
  {
    var body := TransformInline(StripPrefix(H2Prefix(line), line));
    InlineBodyMarkup(StripPrefix(H2Prefix(line), line));
    H2Wrap(body);
    assert BlockHtml(TransformInline, Heading2(line)) == "<h2>" + body + "</h2>";
  }

  lemma Heading1Markup(line: string)
    ensures MarkupOk(BlockHtml(TransformInline, Heading1(line)))
  {
    var body := TransformInline(StripPrefix(H1Prefix(line), line));
    InlineBodyMarkup(StripPrefix(H1Prefix(line), line));
    H1Wrap(body);
    assert BlockHtml(TransformInline, Heading1(line)) == "<h1>" + body + "</h1>";
  }

  lemma ListBlockMarkup(kind: ListKind, items: seq<string>)
    ensures MarkupOk(BlockHtml(TransformInline, List(kind, items)))
  {
    ListMarkup(kind, items);
    if kind == Ordered {
      OlWrap(Concat(ItemsHtml(TransformInline, Ordered, items)));
    } else {
      UlWrap(Concat(ItemsHtml(TransformInline, Bullet, items)));
    }
  }

  lemma ParagraphMarkup(line: string)
    ensures MarkupOk(BlockHtml(TransformInline, Paragraph(line)))
  {
    InlineBodyMarkup(line);
    PWrap(TransformInline(line));
  }

  lemma BlockMarkup(b: Block)
    ensures MarkupOk(BlockHtml(TransformInline, b))
  {
    match b
    case Heading2(line) => Heading2Markup(line);
    case Heading1(line) => Heading1Markup(line);
    case List(kind, items) => ListBlockMarkup(kind, items);
    case Paragraph(line) => ParagraphMarkup(line);
  }

  lemma {:induction false} BlocksMarkup(bs: seq<Block>)
    ensures forall k :: 0 <= k < |BlocksHtml(TransformInline, bs)| ==> MarkupOk(BlocksHtml(TransformInline, bs)[k])
  {
    if bs != [] {
      BlockMarkup(bs[0]);
      BlocksMarkup(bs[1..]);
    }
  }

  /** Whatever the markdown, every `<` in the rendered html begins a tag the renderer
      itself writes: raw markup in the input always comes out escaped. */
  lemma RenderMarkupOk(md: string)
    ensures MarkupOk(Render(md))
  {
    BlocksMarkup(Blocks(Lines(md)));
    ConcatMarkup(BlocksHtml(TransformInline, Blocks(Lines(md))));
  }
}
