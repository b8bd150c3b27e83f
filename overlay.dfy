/** public/overlay.js: the pure parts of the browser overlay that shows the
    current track in a "pill": HTML escaping of the title, the `--size`
    suffix rule and the decision whether the title scrolls (marquee). */
module Overlay {
  import opened Wrappers
  import opened JsText

  /** The characters `escapeHTML` replaces. */
  predicate IsSpecial(c: char) {
    c == '&' || c == '<' || c == '>' || c == '"'
  }

  /** The replacement the `escapeHTML` map gives one character. */
  function EscapeChar(c: char): (r: string)
    ensures !IsSpecial(c) ==> r == [c]
    ensures |r| >= 1
  {
    match c
    case '&' => "&amp;"
    case '<' => "&lt;"
    case '>' => "&gt;"
    case '"' => "&quot;"
    case _ => [c]
  }

  /** `s.replace(re, f)` for a global pattern matching single characters:
      every character is replaced by `f` of it (characters the pattern does
      not match are those `f` maps to themselves). */
  function ReplaceEach(s: string, f: char -> string): string
    decreases |s|
  {
    if s == [] then [] else f(s[0]) + ReplaceEach(s[1..], f)
  }

  /** Replacing character by character distributes over concatenation. */
  lemma {:induction false} ReplaceEachAppend(a: string, b: string, f: char -> string)
    ensures ReplaceEach(a + b, f) == ReplaceEach(a, f) + ReplaceEach(b, f)
    decreases |a|
  {
    if a == [] {
      assert a + b == b;
    } else {
      ReplaceEachAppend(a[1..], b, f);
      assert (a + b)[0] == a[0] && (a + b)[1..] == a[1..] + b;
    }
  }

  /** No markup character survives escaping. */
  predicate NoMarkup(s: string) {
    '<' !in s && '>' !in s && '"' !in s
  }

  lemma {:induction false} EscapedHasNoMarkup(s: string)
    ensures NoMarkup(ReplaceEach(s, EscapeChar))
    ensures |ReplaceEach(s, EscapeChar)| >= |s|
    decreases |s|
  {
    if s != [] {
      EscapedHasNoMarkup(s[1..]);
      assert NoMarkup(EscapeChar(s[0]));
    }
  }

  /** `escapeHTML(s)`: every `&`, `<`, `>` and `"` replaced by its entity;
      the result holds no `<`, `>` or `"` and is never shorter. */
  function EscapeHtml(s: string): (r: string)
    ensures NoMarkup(r)
    ensures |r| >= |s|
  {
    EscapedHasNoMarkup(s);
    ReplaceEach(s, EscapeChar)
  }

  /** Text without any of the four special characters passes unchanged. */
  lemma {:induction false} EscapeHtmlPlain(s: string)
    requires forall k :: 0 <= k < |s| ==> !IsSpecial(s[k])
    ensures EscapeHtml(s) == s
    decreases |s|
  {
    if s != [] {
      assert forall k :: 0 <= k < |s[1..]| ==> s[1..][k] == s[k + 1];
      EscapeHtmlPlain(s[1..]);
      assert s == [s[0]] + s[1..];
    }
  }

  /** Escaping works character by character. */
  lemma EscapeHtmlAppend(a: string, b: string)
    ensures EscapeHtml(a + b) == EscapeHtml(a) + EscapeHtml(b)
  {
    ReplaceEachAppend(a, b, EscapeChar);
  }

  /** A reference decoder for the four entities `escapeHTML` produces. */
  function Unescape(s: string): string
    decreases |s|
  {
    if s == [] then []
    else if StartsWith(s, "&amp;") then "&" + Unescape(s[5..])
    else if StartsWith(s, "&lt;") then "<" + Unescape(s[4..])
    else if StartsWith(s, "&gt;") then ">" + Unescape(s[4..])
    else if StartsWith(s, "&quot;") then "\"" + Unescape(s[6..])
    else [s[0]] + Unescape(s[1..])
  }

  /** Decoding an entity, or a character that is not `&`, in front of any text. */
  lemma UnescapeFront(e: string, c: char, rest: string)
    requires (e, c) in {("&amp;", '&'), ("&lt;", '<'), ("&gt;", '>'), ("&quot;", '"')}
      || (e == [c] && c != '&')
    ensures Unescape(e + rest) == [c] + Unescape(rest)
  {
    var t := e + rest;
    assert t[..|e|] == e && t[|e|..] == rest;
    assert t[0] == e[0];
    if e == [c] {
      assert !StartsWith(t, "&amp;") && !StartsWith(t, "&lt;") && !StartsWith(t, "&gt;") && !StartsWith(t, "&quot;");
    } else {
      assert t[1] == e[1];
      if e == "&amp;" {
        assert StartsWith(t, "&amp;");
      } else if e == "&lt;" {
        assert !StartsWith(t, "&amp;") && StartsWith(t, "&lt;");
      } else if e == "&gt;" {
        assert !StartsWith(t, "&amp;") && !StartsWith(t, "&lt;") && StartsWith(t, "&gt;");
      } else {
        assert !StartsWith(t, "&amp;") && !StartsWith(t, "&lt;") && !StartsWith(t, "&gt;");
        assert StartsWith(t, "&quot;");
      }
    }
  }

  /** Decoding one escaped character in front of any text. */
  lemma UnescapeEscapeChar(c: char, rest: string)
    ensures Unescape(EscapeChar(c) + rest) == [c] + Unescape(rest)
  {
    UnescapeFront(EscapeChar(c), c, rest);
  }

  /** Escaping loses nothing: the title can be read back from the markup. */
  lemma {:induction false} UnescapeEscapeHtml(s: string)
    ensures Unescape(EscapeHtml(s)) == s
    decreases |s|
  {
    if s != [] {
      UnescapeEscapeHtml(s[1..]);
      UnescapeEscapeChar(s[0], EscapeHtml(s[1..]));
      assert s == [s[0]] + s[1..];
    }
  }

  /** `show(txt)`: the pill's content is one span around the escaped title. */
  function PillMarkup(txt: string): (r: string)
    ensures |r| >= 13 && StartsWith(r, "<span>") && EndsWith(r, "</span>")
    ensures var inner := r[6..|r| - 7]; '<' !in inner && Unescape(inner) == txt
  {
    UnescapeEscapeHtml(txt);
    var r := "<span>" + EscapeHtml(txt) + "</span>";
    assert r[6..|r| - 7] == EscapeHtml(txt);
    r
  }

  /** The `--size` value: used as-is when it ends in "px", else "px" is appended. */
  function SizeValue(size: string): (r: string)
    ensures EndsWith(r, "px")
    ensures EndsWith(size, "px") ==> r == size
    ensures !EndsWith(size, "px") ==> r == size + "px"
  {
    if EndsWith(size, "px") then size
    else
      assert (size + "px")[|size + "px"| - 2..] == "px";
      size + "px"
  }

  /** Applying the size rule to its own result changes nothing. */
  lemma SizeValueIdempotent(size: string)
    ensures SizeValue(SizeValue(size)) == SizeValue(size)
  {
  }

  /** The value the property list sets for `name`, if any (the first
      setting of it). */
  function PropertyValue(props: seq<(string, string)>, name: string): Option<string>
    decreases |props|
  {
    if props == [] then None
    else if props[0].0 == name then Some(props[0].1)
    else PropertyValue(props[1..], name)
  }

  lemma {:induction false} PropertyValueAppend(a: seq<(string, string)>, b: seq<(string, string)>, name: string)
    ensures PropertyValue(a + b, name) == if PropertyValue(a, name).Some? then PropertyValue(a, name) else PropertyValue(b, name)
    decreases |a|
  {
    if a == [] {
      assert a + b == b;
    } else {
      assert (a + b)[0] == a[0] && (a + b)[1..] == a[1..] + b;
      PropertyValueAppend(a[1..], b, name);
    }
  }

  /** A parameter that is present and non-empty (truthy). */
  predicate Set(param: Option<string>) {
    param.Some? && param.value != ""
  }

  /** The CSS custom properties set from the query parameters `size`,
      `align` and `bottom`, in that order; an absent or empty parameter
      sets nothing. */
  function StyleProperties(size: Option<string>, align: Option<string>, bottom: Option<string>)
    : (r: seq<(string, string)>)
    ensures PropertyValue(r, "--size") == if Set(size) then Some(SizeValue(size.value)) else None
    ensures PropertyValue(r, "--align") == if Set(align) then Some(align.value) else None
    ensures PropertyValue(r, "--bottom") == if Set(bottom) then Some(bottom.value) else None
    ensures forall k :: 0 <= k < |r| ==> r[k].0 == "--size" || r[k].0 == "--align" || r[k].0 == "--bottom"
    ensures |r| <= 3
  {
    var x := if Set(size) then [("--size", SizeValue(size.value))] else [];
    var y := if Set(align) then [("--align", align.value)] else [];
    var z := if Set(bottom) then [("--bottom", bottom.value)] else [];
    PropertyValueAppend(x, y + z, "--size");
    PropertyValueAppend(x, y + z, "--align");
    PropertyValueAppend(x, y + z, "--bottom");
    PropertyValueAppend(y, z, "--size");
    PropertyValueAppend(y, z, "--align");
    PropertyValueAppend(y, z, "--bottom");
    x + (y + z)
  }

  /** `params.get('marquee') || 'auto'`. */
  function MarqueeMode(param: Option<string>): (m: string)
    ensures param.None? || param.value == "" ==> m == "auto"
    ensures param.Some? && param.value != "" ==> m == param.value
    ensures m != ""
  {
    if param.Some? && param.value != "" then param.value else "auto"
  }

  /** `applyMarquee`: whether the title scrolls, given the span's scroll
      width and the pill's client width. */
  predicate NeedMarquee(mode: string, scrollWidth: int, clientWidth: int)
    ensures NeedMarquee(mode, scrollWidth, clientWidth) ==> mode == "always" || mode == "auto"
  {
    mode == "always" || (mode == "auto" && scrollWidth > clientWidth)
  }

  /** The title scrolls exactly in mode "always", or in mode "auto" when it
      overflows; mode "off" and any other mode never scroll. */
  lemma NeedMarqueeCases(param: Option<string>, scrollWidth: int, clientWidth: int)
    ensures param == Some("") ==> (NeedMarquee(MarqueeMode(param), scrollWidth, clientWidth) <==> scrollWidth > clientWidth)
    ensures param == Some("off") ==> !NeedMarquee(MarqueeMode(param), scrollWidth, clientWidth)
    ensures param.None? ==> (NeedMarquee(MarqueeMode(param), scrollWidth, clientWidth) <==> scrollWidth > clientWidth)
    ensures param == Some("always") ==> NeedMarquee(MarqueeMode(param), scrollWidth, clientWidth)
  {
  }
}
