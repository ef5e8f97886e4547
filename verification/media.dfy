/**
 * Images, `![alt](url)`, and links, `[text](url)` and `<http://…>`.
 *
 * The runs `[^\]]*`, `[^)]+` and `[^>]+` are negated classes: they match line
 * terminators too, so an image or a link may span lines. Each run is followed
 * by the one character it excludes, so backtracking never moves where it stops.
 */
module Media {
  import opened Wrappers
  import opened Text
  import opened Scanner
  import opened Dialect

  /** A bracketed reference `[text](url)` at the start of some text, and its length. */
  datatype Ref = Ref(text: string, url: string, len: nat)

  /** How a reference is written. */
  function RefForm(text: string, url: string): string {
    "[" + text + "](" + url + ")"
  }

  /** What the reference pattern admits: no `]` in the text, at least `minText` characters of it, and a non-empty url without `)`. */
  predicate RefParts(text: string, url: string, minText: nat) {
    ']' !in text && |text| >= minText && url != [] && ')' !in url
  }

  /**
   * `\[([^\]]*)\]\(([^)]+)\)` (minText = 0) or `\[([^\]]+)\]\(([^)]+)\)`
   * (minText = 1) at the start of `t`.
   */
  function RefAt(t: string, minText: nat): Option<Ref> {
    if t == [] || t[0] != '[' then None
    else match IndexOf(t[1..], ']')
      case None => None
      case Some(k) =>
        if k < minText || |t| <= k + 2 || t[k + 2] != '(' then None
        else match IndexOf(t[k + 3..], ')')
          case None => None
          case Some(u) => if u == 0 then None else Some(Ref(t[1..k + 1], t[k + 3..k + 3 + u], k + u + 4))
  }

  /** Whatever the pattern finds is a reference it admits, written out at the start of `t`. */
  lemma RefAtForm(t: string, minText: nat)
    requires RefAt(t, minText).Some?
    ensures var r := RefAt(t, minText).value;
      RefParts(r.text, r.url, minText) && r.len == |RefForm(r.text, r.url)| && StartsWith(t, RefForm(r.text, r.url))
  {
    var k := IndexOf(t[1..], ']').value;
    var u := IndexOf(t[k + 3..], ')').value;
    assert t[1..][k] == t[k + 1];
    assert t[k + 3..][u] == t[k + 3 + u];
    assert t[1..k + 1] == t[1..][..k];
    assert t[k + 3..k + 3 + u] == t[k + 3..][..u];
    RefFound(t, k, u);
  }

  lemma RefFound(t: string, k: nat, u: nat)
    requires k + 3 + u < |t| && t[0] == '[' && t[k + 1] == ']' && t[k + 2] == '(' && t[k + 3 + u] == ')'
    ensures StartsWith(t, RefForm(t[1..k + 1], t[k + 3..k + 3 + u]))
    ensures |RefForm(t[1..k + 1], t[k + 3..k + 3 + u])| == k + u + 4
  {
    assert t[..k + u + 4] == [t[0]] + t[1..k + 1] + [t[k + 1], t[k + 2]] + t[k + 3..k + 3 + u] + [t[k + 3 + u]];
  }

  /** Every reference the pattern admits is found, with exactly its text and url. */
  lemma RefOf(text: string, url: string, rest: string, minText: nat)
    requires RefParts(text, url, minText)
    ensures RefAt(RefForm(text, url) + rest, minText) == Some(Ref(text, url, |RefForm(text, url)|))
  {
    var t := RefForm(text, url) + rest;
    RefTextPart(text, url, rest);
    RefUrlPart(text, url, rest);
    RefAtIs(t, minText, |text|, |url|);
  }

  lemma RefTextPart(text: string, url: string, rest: string)
    requires ']' !in text
    ensures var t := RefForm(text, url) + rest;
      IndexOf(t[1..], ']') == Some(|text|) && t[1..|text| + 1] == text && t[0] == '[' && t[|text| + 2] == '('
  {
    var t := RefForm(text, url) + rest;
    assert t == "[" + text + ("](" + url + ")" + rest);
    Parts("[", text, "](" + url + ")" + rest);
    assert text + ("](" + url + ")" + rest) == text + [']'] + ("(" + url + ")" + rest);
    IndexOfAfter(text, ']', "(" + url + ")" + rest);
  }

  lemma RefUrlPart(text: string, url: string, rest: string)
    requires ')' !in url
    ensures var t := RefForm(text, url) + rest;
      IndexOf(t[|text| + 3..], ')') == Some(|url|) && t[|text| + 3..|text| + 3 + |url|] == url
  {
    var t := RefForm(text, url) + rest;
    assert t == "[" + text + "](" + url + (")" + rest);
    Parts("[" + text + "](", url, ")" + rest);
    assert url + (")" + rest) == url + [')'] + rest;
    IndexOfAfter(url, ')', rest);
  }

  /** The reference pattern, once its two closing characters are located. */
  lemma RefAtIs(t: string, minText: nat, k: nat, u: nat)
    requires t != [] && t[0] == '[' && IndexOf(t[1..], ']') == Some(k) && minText <= k
    requires k + 2 < |t| && t[k + 2] == '(' && IndexOf(t[k + 3..], ')') == Some(u) && u != 0
    ensures RefAt(t, minText) == Some(Ref(t[1..k + 1], t[k + 3..k + 3 + u], k + u + 4))
  {
  }

  /** A reference with an empty url, `[text]()`, is refused. */
  lemma NoEmptyUrl(text: string, rest: string, minText: nat)
    requires ']' !in text
    ensures RefAt("[" + text + "]()" + rest, minText).None?
  {
    var t := "[" + text + "]()" + rest;
    var k := |text|;
    assert t[1..] == text + [']'] + ("()" + rest);
    IndexOfAfter(text, ']', "()" + rest);
    assert t[k + 3..] == [')'] + rest;
  }

  /** Link text must be non-empty: `[](url)` is not a link. */
  lemma NoEmptyLinkText(url: string, rest: string)
    ensures RefAt(RefForm([], url) + rest, 1).None?
  {
    var t := RefForm([], url) + rest;
    assert t[1..] == [] + [']'] + ("(" + url + ")" + rest);
    IndexOfAfter([], ']', "(" + url + ")" + rest);
  }

  /** The image tag: bbcode drops the alt text, worldanvil keeps it after a colon. */
  function ImageTag(fmt: Format, alt: string, url: string): string {
    match fmt
    case WorldAnvil => "[img:" + alt + "]" + url + "[/img]"
    case BBCode => "[img]" + url + "[/img]"
  }

  function ImageMatcher(fmt: Format): Matcher {
    (prev: Option<char>, t: string) =>
      if t == [] || t[0] != '!' then None
      else match RefAt(t[1..], 0)
        case Some(r) => Some(Match(1 + r.len, ImageTag(fmt, r.text, r.url)))
        case None => None
  }

  /** `s.replace(/!\[([^\]]*)\]\(([^)]+)\)/g, …)` with the format's image tag. */
  function Images(s: string, fmt: Format): string {
    Replace(s, ImageMatcher(fmt))
  }

  /** The standard-BBCode image rule, which has no format parameter. */
  function StandardImages(s: string): string {
    Images(s, BBCode)
  }

  /** The WorldAnvil image rule, which has no format parameter. */
  function WorldAnvilImages(s: string): string {
    Images(s, WorldAnvil)
  }

  /** An image is replaced by its tag, and scanning goes on after it. */
  lemma ImageOf(fmt: Format, prev: Option<char>, alt: string, url: string, rest: string)
    requires RefParts(alt, url, 0)
    ensures ReplaceAll(prev, "!" + RefForm(alt, url) + rest, ImageMatcher(fmt))
         == ImageTag(fmt, alt, url) + ReplaceAll(Some(')'), rest, ImageMatcher(fmt))
  {
    var x := "!" + RefForm(alt, url);
    assert (x + rest)[1..] == RefForm(alt, url) + rest;
    RefOf(alt, url, rest, 0);
    MatchStep(prev, x, rest, ImageMatcher(fmt), ImageTag(fmt, alt, url));
  }

  lemma ImagesIgnorePrev(fmt: Format)
    ensures IgnoresPrev(ImageMatcher(fmt))
  {
  }

  /**
   * Text before an image that holds no `!` is copied, the image becomes its
   * tag, and the rest is rewritten on its own: every image is converted.
   */
  lemma ImagesSplit(fmt: Format, d: string, alt: string, url: string, rest: string)
    requires RefParts(alt, url, 0) && Avoids(d, {'!'})
    ensures Images(d + "!" + RefForm(alt, url) + rest, fmt) == d + ImageTag(fmt, alt, url) + Images(rest, fmt)
  {
    var x := "!" + RefForm(alt, url);
    assert d + "!" + RefForm(alt, url) + rest == d + x + rest;
    BangFreeQuiet(fmt, d, x + rest);
    ImageAt(fmt, alt, url, rest);
    ImagesIgnorePrev(fmt);
    SplitAt(ImageMatcher(fmt), d, x, rest, ImageTag(fmt, alt, url));
  }

  lemma ImageAt(fmt: Format, alt: string, url: string, rest: string)
    requires RefParts(alt, url, 0)
    ensures ImageMatcher(fmt)(None, "!" + RefForm(alt, url) + rest)
         == Some(Match(|"!" + RefForm(alt, url)|, ImageTag(fmt, alt, url)))
  {
    var t := "!" + RefForm(alt, url) + rest;
    assert t[1..] == RefForm(alt, url) + rest by {
      assert t == "!" + (RefForm(alt, url) + rest);
    }
    RefOf(alt, url, rest, 0);
    ImageMatchIs(fmt, t, Ref(alt, url, |RefForm(alt, url)|));
  }

  lemma ImageMatchIs(fmt: Format, t: string, r: Ref)
    requires t != [] && t[0] == '!' && RefAt(t[1..], 0) == Some(r)
    ensures ImageMatcher(fmt)(None, t) == Some(Match(1 + r.len, ImageTag(fmt, r.text, r.url)))
  {
  }

  lemma BangFreeQuiet(fmt: Format, d: string, y: string)
    requires Avoids(d, {'!'})
    ensures Quiet(None, d, y, ImageMatcher(fmt))
  {
    forall i | 0 <= i < |d| ensures !Consumes(ImageMatcher(fmt)(PrevAt(None, d, i), d[i..] + y), d[i..] + y) {
      assert (d[i..] + y)[0] == d[i];
    }
  }

  /** Text without `!` holds no image and is unchanged. */
  lemma ImagesUnchanged(fmt: Format, s: string)
    requires Avoids(s, {'!'})
    ensures Images(s, fmt) == s
  {
    Unchanged(None, s, ImageMatcher(fmt), {'!'});
  }

  /** Without the `!` the image pattern does not match: a plain reference is left for the link rule. */
  lemma ImageNeedsBang(fmt: Format, prev: Option<char>, text: string, url: string, rest: string)
    ensures ImageMatcher(fmt)(prev, RefForm(text, url) + rest).None?
  {
    assert (RefForm(text, url) + rest)[0] == '[';
  }

  function LinkTag(text: string, url: string): string {
    "[url=" + url + "]" + text + "[/url]"
  }

  /** `(?<!!)\[([^\]]+)\]\(([^)]+)\)`: the lookbehind sees the input character before the bracket. */
  function LinkMatcher(): Matcher {
    (prev: Option<char>, t: string) =>
      if prev == Some('!') then None
      else match RefAt(t, 1)
        case Some(r) => Some(Match(r.len, LinkTag(r.text, r.url)))
        case None => None
  }

  /** Length of the `<https?://` prefix of `t`, or 0 when there is none. */
  function SchemeLen(t: string): (n: nat)
    ensures n == 9 <==> StartsWith(t, "<https://")
    ensures n == 8 <==> StartsWith(t, "<http://")
    ensures n == 0 || n == 8 || n == 9
  {
    if StartsWith(t, "<https://") then
      assert t[5] == 's';
      9
    else if StartsWith(t, "<http://") then 8
    else 0
  }

  /** Where `<(https?:\/\/[^>]+)>` closes: the first `>` after the scheme, which must not follow it at once. */
  function AutoLinkEnd(t: string): (r: Option<nat>)
    ensures r.Some? ==> SchemeLen(t) > 0 && SchemeLen(t) < r.value < |t| && t[r.value] == '>'
  {
    var n := SchemeLen(t);
    if n == 0 then None
    else match IndexOf(t[n..], '>')
      case None => None
      case Some(u) => if u == 0 then None else Some(n + u)
  }

  function AutoLinkMatcher(): Matcher {
    (prev: Option<char>, t: string) =>
      match AutoLinkEnd(t)
      case Some(e) => Some(Match(e + 1, "[url]" + t[1..e] + "[/url]"))
      case None => None
  }

  /** `convertLinks`: inline links first, then autolinks; the format is not consulted. */
  function Links(s: string): string {
    Replace(Replace(s, LinkMatcher()), AutoLinkMatcher())
  }

  /** A link not preceded by `!` becomes `[url=url]text[/url]`. */
  lemma LinkOf(prev: Option<char>, text: string, url: string, rest: string)
    requires prev != Some('!') && RefParts(text, url, 1)
    ensures ReplaceAll(prev, RefForm(text, url) + rest, LinkMatcher())
         == LinkTag(text, url) + ReplaceAll(Some(')'), rest, LinkMatcher())
  {
    RefOf(text, url, rest, 1);
    var x := RefForm(text, url);
    MatchStep(prev, x, rest, LinkMatcher(), LinkTag(text, url));
  }

  /** After a `!` the same bracket is never a link: the bracket is copied as it is. */
  lemma LinkSkipsImage(text: string, url: string, rest: string)
    ensures ReplaceAll(Some('!'), RefForm(text, url) + rest, LinkMatcher())
         == "[" + ReplaceAll(Some('['), RefForm(text, url)[1..] + rest, LinkMatcher())
  {
    var t := RefForm(text, url) + rest;
    assert t[0] == '[';
    assert t[1..] == RefForm(text, url)[1..] + rest;
  }

  /** An autolink keeps its scheme inside `[url]…[/url]`. */
  lemma AutoLinkOf(prev: Option<char>, scheme: string, body: string, rest: string)
    requires scheme == "https://" || scheme == "http://"
    requires body != [] && '>' !in body
    ensures ReplaceAll(prev, "<" + scheme + body + ">" + rest, AutoLinkMatcher())
         == "[url]" + scheme + body + "[/url]" + ReplaceAll(Some('>'), rest, AutoLinkMatcher())
  {
    var x := "<" + scheme + body + ">";
    AutoLinkAt(prev, scheme, body, rest);
    MatchStep(prev, x, rest, AutoLinkMatcher(), "[url]" + scheme + body + "[/url]");
  }

  lemma AutoLinkAt(prev: Option<char>, scheme: string, body: string, rest: string)
    requires scheme == "https://" || scheme == "http://"
    requires body != [] && '>' !in body
    ensures AutoLinkMatcher()(prev, "<" + scheme + body + ">" + rest)
         == Some(Match(|"<" + scheme + body + ">"|, "[url]" + scheme + body + "[/url]"))
  {
    var t := "<" + scheme + body + ">" + rest;
    var n := |scheme| + 1;
    AutoLinkEndOf(scheme, body, rest);
    assert t[1..n + |body|] == scheme + body by {
      assert t == "<" + (scheme + body) + (">" + rest);
      Parts("<", scheme + body, ">" + rest);
    }
    assert "[url]" + (scheme + body) + "[/url]" == "[url]" + scheme + body + "[/url]";
  }

  lemma AutoLinkEndOf(scheme: string, body: string, rest: string)
    requires scheme == "https://" || scheme == "http://"
    requires body != [] && '>' !in body
    ensures AutoLinkEnd("<" + scheme + body + ">" + rest) == Some(|scheme| + 1 + |body|)
  {
    var t := "<" + scheme + body + ">" + rest;
    var n := |scheme| + 1;
    assert t == "<" + scheme + (body + ">" + rest);
    SchemeOf(scheme, body + ">" + rest);
    assert t[n..] == body + ['>'] + rest by {
      Parts("<" + scheme, body, ">" + rest);
      assert body + (">" + rest) == body + ['>'] + rest;
    }
    IndexOfAfter(body, '>', rest);
  }

  lemma SchemeOf(scheme: string, rest: string)
    requires scheme == "https://" || scheme == "http://"
    ensures SchemeLen("<" + scheme + rest) == |scheme| + 1
  {
    var t := "<" + scheme + rest;
    if scheme == "https://" {
      assert t[..9] == "<https://";
    } else {
      assert t[..8] == "<http://";
    }
  }

  /** Only the two web schemes are autolinked. */
  lemma AutoLinkScheme(prev: Option<char>, t: string)
    requires !StartsWith(t, "<http://") && !StartsWith(t, "<https://")
    ensures AutoLinkMatcher()(prev, t).None?
  {
  }

  /**
   * Images run before links, and an image is consumed whole by its own rule
   * (`ImagesSplit`); the link rule, were it run on the raw image instead,
   * would not take its bracket, so alt text never becomes link text.
   */
  lemma ImageBeforeLink(alt: string, url: string, rest: string)
    ensures Replace("!" + RefForm(alt, url) + rest, LinkMatcher())
         == "![" + ReplaceAll(Some('['), RefForm(alt, url)[1..] + rest, LinkMatcher())
  {
    var x := RefForm(alt, url) + rest;
    var y := ReplaceAll(Some('['), RefForm(alt, url)[1..] + rest, LinkMatcher());
    BangThenBracket(x, y, alt, url, rest);
    assert "!" + RefForm(alt, url) + rest == "!" + x;
    assert "!" + ("[" + y) == "![" + y;
  }

  lemma BangThenBracket(x: string, y: string, alt: string, url: string, rest: string)
    requires x == RefForm(alt, url) + rest && y == ReplaceAll(Some('['), RefForm(alt, url)[1..] + rest, LinkMatcher())
    ensures Replace("!" + x, LinkMatcher()) == "!" + ("[" + y)
  {
    BangCopied(x);
    LinkSkipsImage(alt, url, rest);
  }

  /** The link rule copies a `!`. */
  lemma BangCopied(x: string)
    ensures Replace("!" + x, LinkMatcher()) == "!" + ReplaceAll(Some('!'), x, LinkMatcher())
  {
    assert ("!" + x)[0] == '!';
    assert LinkMatcher()(None, "!" + x).None? by {
      assert RefAt("!" + x, 1).None?;
    }
    CopyStep(None, '!', x, LinkMatcher());
  }
}
