/**
 * The one-line span rules: emphasis, strikethrough, and the `<sup>`, `<sub>`
 * and `<ins>` tags.
 */
module Inline {
  import opened Wrappers
  import opened Text
  import opened Scanner
  import opened LineSpans
  import opened Dialect

  /** Bold (`**`, `__`) first, then italic (`*`, `_`); the format is not consulted. */
  function Emphasis(s: string): string {
    var bold := Spans(Spans(s, "**", "**", "[b]", "[/b]"), "__", "__", "[b]", "[/b]");
    Spans(Spans(bold, "*", "*", "[i]", "[/i]"), "_", "_", "[i]", "[/i]")
  }

  /** `~~x~~` to `[s]x[/s]`. */
  function Strikethrough(s: string): string {
    Spans(s, "~~", "~~", "[s]", "[/s]")
  }

  /** `<sup>x</sup>` to `[sup]x[/sup]`, whatever the format. */
  function SupTags(s: string): string {
    Spans(s, "<sup>", "</sup>", "[sup]", "[/sup]")
  }

  /** `<sub>x</sub>` to `[sub]x[/sub]`, whatever the format. */
  function SubTags(s: string): string {
    Spans(s, "<sub>", "</sub>", "[sub]", "[/sub]")
  }

  /** `<ins>x</ins>` to `[u]x[/u]`, whatever the format. */
  function InsTags(s: string): string {
    Spans(s, "<ins>", "</ins>", "[u]", "[/u]")
  }

  /** Superscript converts only for worldanvil; an omitted format means bbcode. */
  function Superscript(s: string, fmt: Option<Format>): string {
    if OrDefault(fmt, BBCode) == WorldAnvil then SupTags(s) else s
  }

  /** Subscript converts only for worldanvil. */
  function Subscript(s: string, fmt: Format): string {
    if fmt == WorldAnvil then SubTags(s) else s
  }

  lemma AvoidsConcat(a: string, b: string, xs: set<char>)
    requires Avoids(a, xs) && Avoids(b, xs)
    ensures Avoids(a + b, xs)
  {
    forall i | 0 <= i < |a + b| ensures (a + b)[i] !in xs {
      if i >= |a| { assert (a + b)[i] == b[i - |a|]; }
    }
  }

  /** A whole rewrite of `OPEN c CLOSE`, when `c` holds no start of CLOSE. */
  lemma SpansWhole(open: string, c: string, close: string, before: string, after: string)
    requires open != [] && close != [] && NoTerminator(c) && close[0] !in c
    ensures Spans(open + c + close, open, close, before, after) == before + c + after
  {
    SpanOf(None, open, c, close, before, after, []);
    assert open + c + close + [] == open + c + close;
  }

  /** `**c**` is bold and nothing else, when `c` is one line free of `*` and `_`. */
  lemma EmphasisBold(c: string)
    requires NoTerminator(c) && Avoids(c, {'*', '_'})
    ensures Emphasis("**" + c + "**") == "[b]" + c + "[/b]"
  {
    var r := "[b]" + c + "[/b]";
    SpansWhole("**", c, "**", "[b]", "[/b]");
    AvoidsConcat("[b]", c, {'*', '_'});
    AvoidsConcat("[b]" + c, "[/b]", {'*', '_'});
    SpansUnchanged(r, "__", "__", "[b]", "[/b]");
    SpansUnchanged(r, "*", "*", "[i]", "[/i]");
    SpansUnchanged(r, "_", "_", "[i]", "[/i]");
  }

  /** `__c__` is bold too. */
  lemma EmphasisBoldUnderscore(c: string)
    requires NoTerminator(c) && Avoids(c, {'*', '_'})
    ensures Emphasis("__" + c + "__") == "[b]" + c + "[/b]"
  {
    var s := "__" + c + "__";
    var r := "[b]" + c + "[/b]";
    AvoidsConcat("__", c, {'*'});
    AvoidsConcat("__" + c, "__", {'*'});
    SpansUnchanged(s, "**", "**", "[b]", "[/b]");
    SpansWhole("__", c, "__", "[b]", "[/b]");
    AvoidsConcat("[b]", c, {'*', '_'});
    AvoidsConcat("[b]" + c, "[/b]", {'*', '_'});
    SpansUnchanged(r, "*", "*", "[i]", "[/i]");
    SpansUnchanged(r, "_", "_", "[i]", "[/i]");
  }

  /** `*c*` is italic: the bold passes leave a lone `*` alone. */
  lemma EmphasisItalic(c: string)
    requires NoTerminator(c) && Avoids(c, {'*', '_'})
    ensures Emphasis("*" + c + "*") == "[i]" + c + "[/i]"
  {
    var s := "*" + c + "*";
    var r := "[i]" + c + "[/i]";
    AvoidsConcat("*", c, {'_'});
    AvoidsConcat("*" + c, "*", {'_'});
    DoubledQuiet('*', c, "[b]", "[/b]");
    SpansUnchanged(s, "__", "__", "[b]", "[/b]");
    SpansWhole("*", c, "*", "[i]", "[/i]");
    AvoidsConcat("[i]", c, {'_'});
    AvoidsConcat("[i]" + c, "[/i]", {'_'});
    SpansUnchanged(r, "_", "_", "[i]", "[/i]");
  }

  /** A text `x c x` with `x` absent from `c` holds no `xx` span. */
  lemma DoubledQuiet(x: char, c: string, before: string, after: string)
    requires Avoids(c, {x})
    ensures Spans([x] + c + [x], [x, x], [x, x], before, after) == [x] + c + [x]
  {
    var s := [x] + c + [x];
    var f := SpanMatcher([x, x], [x, x], before, after);
    forall i | 0 <= i < |s| ensures !Consumes(f(PrevAt(None, s, i), s[i..] + []), s[i..] + []) {
      var t := s[i..] + [];
      if i == 0 && c == [] {
        assert t == [x, x];
        assert CloseFrom(t, [x, x], [x, x], 2).None?;
      } else if i == 0 {
        assert t[1] == c[0];
      } else if i <= |c| {
        assert t[0] == c[i - 1];
      } else {
        assert |t| == 1;
      }
    }
    CopyRun(None, s, [], f);
    assert s + [] == s;
  }

  /** `_c_` is italic as well. */
  lemma EmphasisItalicUnderscore(c: string)
    requires NoTerminator(c) && Avoids(c, {'*', '_'})
    ensures Emphasis("_" + c + "_") == "[i]" + c + "[/i]"
  {
    var s := "_" + c + "_";
    var r := "[i]" + c + "[/i]";
    AvoidsConcat("_", c, {'*'});
    AvoidsConcat("_" + c, "_", {'*'});
    SpansUnchanged(s, "**", "**", "[b]", "[/b]");
    DoubledQuiet('_', c, "[b]", "[/b]");
    SpansUnchanged(s, "*", "*", "[i]", "[/i]");
    SpansWhole("_", c, "_", "[i]", "[/i]");
  }

  /** Within `x c x` followed by text not starting with `x`, no doubled `xx` span opens. */
  lemma DoubledQuietThen(x: char, c: string, rest: string, before: string, after: string)
    requires c != [] && Avoids(c, {x}) && (rest == [] || rest[0] != x)
    ensures Spans([x] + c + [x] + rest, [x, x], [x, x], before, after)
         == [x] + c + [x] + Spans(rest, [x, x], [x, x], before, after)
  {
    var s := [x] + c + [x];
    var f := SpanMatcher([x, x], [x, x], before, after);
    forall i | 0 <= i < |s| ensures !Consumes(f(PrevAt(None, s, i), s[i..] + rest), s[i..] + rest) {
      var t := s[i..] + rest;
      if i == 0 {
        assert t[1] == c[0];
      } else if i <= |c| {
        assert t[0] == c[i - 1];
      } else if rest == [] {
        assert |t| == 1;
      } else {
        assert t[1] == rest[0];
      }
    }
    assert [x] + c + [x] + rest == s + rest;
    CopyRun(None, s, rest, f);
    SpanIgnoresPrev([x, x], [x, x], before, after);
    PrevFree(PrevAt(None, s, |s|), None, rest, f);
  }

  /** A stretch with no `*` and no `_` is copied, and the emphasis after it is converted as if it stood alone. */
  lemma EmphasisAfterPlain(d: string, rest: string)
    requires Avoids(d, {'*', '_'})
    ensures Emphasis(d + rest) == d + Emphasis(rest)
  {
    var r1 := Spans(rest, "**", "**", "[b]", "[/b]");
    var r2 := Spans(r1, "__", "__", "[b]", "[/b]");
    var r3 := Spans(r2, "*", "*", "[i]", "[/i]");
    SpansAfterPlain(d, rest, "**", "**", "[b]", "[/b]");
    SpansAfterPlain(d, r1, "__", "__", "[b]", "[/b]");
    SpansAfterPlain(d, r2, "*", "*", "[i]", "[/i]");
    SpansAfterPlain(d, r3, "_", "_", "[i]", "[/i]");
  }

  /** A leading `**c**` becomes bold, and the text after it is converted on its own. */
  lemma EmphasisBoldThen(c: string, rest: string)
    requires NoTerminator(c) && Avoids(c, {'*', '_'})
    ensures Emphasis("**" + c + "**" + rest) == "[b]" + c + "[/b]" + Emphasis(rest)
  {
    var p := "[b]" + c + "[/b]";
    var r1 := Spans(rest, "**", "**", "[b]", "[/b]");
    var r2 := Spans(r1, "__", "__", "[b]", "[/b]");
    var r3 := Spans(r2, "*", "*", "[i]", "[/i]");
    SpansAfterSpan("**", c, "**", "[b]", "[/b]", rest);
    AvoidsConcat("[b]", c, {'*', '_'});
    AvoidsConcat("[b]" + c, "[/b]", {'*', '_'});
    SpansAfterPlain(p, r1, "__", "__", "[b]", "[/b]");
    SpansAfterPlain(p, r2, "*", "*", "[i]", "[/i]");
    SpansAfterPlain(p, r3, "_", "_", "[i]", "[/i]");
  }

  /** A leading `__c__` becomes bold in the same way. */
  lemma EmphasisBoldUnderscoreThen(c: string, rest: string)
    requires NoTerminator(c) && Avoids(c, {'*', '_'})
    ensures Emphasis("__" + c + "__" + rest) == "[b]" + c + "[/b]" + Emphasis(rest)
  {
    var s := "__" + c + "__";
    var p := "[b]" + c + "[/b]";
    var r1 := Spans(rest, "**", "**", "[b]", "[/b]");
    var r2 := Spans(r1, "__", "__", "[b]", "[/b]");
    var r3 := Spans(r2, "*", "*", "[i]", "[/i]");
    AvoidsConcat("__", c, {'*'});
    AvoidsConcat("__" + c, "__", {'*'});
    SpansAfterPlain(s, rest, "**", "**", "[b]", "[/b]");
    SpansAfterSpan("__", c, "__", "[b]", "[/b]", r1);
    AvoidsConcat("[b]", c, {'*', '_'});
    AvoidsConcat("[b]" + c, "[/b]", {'*', '_'});
    SpansAfterPlain(p, r2, "*", "*", "[i]", "[/i]");
    SpansAfterPlain(p, r3, "_", "_", "[i]", "[/i]");
  }

  /**
   * A leading `*c*` becomes italic when `c` is not empty and the text after it
   * does not start with `*` (otherwise the closing `*` would open a `**` span).
   */
  lemma EmphasisItalicThen(c: string, rest: string)
    requires c != [] && NoTerminator(c) && Avoids(c, {'*', '_'})
    requires rest == [] || rest[0] != '*'
    ensures Emphasis("*" + c + "*" + rest) == "[i]" + c + "[/i]" + Emphasis(rest)
  {
    var s := "*" + c + "*";
    var p := "[i]" + c + "[/i]";
    var r1 := Spans(rest, "**", "**", "[b]", "[/b]");
    var r2 := Spans(r1, "__", "__", "[b]", "[/b]");
    var r3 := Spans(r2, "*", "*", "[i]", "[/i]");
    DoubledQuietThen('*', c, rest, "[b]", "[/b]");
    AvoidsConcat("*", c, {'_'});
    AvoidsConcat("*" + c, "*", {'_'});
    SpansAfterPlain(s, r1, "__", "__", "[b]", "[/b]");
    SpansAfterSpan("*", c, "*", "[i]", "[/i]", r2);
    AvoidsConcat("[i]", c, {'_'});
    AvoidsConcat("[i]" + c, "[/i]", {'_'});
    SpansAfterPlain(p, r3, "_", "_", "[i]", "[/i]");
  }

  /** A leading `_c_` becomes italic when the text after it starts with neither `*` nor `_`. */
  lemma EmphasisItalicUnderscoreThen(c: string, rest: string)
    requires c != [] && NoTerminator(c) && Avoids(c, {'*', '_'})
    requires rest == [] || rest[0] !in {'*', '_'}
    ensures Emphasis("_" + c + "_" + rest) == "[i]" + c + "[/i]" + Emphasis(rest)
  {
    var s := "_" + c + "_";
    var r1 := Spans(rest, "**", "**", "[b]", "[/b]");
    var r2 := Spans(r1, "__", "__", "[b]", "[/b]");
    var r3 := Spans(r2, "*", "*", "[i]", "[/i]");
    AvoidsConcat("_", c, {'*'});
    AvoidsConcat("_" + c, "_", {'*'});
    SpansAfterPlain(s, rest, "**", "**", "[b]", "[/b]");
    if rest != [] {
      SpansKeepFirst(rest, "**", "**", "[b]", "[/b]");
    }
    DoubledQuietThen('_', c, r1, "[b]", "[/b]");
    SpansAfterPlain(s, r2, "*", "*", "[i]", "[/i]");
    SpansAfterSpan("_", c, "_", "[i]", "[/i]", r3);
  }

  /** Bold, plain text, then italic on one line: each span is converted on its own. */
  lemma EmphasisMixed(a: string, d: string, b: string)
    requires NoTerminator(a) && Avoids(a, {'*', '_'}) && Avoids(d, {'*', '_'})
    requires b != [] && NoTerminator(b) && Avoids(b, {'*', '_'})
    ensures Emphasis("**" + a + "**" + d + "*" + b + "*") == "[b]" + a + "[/b]" + d + "[i]" + b + "[/i]"
  {
    var italic := "*" + b + "*";
    var tail := d + italic;
    assert "**" + a + "**" + d + "*" + b + "*" == "**" + a + "**" + tail;
    EmphasisBoldThen(a, tail);
    EmphasisAfterPlain(d, italic);
    EmphasisItalic(b);
    Regroup("[b]" + a + "[/b]", d, "[i]" + b + "[/i]");
  }

  /** Emphasis works line by line. */
  lemma EmphasisLines(a: string, x: char, b: string)
    requires IsTerminator(x)
    ensures Emphasis(a + [x] + b) == Emphasis(a) + [x] + Emphasis(b)
  {
    var b1 := Spans(a, "**", "**", "[b]", "[/b]");
    var b2 := Spans(b, "**", "**", "[b]", "[/b]");
    SpansLines(a, x, b, "**", "**", "[b]", "[/b]");
    var c1 := Spans(b1, "__", "__", "[b]", "[/b]");
    var c2 := Spans(b2, "__", "__", "[b]", "[/b]");
    SpansLines(b1, x, b2, "__", "__", "[b]", "[/b]");
    var d1 := Spans(c1, "*", "*", "[i]", "[/i]");
    var d2 := Spans(c2, "*", "*", "[i]", "[/i]");
    SpansLines(c1, x, c2, "*", "*", "[i]", "[/i]");
    SpansLines(d1, x, d2, "_", "_", "[i]", "[/i]");
  }

  /** Text with no `*` and no `_` has no emphasis. */
  lemma EmphasisPlain(s: string)
    requires Avoids(s, {'*', '_'})
    ensures Emphasis(s) == s
  {
    SpansUnchanged(s, "**", "**", "[b]", "[/b]");
    SpansUnchanged(s, "__", "__", "[b]", "[/b]");
    SpansUnchanged(s, "*", "*", "[i]", "[/i]");
    SpansUnchanged(s, "_", "_", "[i]", "[/i]");
  }

  /** `~~c~~` is struck through, when `c` is one line free of `~`. */
  lemma StrikethroughOf(c: string)
    requires NoTerminator(c) && Avoids(c, {'~'})
    ensures Strikethrough("~~" + c + "~~") == "[s]" + c + "[/s]"
  {
    SpansWhole("~~", c, "~~", "[s]", "[/s]");
  }

  /** Plain text and then one struck segment, after an earlier `~`. */
  lemma StrikethroughAfter(d: string, e: string)
    requires NoTerminator(e) && Avoids(d, {'~'}) && Avoids(e, {'~'})
    ensures ReplaceAll(Some('~'), d + ("~~" + e + "~~"), SpanMatcher("~~", "~~", "[s]", "[/s]"))
         == d + ("[s]" + e + "[/s]")
  {
    var f := SpanMatcher("~~", "~~", "[s]", "[/s]");
    var second := "~~" + e + "~~";
    SpanQuiet(Some('~'), d, second, "~~", "~~", "[s]", "[/s]");
    CopyRun(Some('~'), d, second, f);
    SpanOf(PrevAt(Some('~'), d, |d|), "~~", e, "~~", "[s]", "[/s]", []);
    assert second + [] == second;
  }

  /** Two struck segments on one line are converted separately: the lazy span stops at the first `~~`. */
  lemma StrikethroughTwice(c: string, d: string, e: string)
    requires NoTerminator(c) && NoTerminator(e) && Avoids(c, {'~'}) && Avoids(d, {'~'}) && Avoids(e, {'~'})
    ensures Strikethrough("~~" + c + "~~" + d + "~~" + e + "~~") == "[s]" + c + "[/s]" + d + "[s]" + e + "[/s]"
  {
    var rest := d + ("~~" + e + "~~");
    assert "~~" + c + "~~" + d + "~~" + e + "~~" == "~~" + c + "~~" + rest;
    SpanOf(None, "~~", c, "~~", "[s]", "[/s]", rest);
    StrikethroughAfter(d, e);
    assert "[s]" + c + "[/s]" + (d + ("[s]" + e + "[/s]")) == "[s]" + c + "[/s]" + d + "[s]" + e + "[/s]";
  }

  /** Spans of the tag rules never cross a line. */
  lemma StrikethroughLines(a: string, x: char, b: string)
    requires IsTerminator(x)
    ensures Strikethrough(a + [x] + b) == Strikethrough(a) + [x] + Strikethrough(b)
  {
    SpansLines(a, x, b, "~~", "~~", "[s]", "[/s]");
  }

  /** An unpaired `~~` stays as it is. */
  lemma StrikethroughUnpaired(c: string)
    requires Avoids(c, {'~'})
    ensures Strikethrough("~~" + c) == "~~" + c
  {
    var s := "~~" + c;
    var f := SpanMatcher("~~", "~~", "[s]", "[/s]");
    forall i | 0 <= i < |s| ensures !Consumes(f(PrevAt(None, s, i), s[i..] + []), s[i..] + []) {
      var t := s[i..] + [];
      if i == 0 {
        forall k: nat | 2 <= k <= |t| ensures !StartsWith(t[k..], "~~") {
          if k < |t| { assert t[k..][0] == c[k - 2]; }
        }
      } else if i == 1 {
        if |t| >= 2 { assert t[1] == c[0]; }
      } else {
        assert t[0] == c[i - 2];
      }
    }
    CopyRun(None, s, [], f);
    assert s + [] == s;
  }

  /** Worldanvil superscript converts; bbcode, also the default, leaves the text alone. */
  lemma SuperscriptOf(c: string)
    requires NoTerminator(c) && Avoids(c, {'<'})
    ensures Superscript("<sup>" + c + "</sup>", Some(WorldAnvil)) == "[sup]" + c + "[/sup]"
    ensures Superscript("<sup>" + c + "</sup>", Some(BBCode)) == "<sup>" + c + "</sup>"
    ensures Superscript("<sup>" + c + "</sup>", None) == "<sup>" + c + "</sup>"
  {
    SpansWhole("<sup>", c, "</sup>", "[sup]", "[/sup]");
  }

  /** Worldanvil subscript converts; bbcode leaves the text alone. */
  lemma SubscriptOf(c: string)
    requires NoTerminator(c) && Avoids(c, {'<'})
    ensures Subscript("<sub>" + c + "</sub>", WorldAnvil) == "[sub]" + c + "[/sub]"
    ensures Subscript("<sub>" + c + "</sub>", BBCode) == "<sub>" + c + "</sub>"
  {
    SpansWhole("<sub>", c, "</sub>", "[sub]", "[/sub]");
  }

  /** `<ins>c</ins>` becomes `[u]c[/u]`. */
  lemma UnderlineOf(c: string)
    requires NoTerminator(c) && Avoids(c, {'<'})
    ensures InsTags("<ins>" + c + "</ins>") == "[u]" + c + "[/u]"
  {
    SpansWhole("<ins>", c, "</ins>", "[u]", "[/u]");
  }

  /** Upper-case tags are not matched. */
  lemma TagsCaseSensitive(c: string)
    requires Avoids(c, {'<'})
    ensures SupTags("<SUP>" + c) == "<SUP>" + c
    ensures SubTags("<SUB>" + c) == "<SUB>" + c
    ensures InsTags("<INS>" + c) == "<INS>" + c
  {
    TagQuiet("<SUP>" + c, "<sup>", "</sup>", "[sup]", "[/sup]");
    TagQuiet("<SUB>" + c, "<sub>", "</sub>", "[sub]", "[/sub]");
    TagQuiet("<INS>" + c, "<ins>", "</ins>", "[u]", "[/u]");
  }

  /** A text whose only `<` starts something other than `open` is left alone. */
  lemma TagQuiet(s: string, open: string, close: string, before: string, after: string)
    requires |s| >= 2 && |open| >= 2 && s[0] == open[0] && s[1] != open[1] && Avoids(s[1..], {open[0]})
    ensures Spans(s, open, close, before, after) == s
  {
    var f := SpanMatcher(open, close, before, after);
    forall i | 0 <= i < |s| ensures !Consumes(f(PrevAt(None, s, i), s[i..] + []), s[i..] + []) {
      var t := s[i..] + [];
      if i == 0 {
        if |open| <= |t| { assert t[..|open|][1] == s[1]; }
      } else {
        assert t[0] == s[1..][i - 1];
      }
    }
    CopyRun(None, s, [], f);
    assert s + [] == s;
  }
}
