/**
 * Block quotes: every line `>` text becomes `[quote]text[/quote]`, then each
 * `[/quote]` that ends a line followed by `[quote]` is merged away, so that
 * consecutive quoted lines share one `[quote]` block.
 */
module Quotes {
  import opened Wrappers
  import opened Text
  import opened Scanner

  /** `^>\s*(.+)$` under the `m` flag, tried at the start of `t`. */
  function QuoteMatch(prev: Option<char>, t: string): Option<Match> {
    if AtLineStart(prev) && t != [] && t[0] == '>' then
      match Tail(t, 1, 0, true)
      case None => None
      case Some(cs) =>
        var e := LineEnd(t, cs);
        Some(Match(e, "[quote]" + t[cs..e] + "[/quote]"))
    else None
  }

  function QuoteMatcher(): Matcher {
    (prev: Option<char>, t: string) => QuoteMatch(prev, t)
  }

  /** The text between two quoted lines that the second pass merges away. */
  const Seam: string := "[/quote]\n[quote]"

  function MergeMatcher(): Matcher {
    Literal(Seam, "\n")
  }

  /** The quote conversion of the converters and of the quote strategy. */
  function Quotes(s: string): string {
    Replace(Replace(s, QuoteMatcher()), MergeMatcher())
  }

  // ---------------------------------------------------------------------
  // One line at a time
  // ---------------------------------------------------------------------

  /** `>`, optional whitespace, then text that does not start with whitespace. */
  predicate IsQuoteLine(line: string) {
    line != [] && line[0] == '>' && 1 + SpaceRun(line[1..]) < |line|
  }

  /** The text of a quoted line: everything after `>` and the whitespace. */
  function QuoteText(line: string): string {
    if line == [] then [] else line[1 + SpaceRun(line[1..])..]
  }

  /** What the first pass makes of one line on its own. */
  function QuoteLine(line: string): string {
    if IsQuoteLine(line) then "[quote]" + QuoteText(line) + "[/quote]" else line
  }

  /**
   * A line the first pass treats on its own: no line terminator, and not a
   * bare `>` with whitespace, which `\s*(.+)` would carry on into the next line.
   */
  predicate Standalone(line: string) {
    NoTerminator(line) && (line == [] || line[0] != '>' || IsQuoteLine(line))
  }

  lemma QuoteTakesLine(line: string, y: string)
    requires IsQuoteLine(line) && NoTerminator(line) && (y == [] || IsTerminator(y[0]))
    ensures QuoteMatch(None, line + y) == Some(Match(|line|, "[quote]" + QuoteText(line) + "[/quote]"))
  {
    var w := SpaceRun(line[1..]);
    var pre, body := line[..1 + w], line[1 + w..];
    assert line == pre + body;
    assert body[0] == line[1..][w];
    assert pre[1..] == line[1..][..w];
    TailOfLine(pre, body, y, 1, 0, true);
    assert line + y == pre + body + y;
    assert (line + y)[1 + w..|line|] == body;
  }

  /** The first pass at the start of a standalone line, whatever follows the line. */
  lemma QuoteAtStart(p: Option<char>, line: string, y: string)
    requires Standalone(line) && (y == [] || IsTerminator(y[0]))
    ensures QuoteMatch(p, line + y) ==
      if AtLineStart(p) && IsQuoteLine(line)
      then Some(Match(|line|, "[quote]" + QuoteText(line) + "[/quote]"))
      else None
  {
    if AtLineStart(p) && IsQuoteLine(line) {
      QuoteTakesLine(line, y);
      assert QuoteMatch(p, line + y) == QuoteMatch(None, line + y);
    } else if line != [] {
      assert (line + y)[0] == line[0];
    } else {
      assert line + y == y;
    }
  }

  lemma QuoteConfined(line: string)
    requires Standalone(line)
    ensures Confined(QuoteMatcher(), line)
  {
    var f := QuoteMatcher();
    forall p, y | y == [] || IsTerminator(y[0]) ensures StaysOnLine(f, p, line, y) {
      forall i | 0 <= i <= |line|
        ensures f(PrevAt(p, line, i), line[i..] + y) == f(PrevAt(p, line, i), line[i..])
        ensures f(PrevAt(p, line, i), line[i..]).Some? ==> f(PrevAt(p, line, i), line[i..]).value.len <= |line| - i
      {
        if i == 0 {
          assert line[0..] == line && line + [] == line;
          QuoteAtStart(p, line, y);
          QuoteAtStart(p, line, []);
        } else {
          assert !IsTerminator(line[i - 1]);
        }
      }
    }
  }

  /** The first pass on a standalone line on its own. */
  lemma {:induction false} QuotePassLine(line: string)
    requires Standalone(line)
    ensures Replace(line, QuoteMatcher()) == QuoteLine(line)
  {
    var f := QuoteMatcher();
    assert line + [] == line;
    QuoteAtStart(None, line, []);
    if IsQuoteLine(line) {
      MatchStep(None, line, [], f, "[quote]" + QuoteText(line) + "[/quote]");
    } else {
      forall i | 0 <= i < |line| ensures !Consumes(f(PrevAt(None, line, i), line[i..] + []), line[i..] + []) {
        assert line[i..] + [] == line[i..];
        if i > 0 {
          assert !IsTerminator(line[i - 1]);
        } else {
          assert line[0..] == line;
        }
      }
      CopyRun(None, line, [], f);
    }
  }

  /** Text made of standalone lines: the first pass converts every line on its own. */
  lemma QuotesByLine(lines: seq<string>)
    requires |lines| >= 1 && forall i :: 0 <= i < |lines| ==> Standalone(lines[i])
    ensures Replace(Join(lines, '\n'), QuoteMatcher()) == Join(QuoteLines(lines), '\n')
  {
    var f := QuoteMatcher();
    forall i | 0 <= i < |lines| ensures Confined(f, lines[i]) && Replace(lines[i], f) == QuoteLine(lines[i]) {
      QuoteConfined(lines[i]);
      QuotePassLine(lines[i]);
    }
    ReplaceLines(lines, f);
    assert EachLine(lines, f) == QuoteLines(lines);
  }

  // ---------------------------------------------------------------------
  // Merging consecutive quotes
  // ---------------------------------------------------------------------

  /** The merge needs a line feed. */
  lemma MergeNeedsLineFeed()
    ensures NeedsOneOf(MergeMatcher(), {'\n'})
  {
    forall prev, t | Avoids(t, {'\n'}) ensures !Consumes(MergeMatcher()(prev, t), t) {
      if |t| >= |Seam| {
        assert t[..|Seam|][8] == t[8];
      }
    }
  }

  /** Where a line `c` ends in a seam, the seam becomes a line feed. */
  lemma MergeSeam(prev: Option<char>, c: string, y: string)
    requires NoTerminator(c)
    ensures ReplaceAll(prev, c + Seam + y, MergeMatcher()) == c + "\n" + ReplaceAll(Some(']'), y, MergeMatcher())
  {
    var f := MergeMatcher();
    forall i | 0 <= i < |c| ensures !Consumes(f(PrevAt(prev, c, i), c[i..] + (Seam + y)), c[i..] + (Seam + y)) {
      var t := c[i..] + (Seam + y);
      if i + 8 < |c| {
        assert t[8] == c[i + 8];
      } else {
        assert t[8] == Seam[i + 8 - |c|];
      }
    }
    CopyRun(prev, c, Seam + y, f);
    assert c + Seam + y == c + (Seam + y);
    MatchStep(PrevAt(prev, c, |c|), Seam, y, f, "\n");
  }

  /** Quoted texts `cs`, the opening tag of the first one already passed. */
  function OpenBlock(cs: seq<string>): string
    requires |cs| >= 1
  {
    if |cs| == 1 then cs[0] + "[/quote]" else cs[0] + Seam + OpenBlock(cs[1..])
  }

  lemma {:induction false} MergeBlock(prev: Option<char>, cs: seq<string>)
    requires |cs| >= 1 && forall i :: 0 <= i < |cs| ==> NoTerminator(cs[i])
    ensures ReplaceAll(prev, OpenBlock(cs), MergeMatcher()) == Join(cs, '\n') + "[/quote]"
    decreases |cs|
  {
    if |cs| == 1 {
      MergeNeedsLineFeed();
      assert Avoids(cs[0] + "[/quote]", {'\n'}) by {
        forall i | 0 <= i < |cs[0] + "[/quote]"| ensures (cs[0] + "[/quote]")[i] != '\n' {
          if i < |cs[0]| { assert (cs[0] + "[/quote]")[i] == cs[0][i]; }
        }
      }
      Unchanged(prev, OpenBlock(cs), MergeMatcher(), {'\n'});
    } else {
      MergeSeam(prev, cs[0], OpenBlock(cs[1..]));
      MergeBlock(Some(']'), cs[1..]);
      assert Join(cs, '\n') == cs[0] + "\n" + Join(cs[1..], '\n');
    }
  }

  function Quoted(cs: seq<string>): seq<string> {
    Framed(cs, "[quote]", "[/quote]")
  }

  lemma {:induction false} QuotedJoin(cs: seq<string>)
    requires |cs| >= 1
    ensures Join(Quoted(cs), '\n') == "[quote]" + OpenBlock(cs)
    decreases |cs|
  {
    if |cs| > 1 {
      QuotedJoin(cs[1..]);
      assert Quoted(cs)[1..] == Quoted(cs[1..]);
    }
  }

  /** Consecutive quoted lines, each converted on its own, merge into one block. */
  lemma MergeQuoted(cs: seq<string>)
    requires |cs| >= 1 && forall i :: 0 <= i < |cs| ==> NoTerminator(cs[i])
    ensures Replace(Join(Quoted(cs), '\n'), MergeMatcher()) == "[quote]" + Join(cs, '\n') + "[/quote]"
  {
    QuotedJoin(cs);
    OpeningTagKept(OpenBlock(cs));
    MergeBlock(Some(']'), cs);
  }

  /** No seam starts inside an opening `[quote]`. */
  lemma OpeningTagKept(y: string)
    ensures ReplaceAll(None, "[quote]" + y, MergeMatcher()) == "[quote]" + ReplaceAll(Some(']'), y, MergeMatcher())
  {
    var f := MergeMatcher();
    forall i | 0 <= i < |"[quote]"| ensures !Consumes(f(PrevAt(None, "[quote]", i), "[quote]"[i..] + y), "[quote]"[i..] + y) {
      var t := "[quote]"[i..] + y;
      if i == 0 { assert t[1] == 'q'; } else { assert t[0] == "[quote]"[i]; }
    }
    CopyRun(None, "[quote]", y, f);
  }

  /** The text ends in a closing quote tag. */
  predicate ClosesQuote(x: string) {
    |x| >= 8 && x[|x| - 8..] == "[/quote]"
  }

  lemma MergeIgnoresPrev()
    ensures IgnoresPrev(MergeMatcher())
  {
  }

  /** Dropping a prefix keeps no closing tag at the end that was not there before. */
  lemma ClosesSuffix(x: string, k: nat)
    requires k <= |x| && ClosesQuote(x[k..])
    ensures ClosesQuote(x)
  {
    assert x[k..][|x| - k - 8..] == x[|x| - 8..];
  }

  /** A seam whose line feed is the one after an eight-character `x`: `x` closes a quote and `y` opens one. */
  lemma SeamAtEight(x: string, y: string)
    requires StartsWith(x + "\n" + y, Seam) && |x| == 8
    ensures ClosesQuote(x) && StartsWith(y, "[quote]")
  {
    var t := x + "\n" + y;
    assert x == t[..8] == Seam[..8];
    assert y[..7] == t[9..16] == Seam[9..];
  }

  /** A seam found across the line feed between `x` and `y` lies wholly inside `x`, unless `x` closes and `y` opens a quote. */
  lemma SeamInside(x: string, y: string)
    requires StartsWith(x + "\n" + y, Seam) && !(ClosesQuote(x) && StartsWith(y, "[quote]"))
    ensures |x| >= |Seam| && StartsWith(x, Seam)
  {
    var t := x + "\n" + y;
    forall i | 0 <= i < 16 && i != 8 ensures t[i] != '\n' {
      assert t[i] == t[..16][i];
    }
    assert t[|x|] == '\n';
    assert |x| == 8 ==> ClosesQuote(x) && StartsWith(y, "[quote]") by {
      if |x| == 8 {
        SeamAtEight(x, y);
      }
    }
    assert x[..16] == t[..16];
  }

  /**
   * The merge looks across the line feed between `x` and `y` only when `x`
   * ends in `[/quote]` and `y` starts with `[quote]`; otherwise the two sides
   * are merged separately.
   */
  lemma MergeApart(prev: Option<char>, x: string, y: string)
    requires !(ClosesQuote(x) && StartsWith(y, "[quote]"))
    ensures ReplaceAll(prev, x + "\n" + y, MergeMatcher())
         == ReplaceAll(prev, x, MergeMatcher()) + "\n" + ReplaceAll(Some('\n'), y, MergeMatcher())
  {
    var f := MergeMatcher();
    var z := "\n" + y;
    forall i | 0 <= i <= |x|
      ensures f(PrevAt(prev, x, i), x[i..] + z) == f(PrevAt(prev, x, i), x[i..])
      ensures f(PrevAt(prev, x, i), x[i..]).Some? ==> f(PrevAt(prev, x, i), x[i..]).value.len <= |x| - i
    {
      var w := x[i..];
      if ClosesQuote(w) {
        ClosesSuffix(x, i);
      }
      assert w + z == w + "\n" + y;
      if |w| >= 16 {
        assert (w + z)[..16] == w[..16];
      }
      if StartsWith(w + z, Seam) {
        SeamInside(w, y);
      }
    }
    LineApart(prev, x, z, f);
    assert !StartsWith(z, Seam) by {
      if |Seam| <= |z| {
        assert z[..16][0] == '\n';
      }
    }
    assert z == ['\n'] + y;
    CopyStep(PrevAt(prev, x, |x|), '\n', y, f);
    assert x + "\n" + y == x + z;
  }

  /** A closing tag at the end of `p`, a line feed, then `l` lies within `l`: the tag holds no line feed. */
  lemma ClosesInLast(p: string, l: string)
    requires ClosesQuote(p + "\n" + l)
    ensures ClosesQuote(l)
  {
    var x := p + "\n" + l;
    forall i | |x| - 8 <= i < |x| ensures x[i] != '\n' {
      assert x[i] == x[|x| - 8..][i - (|x| - 8)];
    }
    assert x[|p|] == '\n';
    assert x[|x| - 8..] == l[|l| - 8..];
  }

  /** An opening tag at the start of `f`, a line feed, then `r` lies within `f`. */
  lemma OpensInFirst(f: string, r: string)
    requires StartsWith(f + "\n" + r, "[quote]")
    ensures StartsWith(f, "[quote]")
  {
    var x := f + "\n" + r;
    forall i | 0 <= i < 7 ensures x[i] != '\n' {
      assert x[i] == x[..7][i];
    }
    assert x[|f|] == '\n';
    assert x[..7] == f[..7];
  }

  /** What the first pass makes of each line. */
  function QuoteLines(lines: seq<string>): (r: seq<string>)
    ensures |r| == |lines| && forall i :: 0 <= i < |lines| ==> r[i] == QuoteLine(lines[i])
  {
    seq(|lines|, i requires 0 <= i < |lines| => QuoteLine(lines[i]))
  }

  /** The join of the first pass's lines ends as its last line does. */
  lemma {:induction false} JoinClosesInLast(ls: seq<string>)
    requires |ls| >= 1 && ClosesQuote(Join(ls, '\n'))
    ensures ClosesQuote(ls[|ls| - 1])
    decreases |ls|
  {
    if |ls| > 1 {
      ClosesInLast(ls[0], Join(ls[1..], '\n'));
      JoinClosesInLast(ls[1..]);
    }
  }

  /** A seam across two joined runs would need one at the end of the first and the start of the second. */
  lemma NoSeamBetween(qx: seq<string>, qy: seq<string>)
    requires |qx| >= 1 && |qy| >= 1
    requires !(ClosesQuote(qx[|qx| - 1]) && StartsWith(qy[0], "[quote]"))
    ensures !(ClosesQuote(Join(qx, '\n')) && StartsWith(Join(qy, '\n'), "[quote]"))
  {
    if ClosesQuote(Join(qx, '\n')) {
      JoinClosesInLast(qx);
    }
    if StartsWith(Join(qy, '\n'), "[quote]") && |qy| > 1 {
      OpensInFirst(qy[0], Join(qy[1..], '\n'));
    }
  }

  /** The first pass over two runs of lines is the first pass over each. */
  lemma QuotesByLines(xs: seq<string>, ys: seq<string>)
    requires |xs| >= 1 && |ys| >= 1
    requires forall i :: 0 <= i < |xs| ==> Standalone(xs[i])
    requires forall i :: 0 <= i < |ys| ==> Standalone(ys[i])
    ensures Replace(Join(xs + ys, '\n'), QuoteMatcher()) == Join(QuoteLines(xs) + QuoteLines(ys), '\n')
    ensures Replace(Join(xs, '\n'), QuoteMatcher()) == Join(QuoteLines(xs), '\n')
    ensures Replace(Join(ys, '\n'), QuoteMatcher()) == Join(QuoteLines(ys), '\n')
  {
    forall i | 0 <= i < |xs + ys| ensures Standalone((xs + ys)[i]) {
      if i >= |xs| { assert (xs + ys)[i] == ys[i - |xs|]; }
    }
    QuotesByLine(xs + ys);
    QuotesByLine(xs);
    QuotesByLine(ys);
    QuoteLinesAppend(xs, ys);
  }

  lemma QuoteLinesAppend(xs: seq<string>, ys: seq<string>)
    ensures QuoteLines(xs + ys) == QuoteLines(xs) + QuoteLines(ys)
  {
    assert forall i :: |xs| <= i < |xs + ys| ==> (xs + ys)[i] == ys[i - |xs|];
  }

  /**
   * Two runs of lines are converted separately unless the first run's last
   * line ends in a quote and the second run's first line starts one: a line
   * that is not quoted keeps the quotes around it apart.
   */
  lemma {:induction false} QuotesApart(xs: seq<string>, ys: seq<string>)
    requires |xs| >= 1 && |ys| >= 1
    requires forall i :: 0 <= i < |xs| ==> Standalone(xs[i])
    requires forall i :: 0 <= i < |ys| ==> Standalone(ys[i])
    requires !(ClosesQuote(QuoteLine(xs[|xs| - 1])) && StartsWith(QuoteLine(ys[0]), "[quote]"))
    ensures Quotes(Join(xs + ys, '\n')) == Quotes(Join(xs, '\n')) + "\n" + Quotes(Join(ys, '\n'))
  {
    var f := MergeMatcher();
    var qx := QuoteLines(xs);
    var qy := QuoteLines(ys);
    QuotesByLines(xs, ys);
    JoinAppend(qx, qy, '\n');
    var x := Join(qx, '\n');
    var y := Join(qy, '\n');
    NoSeamBetween(qx, qy);
    assert x + ['\n'] + y == x + "\n" + y;
    MergeApart(None, x, y);
    MergeIgnoresPrev();
    PrevFree(Some('\n'), None, y, f);
  }

  /**
   * A line that is not quoted and holds no `[` between two runs of lines keeps
   * the quotes on either side apart: each run is converted as if it stood alone.
   */
  lemma QuotesKeptApart(xs: seq<string>, m: string, ys: seq<string>)
    requires |xs| >= 1 && |ys| >= 1
    requires forall i :: 0 <= i < |xs| ==> Standalone(xs[i])
    requires forall i :: 0 <= i < |ys| ==> Standalone(ys[i])
    requires Standalone(m) && !IsQuoteLine(m) && Avoids(m, {'['})
    ensures Quotes(Join(xs + [m] + ys, '\n')) == Quotes(Join(xs, '\n')) + "\n" + m + "\n" + Quotes(Join(ys, '\n'))
  {
    var rest := [m] + ys;
    PlainLineFirst(m, ys);
    assert xs + [m] + ys == xs + rest;
    PlainLineKept(m);
    QuotesApart(xs, rest);
    Between(Quotes(Join(xs, '\n')), m, Quotes(Join(ys, '\n')));
  }

  /** A plain line in front of a run of lines is kept, and the run is converted on its own. */
  lemma PlainLineFirst(m: string, ys: seq<string>)
    requires |ys| >= 1 && forall i :: 0 <= i < |ys| ==> Standalone(ys[i])
    requires Standalone(m) && !IsQuoteLine(m) && Avoids(m, {'['})
    ensures forall i :: 0 <= i < |[m] + ys| ==> Standalone(([m] + ys)[i])
    ensures Quotes(Join([m] + ys, '\n')) == m + "\n" + Quotes(Join(ys, '\n'))
  {
    forall i | 0 <= i < |[m] + ys| ensures Standalone(([m] + ys)[i]) {
      if i >= 1 { assert ([m] + ys)[i] == ys[i - 1]; }
    }
    PlainLineKept(m);
    QuotesApart([m], ys);
    assert Join([m], '\n') == m;
  }

  /** A line that is not quoted and holds no `[` comes through both passes unchanged and cannot take part in a seam. */
  lemma PlainLineKept(m: string)
    requires Standalone(m) && !IsQuoteLine(m) && Avoids(m, {'['})
    ensures QuoteLine(m) == m && Quotes(m) == m
    ensures !ClosesQuote(m) && !StartsWith(m, "[quote]")
  {
    assert !ClosesQuote(m) by {
      if |m| >= 8 { assert m[|m| - 8..][0] == m[|m| - 8]; }
    }
    assert !StartsWith(m, "[quote]") by {
      if |m| >= 7 { assert m[..7][0] == m[0]; }
    }
    assert Join([m], '\n') == m;
    QuotesByLine([m]);
    assert Avoids(m, {'\n'});
    MergeNeedsLineFeed();
    Unchanged(None, m, MergeMatcher(), {'\n'});
  }

  /**
   * Consecutive lines `>` text, and nothing else, become a single
   * `[quote]…[/quote]` holding their texts one per line.
   */
  lemma QuoteBlock(lines: seq<string>)
    requires |lines| >= 1
    requires forall i :: 0 <= i < |lines| ==> IsQuoteLine(lines[i]) && NoTerminator(lines[i])
    ensures Quotes(Join(lines, '\n')) ==
            "[quote]" + Join(seq(|lines|, i requires 0 <= i < |lines| => QuoteText(lines[i])), '\n') + "[/quote]"
  {
    var cs := seq(|lines|, i requires 0 <= i < |lines| => QuoteText(lines[i]));
    forall i | 0 <= i < |lines| ensures Standalone(lines[i]) && NoTerminator(cs[i]) {
      assert cs[i] == lines[i][1 + SpaceRun(lines[i][1..])..];
    }
    QuotesByLine(lines);
    assert QuoteLines(lines) == Quoted(cs);
    MergeQuoted(cs);
  }

  /** `>` text on a line of its own becomes one quote holding the text. */
  lemma QuoteLineOf(ws: string, content: string)
    requires AllSpace(ws) && NoTerminator(ws)
    requires content != [] && !IsSpace(content[0]) && NoTerminator(content)
    ensures Quotes(">" + ws + content) == "[quote]" + content + "[/quote]"
  {
    var line := ">" + ws + content;
    assert line[1..] == ws + content;
    SpaceRunOf(ws, content);
    assert line[1 + |ws|..] == content;
    assert NoTerminator(line) by {
      forall i | 0 <= i < |line| ensures !IsTerminator(line[i]) {
        if i >= 1 + |ws| { assert line[i] == content[i - 1 - |ws|]; }
        else if i >= 1 { assert line[i] == ws[i - 1]; }
      }
    }
    QuoteBlock([line]);
    assert Join([line], '\n') == line;
    assert seq(1, i requires 0 <= i < 1 => QuoteText([line][i])) == [content];
  }
}
