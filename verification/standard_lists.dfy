/**
 * Traditional BBCode lists: every bullet or numbered item becomes a `[*]`
 * line, and each run of `[*]` lines is wrapped in `[list]` … `[/list]`.
 */
module StandardLists {
  import opened Wrappers
  import opened Text
  import opened Scanner
  import opened Items

  /**
   * One repetition of `\s*\[\*\][^\n]*(?:\n|$)` at the start of `t`. The
   * leading `\s*` can run over line feeds, and the line's rest runs to the
   * next line feed, which it takes, or to the end of the input.
   */
  function StarItemLen(t: string): (r: Option<nat>)
    ensures r.Some? ==> 3 <= r.value <= |t|
  {
    var n := SpaceRun(t);
    if StartsWith(t[n..], "[*]") then Some(PastLine(t, n + 3)) else None
  }

  /** `[^\n]*(?:\n|$)` from `a`: up to and including the next line feed, or to the end. */
  function PastLine(t: string, a: nat): (r: nat)
    requires a <= |t|
    ensures a <= r <= |t|
  {
    match IndexOf(t[a..], '\n')
    case None => |t|
    case Some(j) => a + j + 1
  }

  /** The greedy `(?:…)+`: how much of `t` a run of `[*]` lines covers. */
  function StarRun(t: string): (r: nat)
    ensures r <= |t|
    decreases |t|
  {
    match StarItemLen(t)
    case None => 0
    case Some(k) => k + StarRun(t[k..])
  }

  /** The replacement for a run of items. */
  function Wrapped(items: string): string {
    "[list]\n" + Trim(items) + "\n[/list]\n"
  }

  /**
   * `(\n|^)((?:…)+)` without the `m` flag: the line feed is tried first, and
   * `^` holds only at the very start of the input.
   */
  function WrapMatch(prev: Option<char>, t: string): (r: Option<Match>)
    ensures r.Some? ==> 0 < r.value.len <= |t|
  {
    if t != [] && t[0] == '\n' && StarRun(t[1..]) > 0 then
      var k := StarRun(t[1..]);
      Some(Match(1 + k, "\n" + Wrapped(t[1..1 + k])))
    else if prev.None? && StarRun(t) > 0 then
      var k := StarRun(t);
      Some(Match(k, Wrapped(t[..k])))
    else None
  }

  function WrapMatcher(): Matcher {
    (prev: Option<char>, t: string) => WrapMatch(prev, t)
  }

  /** Bullets, then numbered items, become `[*]` items; then runs are wrapped. */
  function Traditional(text: string): string {
    Replace(Items.Items(Items.Items(text, Bullet, Star), Number, Star), WrapMatcher())
  }

  // ---------------------------------------------------------------------
  // Properties
  // ---------------------------------------------------------------------

  /** A line that the wrap sees as one `[*]` item. */
  predicate IsStarLine(line: string) {
    '\n' !in line && StartsWith(line[SpaceRun(line)..], "[*]")
  }

  /** What both item passes make of one line. */
  function StarLine(line: string): string {
    ItemLine(Number, Star, ItemLine(Bullet, Star, line))
  }

  /** A list item of either kind. */
  predicate IsListLine(line: string) {
    IsItem(Bullet, line) || IsItem(Number, line)
  }

  /** Text without a `[` holds no `[*]`, and the wrap leaves it alone. */
  lemma WrapNeedsBracket()
    ensures NeedsOneOf(WrapMatcher(), {'['})
  {
    forall prev, t | Avoids(t, {'['}) ensures !Consumes(WrapMatcher()(prev, t), t) {
      NoStarRun(t);
      if t != [] {
        assert Avoids(t[1..], {'['});
        NoStarRun(t[1..]);
      }
    }
  }

  lemma NoStarRun(t: string)
    requires Avoids(t, {'['})
    ensures StarRun(t) == 0
  {
    var n := SpaceRun(t);
    assert !StartsWith(t[n..], "[*]") by {
      if n < |t| {
        assert t[n] != '[' && t[n..][0] == t[n];
      }
    }
    assert StarItemLen(t) == None;
  }

  lemma WrapLeavesPlain(text: string)
    requires Avoids(text, {'['})
    ensures Replace(text, WrapMatcher()) == text
  {
    WrapNeedsBracket();
    Unchanged(None, text, WrapMatcher(), {'['});
  }

  /** Whitespace then `[*]` then the rest of a line: one repetition. */
  lemma StarItemOf(line: string, rest: string)
    requires IsStarLine(line) && (rest == [] || rest[0] == '\n')
    ensures StarItemLen(line + rest) == Some(if rest == [] then |line| else |line| + 1)
  {
    var n := SpaceRun(line);
    StarStart(line, rest);
    PastLineOf(line, rest, n + 3);
  }

  lemma StarStart(line: string, rest: string)
    requires IsStarLine(line) && (rest == [] || rest[0] == '\n')
    ensures SpaceRun(line) + 3 <= |line| && SpaceRun(line + rest) == SpaceRun(line)
    ensures StartsWith((line + rest)[SpaceRun(line)..], "[*]")
  {
    var n := SpaceRun(line);
    CutAt(line, n, rest);
    StartsWithAppend(line[n..], "[*]", rest);
    IndentRun(line[..n], line[n..] + rest);
  }

  /** The rest of a line that holds no line feed, and what ends it. */
  lemma PastLineOf(line: string, rest: string, a: nat)
    requires a <= |line| && '\n' !in line && (rest == [] || rest[0] == '\n')
    ensures PastLine(line + rest, a) == if rest == [] then |line| else |line| + 1
  {
    var t := line + rest;
    assert t[a..] == line[a..] + rest;
    assert '\n' !in line[a..];
    if rest == [] {
      assert t[a..] == line[a..];
    } else {
      assert rest == ['\n'] + rest[1..];
      assert t[a..] == line[a..] + ['\n'] + rest[1..];
      IndexOfAfter(line[a..], '\n', rest[1..]);
    }
  }

  /** A run of `[*]` lines joined by line feeds is a single run. */
  lemma {:induction false} StarRunJoin(lines: seq<string>)
    requires |lines| >= 1 && forall i :: 0 <= i < |lines| ==> IsStarLine(lines[i])
    ensures StarRun(Join(lines, '\n')) == |Join(lines, '\n')|
    decreases |lines|
  {
    var t := Join(lines, '\n');
    if |lines| == 1 {
      assert t == lines[0] + [];
      StarItemOf(lines[0], []);
      assert t[|t|..] == [];
    } else {
      var rest := Join(lines[1..], '\n');
      assert t == lines[0] + (['\n'] + rest);
      StarItemOf(lines[0], ['\n'] + rest);
      assert t[|lines[0]| + 1..] == rest;
      StarRunJoin(lines[1..]);
    }
  }

  lemma WrapAtStart(t: string)
    requires t != [] && t[0] != '\n' && StarRun(t) == |t|
    ensures WrapMatcher()(None, t + []) == Some(Match(|t|, Wrapped(t)))
  {
    assert t + [] == t && t[..|t|] == t;
  }

  /** Joined `[*]` lines start with the first line's first character. */
  lemma StarJoinStart(lines: seq<string>)
    requires |lines| >= 1 && IsStarLine(lines[0])
    ensures Join(lines, '\n') != [] && Join(lines, '\n')[0] != '\n'
  {
    var t := Join(lines, '\n');
    var first := lines[0];
    assert |first| >= 3 by {
      assert SpaceRun(first) + 3 <= |first|;
    }
    if |lines| > 1 {
      assert t == first + (['\n'] + Join(lines[1..], '\n'));
    }
    assert t[0] == first[0];
  }

  /** A text that is one run of `[*]` lines from its start is wrapped whole. */
  lemma WrapRun(t: string)
    requires t != [] && t[0] != '\n' && StarRun(t) == |t|
    ensures Replace(t, WrapMatcher()) == Wrapped(t)
  {
    WrapAtStart(t);
    MatchStep(None, t, [], WrapMatcher(), Wrapped(t));
    assert t + [] == t;
  }

  /** The wrap on a text made only of `[*]` lines. */
  lemma WrapWhole(lines: seq<string>)
    requires |lines| >= 1 && forall i :: 0 <= i < |lines| ==> IsStarLine(lines[i])
    ensures Replace(Join(lines, '\n'), WrapMatcher()) == Wrapped(Join(lines, '\n'))
  {
    StarRunJoin(lines);
    StarJoinStart(lines);
    WrapRun(Join(lines, '\n'));
  }

  /** `\s*\[\*\]` at the start of `t`: one more repetition of the run can begin here. */
  predicate OpensItem(t: string) {
    StartsWith(t[SpaceRun(t)..], "[*]")
  }

  /**
   * A line of text the wrap copies: no line feed, and its first character
   * after the indent is not `[`.
   */
  predicate IsTextLine(d: string) {
    '\n' !in d && SpaceRun(d) < |d| && d[SpaceRun(d)] != '['
  }

  /** The run of `[*]` lines ends with the line feed after the last of them, when what follows opens no item. */
  lemma {:induction false} StarRunStops(lines: seq<string>, rest: string)
    requires |lines| >= 1 && forall i :: 0 <= i < |lines| ==> IsStarLine(lines[i])
    requires !OpensItem(rest)
    ensures StarRun(Join(lines, '\n') + "\n" + rest) == |Join(lines, '\n')| + 1
    decreases |lines|
  {
    var t := Join(lines, '\n') + "\n" + rest;
    var first := lines[0];
    if |lines| == 1 {
      assert t == first + (['\n'] + rest);
      StarItemOf(first, ['\n'] + rest);
      assert t[|first| + 1..] == rest;
      assert StarItemLen(rest) == None;
    } else {
      var tail := Join(lines[1..], '\n') + "\n" + rest;
      assert t == first + (['\n'] + tail);
      StarItemOf(first, ['\n'] + tail);
      assert t[|first| + 1..] == tail;
      StarRunStops(lines[1..], rest);
    }
  }

  /** No run starts at a line of text, whatever follows it. */
  lemma TextLineNoRun(d: string, y: string)
    requires IsTextLine(d)
    ensures StarRun(d + y) == 0
  {
    var n := SpaceRun(d);
    TextLineStart(d, y);
    assert !StartsWith((d + y)[n..], "[*]");
  }

  lemma TextLineStart(d: string, y: string)
    requires IsTextLine(d)
    ensures SpaceRun(d + y) == SpaceRun(d) && (d + y)[SpaceRun(d)..][0] == d[SpaceRun(d)]
  {
    var n := SpaceRun(d);
    assert d + y == d[..n] + (d[n..] + y);
    SpaceRunOf(d[..n], d[n..] + y);
  }

  /** After a run, the `^` alternative no longer applies, and neither can it where no item opens. */
  lemma AfterRun(rest: string)
    requires !OpensItem(rest)
    ensures ReplaceAll(Some('\n'), rest, WrapMatcher()) == Replace(rest, WrapMatcher())
  {
    if rest != [] {
      assert StarItemLen(rest) == None;
      assert WrapMatch(Some('\n'), rest) == WrapMatch(None, rest);
    }
  }

  /** The wrap copies a line of text, then meets the line feed that opens a run. */
  lemma TextLineQuiet(d: string, y: string)
    requires IsTextLine(d)
    ensures Quiet(None, d, y, WrapMatcher())
  {
    forall i | 0 <= i < |d| ensures !Consumes(WrapMatch(PrevAt(None, d, i), d[i..] + y), d[i..] + y) {
      assert (d[i..] + y)[0] == d[i];
      if i == 0 {
        assert d[0..] == d;
        TextLineNoRun(d, y);
      }
    }
  }

  /**
   * A list after a line of text, with more text after it: the `\n`
   * alternative takes the line feed before the first item, and the run stops
   * after the line feed that ends the last item.
   */
  lemma WrapAfterLine(d: string, lines: seq<string>, rest: string)
    requires IsTextLine(d)
    requires |lines| >= 1 && forall i :: 0 <= i < |lines| ==> IsStarLine(lines[i])
    requires !OpensItem(rest)
    ensures Replace(d + "\n" + Join(lines, '\n') + "\n" + rest, WrapMatcher())
         == d + "\n" + Wrapped(Join(lines, '\n')) + Replace(rest, WrapMatcher())
  {
    var j := Join(lines, '\n');
    var y := "\n" + j + "\n" + rest;
    TextLineQuiet(d, y);
    StarRunStops(lines, rest);
    RunThen(d[|d| - 1], j, rest);
    CopyThen(None, d, y, WrapMatcher(), "\n" + Wrapped(j) + Replace(rest, WrapMatcher()));
    Regroup4(d, j, rest);
    Regroup4(d, Wrapped(j), Replace(rest, WrapMatcher()));
  }

  lemma Regroup4(d: string, j: string, rest: string)
    ensures d + "\n" + j + "\n" + rest == d + ("\n" + j + "\n" + rest)
    ensures d + "\n" + j + rest == d + ("\n" + j + rest)
  {
  }

  /** The `\n` alternative: a line feed, then a run of `k` characters of `[*]` lines. */
  lemma WrapAtFeed(prev: Option<char>, t: string, k: nat)
    requires t != [] && t[0] == '\n' && StarRun(t[1..]) == k && k > 0
    ensures WrapMatcher()(prev, t) == Some(Match(1 + k, "\n" + Wrapped(t[1..1 + k])))
  {
  }

  /** The line feed before a run of `[*]` lines that ends with a line feed, and text after it. */
  lemma RunThen(c: char, j: string, rest: string)
    requires StarRun(j + "\n" + rest) == |j| + 1 && !OpensItem(rest)
    ensures ReplaceAll(Some(c), "\n" + j + "\n" + rest, WrapMatcher()) == "\n" + Wrapped(j) + Replace(rest, WrapMatcher())
  {
    RunStep(c, j, rest);
    WrappedFeed(j);
    AfterRun(rest);
  }

  lemma RunStep(c: char, j: string, rest: string)
    requires StarRun(j + "\n" + rest) == |j| + 1
    ensures ReplaceAll(Some(c), "\n" + j + "\n" + rest, WrapMatcher())
         == "\n" + Wrapped(j + "\n") + ReplaceAll(Some('\n'), rest, WrapMatcher())
  {
    FeedParts(j, rest);
    RunAt(c, "\n" + j + "\n" + rest, |j| + 1);
  }

  lemma FeedParts(j: string, rest: string)
    ensures ("\n" + j + "\n" + rest)[1..] == j + "\n" + rest
    ensures ("\n" + j + "\n" + rest)[1..|j| + 2] == j + "\n"
    ensures ("\n" + j + "\n" + rest)[|j| + 1] == '\n'
    ensures ("\n" + j + "\n" + rest)[|j| + 2..] == rest
  {
  }

  /** The `\n` alternative matches a line feed and the run after it, and the scan goes on after the run. */
  lemma RunAt(c: char, t: string, k: nat)
    requires t != [] && t[0] == '\n' && StarRun(t[1..]) == k && k > 0
    ensures ReplaceAll(Some(c), t, WrapMatcher()) == "\n" + Wrapped(t[1..1 + k]) + ReplaceAll(Some(t[k]), t[1 + k..], WrapMatcher())
  {
    WrapAtFeed(Some(c), t, k);
  }

  /** The line feed that ends the run is trimmed away. */
  lemma WrappedFeed(j: string)
    ensures Wrapped(j + "\n") == Wrapped(j)
  {
    TrimAppendSpace(j, "\n");
  }

  /** The line feed before a run of `[*]` lines that ends the text. */
  lemma {:induction false} RunLast(c: char, j: string)
    requires StarRun(j) == |j| && j != []
    ensures ReplaceAll(Some(c), "\n" + j, WrapMatcher()) == "\n" + Wrapped(j)
  {
    LastParts(j);
    RunToEnd(c, "\n" + j);
  }

  lemma RunToEnd(c: char, x: string)
    requires |x| > 1 && x[0] == '\n' && StarRun(x[1..]) == |x| - 1
    ensures ReplaceAll(Some(c), x, WrapMatcher()) == "\n" + Wrapped(x[1..])
  {
    FeedToEnd(c, x);
    MatchLast(Some(c), x, WrapMatcher(), "\n" + Wrapped(x[1..]));
  }

  lemma FeedToEnd(c: char, x: string)
    requires |x| > 1 && x[0] == '\n' && StarRun(x[1..]) == |x| - 1
    ensures WrapMatcher()(Some(c), x) == Some(Match(|x|, "\n" + Wrapped(x[1..])))
  {
    var k := |x| - 1;
    var j := x[1..];
    assert x[1..1 + k] == j;
    WrapAtFeed(Some(c), x, k);
  }

  lemma LastParts(j: string)
    ensures |"\n" + j| == 1 + |j| && ("\n" + j)[0] == '\n'
    ensures ("\n" + j)[1..] == j && ("\n" + j)[1..1 + |j|] == j
  {
  }

  /** A list that ends the text after a line of text: the run takes every item line. */
  lemma WrapLastAfterLine(d: string, lines: seq<string>)
    requires IsTextLine(d)
    requires |lines| >= 1 && forall i :: 0 <= i < |lines| ==> IsStarLine(lines[i])
    ensures Replace(d + "\n" + Join(lines, '\n'), WrapMatcher()) == d + "\n" + Wrapped(Join(lines, '\n'))
  {
    var j := Join(lines, '\n');
    var y := "\n" + j;
    TextLineQuiet(d, y);
    StarRunJoin(lines);
    StarJoinStart(lines);
    RunLast(d[|d| - 1], j);
    CopyThen(None, d, y, WrapMatcher(), "\n" + Wrapped(j));
    Regroup(d, "\n", j);
    Regroup(d, "\n", Wrapped(j));
  }

  /** An item rewritten with `[*]`. */
  lemma StarShape(ind: string, text: string)
    requires AllSpace(ind) && NoTerminator(ind) && Ends(text)
    ensures IsStarLine(ind + "[*] " + text) && Standalone(Number, ind + "[*] " + text)
    ensures ItemLine(Number, Star, ind + "[*] " + text) == ind + "[*] " + text
  {
    var b := ind + "[*] " + text;
    var k := |ind|;
    assert b == ind + ("[*] " + text);
    SpaceRunOf(ind, "[*] " + text);
    assert b[k..][..3] == "[*]";
    assert NoTerminator(b) by {
      forall i | 0 <= i < |b| ensures !IsTerminator(b[i]) {
        if i < k { assert b[i] == ind[i]; }
        else if i >= k + 4 { assert b[i] == text[i - k - 4]; }
      }
    }
    assert '\n' !in b;
    assert b[|b| - 1] == text[|text| - 1];
    assert b[k..][0] == '[';
    assert DigitRun(b[k..]) == 0;
    assert HeadLen(Number, b, k) == None;
    LineItemIs(Number, b, k, None);
  }

  /** A bullet item line after both passes. */
  lemma StarOfBullet(line: string)
    requires Standalone(Bullet, line) && IsItem(Bullet, line)
    ensures Standalone(Number, ItemLine(Bullet, Star, line)) && IsStarLine(StarLine(line))
    ensures Ends(StarLine(line)) && (SpaceRun(line) == 0 ==> StarLine(line)[0] == '[')
  {
    var ind, text := LineItemParts(Bullet, line);
    TextEnds(line, text);
    StarShape(ind, text);
  }

  /** A numbered item line after both passes. */
  lemma StarOfNumber(line: string)
    requires Standalone(Number, line) && IsItem(Number, line) && !IsItem(Bullet, line)
    ensures ItemLine(Bullet, Star, line) == line && IsStarLine(StarLine(line))
    ensures Ends(StarLine(line)) && (SpaceRun(line) == 0 ==> StarLine(line)[0] == '[')
  {
    var ind, text := LineItemParts(Number, line);
    TextEnds(line, text);
    StarShape(ind, text);
  }

  /** Trim keeps text that starts and ends with something other than whitespace. */
  lemma TrimKeeps(s: string)
    requires s != [] && !IsSpace(s[0]) && !IsSpace(s[|s| - 1])
    ensures Trim(s) == s
  {
    assert SpaceRun(s) == 0;
    assert TrailingSpace(s) == 0;
    assert s[0..] == s && s[..|s| - 0] == s;
  }

  /**
   * A text made of bullet and numbered item lines becomes one `[list]`
   * block holding the lines rewritten with `[*]`, trimmed as a whole.
   */
  lemma TraditionalBlock(lines: seq<string>)
    requires |lines| >= 1
    requires forall i :: 0 <= i < |lines| ==>
      Standalone(Bullet, lines[i]) && Standalone(Number, lines[i]) && IsListLine(lines[i])
    ensures Traditional(Join(lines, '\n')) ==
      Wrapped(Join(seq(|lines|, i requires 0 <= i < |lines| => StarLine(lines[i])), '\n'))
  {
    var mid := seq(|lines|, i requires 0 <= i < |lines| => ItemLine(Bullet, Star, lines[i]));
    var fin := seq(|lines|, i requires 0 <= i < |lines| => StarLine(lines[i]));
    ItemsByLine(Bullet, Star, lines);
    forall i | 0 <= i < |lines| ensures Standalone(Number, mid[i]) && IsStarLine(fin[i]) {
      if IsItem(Bullet, lines[i]) {
        StarOfBullet(lines[i]);
      } else {
        StarOfNumber(lines[i]);
      }
    }
    ItemsByLine(Number, Star, mid);
    assert seq(|mid|, i requires 0 <= i < |mid| => ItemLine(Number, Star, mid[i])) == fin;
    WrapWhole(fin);
  }

  /** What both item passes make of each line. */
  function StarLines(lines: seq<string>): (r: seq<string>)
    ensures |r| == |lines| && forall i :: 0 <= i < |lines| ==> r[i] == StarLine(lines[i])
  {
    seq(|lines|, i requires 0 <= i < |lines| => StarLine(lines[i]))
  }

  /** A line that either item pass treats on its own. */
  predicate BothStandalone(line: string) {
    Standalone(Bullet, line) && Standalone(Number, line)
  }

  /** The two item passes work line by line. */
  lemma ItemPasses(xs: seq<string>)
    requires |xs| >= 1 && forall i :: 0 <= i < |xs| ==> BothStandalone(xs[i])
    ensures Items.Items(Items.Items(Join(xs, '\n'), Bullet, Star), Number, Star) == Join(StarLines(xs), '\n')
  {
    var mid := seq(|xs|, i requires 0 <= i < |xs| => ItemLine(Bullet, Star, xs[i]));
    ItemsByLine(Bullet, Star, xs);
    forall i | 0 <= i < |xs| ensures Standalone(Number, mid[i]) {
      if IsItem(Bullet, xs[i]) {
        StarOfBullet(xs[i]);
      }
    }
    ItemsByLine(Number, Star, mid);
    assert seq(|mid|, i requires 0 <= i < |mid| => ItemLine(Number, Star, mid[i])) == StarLines(xs);
  }

  /** A list item of either kind becomes a `[*]` line. */
  lemma StarOfItem(line: string)
    requires BothStandalone(line) && IsListLine(line)
    ensures IsStarLine(StarLine(line))
  {
    if IsItem(Bullet, line) {
      StarOfBullet(line);
    } else {
      StarOfNumber(line);
    }
  }

  /**
   * A list after a line of text: the line is kept, the items become one
   * `[list]` block, and the lines after the list, when the first of them does
   * not continue the list, are converted as if they stood alone.
   */
  lemma TraditionalAfterLine(d: string, lines: seq<string>, post: seq<string>)
    requires BothStandalone(d) && IsTextLine(d) && !IsListLine(d)
    requires |lines| >= 1 && forall i :: 0 <= i < |lines| ==> BothStandalone(lines[i]) && IsListLine(lines[i])
    requires forall i :: 0 <= i < |post| ==> BothStandalone(post[i])
    requires !OpensItem(Join(StarLines(post), '\n'))
    ensures Traditional(Join([d] + lines + post, '\n'))
         == d + "\n" + Wrapped(Join(StarLines(lines), '\n')) + (if post == [] then [] else Traditional(Join(post, '\n')))
  {
    if post == [] {
      assert [d] + lines + post == [d] + lines;
      ListEndsText(d, lines);
    } else {
      ListThenText(d, lines, post);
    }
  }

  lemma ListEndsText(d: string, lines: seq<string>)
    requires BothStandalone(d) && IsTextLine(d) && !IsListLine(d)
    requires |lines| >= 1 && forall i :: 0 <= i < |lines| ==> BothStandalone(lines[i]) && IsListLine(lines[i])
    ensures Traditional(Join([d] + lines, '\n')) == d + "\n" + Wrapped(Join(StarLines(lines), '\n'))
  {
    var sl := StarLines(lines);
    AroundListEnd(d, lines);
    JoinAppend([d], sl, '\n');
    assert Join([d], '\n') == d;
    WrapLastAfterLine(d, sl);
  }

  /** Both item passes over a line of text and a list that ends the text. */
  lemma AroundListEnd(d: string, lines: seq<string>)
    requires BothStandalone(d) && !IsListLine(d)
    requires |lines| >= 1 && forall i :: 0 <= i < |lines| ==> BothStandalone(lines[i]) && IsListLine(lines[i])
    ensures Items.Items(Items.Items(Join([d] + lines, '\n'), Bullet, Star), Number, Star)
         == Join([d] + StarLines(lines), '\n')
    ensures forall i :: 0 <= i < |lines| ==> IsStarLine(StarLines(lines)[i])
  {
    AroundList(d, lines, []);
    assert [d] + lines + [] == [d] + lines;
    assert [d] + StarLines(lines) + StarLines([]) == [d] + StarLines(lines);
  }

  lemma ListThenText(d: string, lines: seq<string>, post: seq<string>)
    requires BothStandalone(d) && IsTextLine(d) && !IsListLine(d)
    requires |lines| >= 1 && forall i :: 0 <= i < |lines| ==> BothStandalone(lines[i]) && IsListLine(lines[i])
    requires |post| >= 1 && forall i :: 0 <= i < |post| ==> BothStandalone(post[i])
    requires !OpensItem(Join(StarLines(post), '\n'))
    ensures Traditional(Join([d] + lines + post, '\n'))
         == d + "\n" + Wrapped(Join(StarLines(lines), '\n')) + Traditional(Join(post, '\n'))
  {
    var sl := StarLines(lines);
    var sp := StarLines(post);
    var j := Join(sl, '\n');
    var r := Join(sp, '\n');
    AroundList(d, lines, post);
    JoinThree(d, sl, sp);
    WrapAfterLine(d, sl, r);
    ItemPasses(post);
  }

  /** A line, then two non-empty runs of lines, joined. */
  lemma JoinThree(d: string, a: seq<string>, b: seq<string>)
    requires |a| >= 1 && |b| >= 1
    ensures Join([d] + a + b, '\n') == d + "\n" + Join(a, '\n') + "\n" + Join(b, '\n')
  {
    var ja := Join(a, '\n');
    var jb := Join(b, '\n');
    assert [d] + a + b == [d] + (a + b);
    JoinAppend([d], a + b, '\n');
    JoinAppend(a, b, '\n');
    assert Join([d], '\n') == d;
    calc {
      Join([d] + a + b, '\n');
      Join([d] + (a + b), '\n');
      d + ['\n'] + Join(a + b, '\n');
      d + ['\n'] + (ja + ['\n'] + jb);
      { Between(d, ja, jb); }
      d + "\n" + ja + "\n" + jb;
    }
  }

  /** Both item passes over a line of text, a list, and what follows it. */
  lemma AroundList(d: string, lines: seq<string>, post: seq<string>)
    requires BothStandalone(d) && !IsListLine(d)
    requires |lines| >= 1 && forall i :: 0 <= i < |lines| ==> BothStandalone(lines[i]) && IsListLine(lines[i])
    requires forall i :: 0 <= i < |post| ==> BothStandalone(post[i])
    ensures Items.Items(Items.Items(Join([d] + lines + post, '\n'), Bullet, Star), Number, Star)
         == Join([d] + StarLines(lines) + StarLines(post), '\n')
    ensures forall i :: 0 <= i < |lines| ==> IsStarLine(StarLines(lines)[i])
  {
    var all := [d] + lines + post;
    AllStandalone(d, lines, post);
    ItemPasses(all);
    StarLinesAround(d, lines, post);
    forall i | 0 <= i < |lines| ensures IsStarLine(StarLines(lines)[i]) {
      StarOfItem(lines[i]);
    }
  }

  lemma AllStandalone(d: string, lines: seq<string>, post: seq<string>)
    requires BothStandalone(d)
    requires forall i :: 0 <= i < |lines| ==> BothStandalone(lines[i])
    requires forall i :: 0 <= i < |post| ==> BothStandalone(post[i])
    ensures forall i :: 0 <= i < |[d] + lines + post| ==> BothStandalone(([d] + lines + post)[i])
  {
    var all := [d] + lines + post;
    forall i | 0 <= i < |all| ensures BothStandalone(all[i]) {
      if 1 <= i < 1 + |lines| {
        assert all[i] == lines[i - 1];
      } else if i >= 1 + |lines| {
        assert all[i] == post[i - 1 - |lines|];
      }
    }
  }

  lemma StarLinesAround(d: string, lines: seq<string>, post: seq<string>)
    requires !IsListLine(d)
    ensures StarLines([d] + lines + post) == [d] + StarLines(lines) + StarLines(post)
  {
    assert StarLine(d) == d;
  }

  /** Without indent on the first item, the block keeps every character of the lines. */
  lemma TraditionalFlat(lines: seq<string>)
    requires |lines| >= 1 && SpaceRun(lines[0]) == 0
    requires forall i :: 0 <= i < |lines| ==>
      Standalone(Bullet, lines[i]) && Standalone(Number, lines[i]) && IsListLine(lines[i])
    ensures Traditional(Join(lines, '\n')) ==
      "[list]\n" + Join(seq(|lines|, i requires 0 <= i < |lines| => StarLine(lines[i])), '\n') + "\n[/list]\n"
  {
    TraditionalBlock(lines);
    var fin := seq(|lines|, i requires 0 <= i < |lines| => StarLine(lines[i]));
    forall i | 0 <= i < |lines| ensures Ends(fin[i]) && (i == 0 ==> fin[i][0] == '[') {
      if IsItem(Bullet, lines[i]) {
        StarOfBullet(lines[i]);
      } else {
        StarOfNumber(lines[i]);
      }
    }
    JoinEnds(fin);
    TrimKeeps(Join(fin, '\n'));
  }

  /** The first and last characters of a join of non-empty strings. */
  lemma {:induction false} JoinEnds(xs: seq<string>)
    requires |xs| >= 1 && forall i :: 0 <= i < |xs| ==> xs[i] != []
    ensures Join(xs, '\n') != []
    ensures Join(xs, '\n')[0] == xs[0][0]
    ensures Join(xs, '\n')[|Join(xs, '\n')| - 1] == xs[|xs| - 1][|xs[|xs| - 1]| - 1]
    decreases |xs|
  {
    if |xs| > 1 {
      JoinEnds(xs[1..]);
      var j := Join(xs, '\n');
      var rest := Join(xs[1..], '\n');
      assert j == xs[0] + ['\n'] + rest;
      assert j[|j| - 1] == rest[|rest| - 1];
    }
  }
}
