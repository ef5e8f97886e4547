/**
 * JavaScript's `String.prototype.replace` with a global regular expression.
 *
 * The scan tries the pattern at every position from left to right; where it
 * matches, the replacement is emitted and scanning resumes after the match,
 * otherwise the character is copied. A pattern is modelled by a hand-written
 * `Matcher` that tries it at the start of the remaining text `t`, given the
 * character `prev` just before `t` in the original input (`None` at the start
 * of the input). `prev` is all that `^`, a lookbehind and `\b` need to see;
 * everything they look at is the original input, never the partial output.
 */
module Scanner {
  import opened Wrappers
  import opened Text

  /** A match at the start of the remaining text: its length and its replacement. */
  datatype Match = Match(len: nat, out: string)

  type Matcher = (Option<char>, string) -> Option<Match>

  /** The matcher found a non-empty match inside `t`. */
  predicate Consumes(m: Option<Match>, t: string) {
    m.Some? && 0 < m.value.len <= |t|
  }

  function ReplaceAll(prev: Option<char>, t: string, f: Matcher): string
    decreases |t|
  {
    if t == [] then []
    else
      var m := f(prev, t);
      if Consumes(m, t) then m.value.out + ReplaceAll(Some(t[m.value.len - 1]), t[m.value.len..], f)
      else [t[0]] + ReplaceAll(Some(t[0]), t[1..], f)
  }

  /** `s.replace(/pattern/g, …)` for the pattern `f` stands for. */
  function Replace(s: string, f: Matcher): string {
    ReplaceAll(None, s, f)
  }

  /** `^` under the `m` flag: at the start of the input or just after a line terminator. */
  predicate AtLineStart(prev: Option<char>) {
    prev.None? || IsTerminator(prev.value)
  }

  /** The matcher only ever matches text that holds one of the characters `xs`. */
  ghost predicate NeedsOneOf(f: Matcher, xs: set<char>) {
    forall prev, t :: Avoids(t, xs) ==> !Consumes(f(prev, t), t)
  }

  /** A pattern that needs one of `xs` leaves text without them unchanged. */
  lemma {:induction false} Unchanged(prev: Option<char>, t: string, f: Matcher, xs: set<char>)
    requires NeedsOneOf(f, xs) && Avoids(t, xs)
    ensures ReplaceAll(prev, t, f) == t
    decreases |t|
  {
    if t != [] {
      assert !Consumes(f(prev, t), t);
      assert Avoids(t[1..], xs);
      Unchanged(Some(t[0]), t[1..], f, xs);
      assert t == [t[0]] + t[1..];
    }
  }

  /** A match that spans exactly the prefix `x`. */
  lemma MatchStep(prev: Option<char>, x: string, y: string, f: Matcher, out: string)
    requires x != [] && f(prev, x + y) == Some(Match(|x|, out))
    ensures ReplaceAll(prev, x + y, f) == out + ReplaceAll(Some(x[|x| - 1]), y, f)
  {
    assert (x + y)[|x|..] == y;
    assert (x + y)[|x| - 1] == x[|x| - 1];
  }

  /** A match that takes the whole remaining text ends the scan. */
  lemma MatchLast(prev: Option<char>, x: string, f: Matcher, out: string)
    requires x != [] && f(prev, x) == Some(Match(|x|, out))
    ensures ReplaceAll(prev, x, f) == out
  {
    assert x[|x|..] == [];
  }

  /** A character where nothing matches is copied. */
  lemma CopyStep(prev: Option<char>, c: char, y: string, f: Matcher)
    requires !Consumes(f(prev, [c] + y), [c] + y)
    ensures ReplaceAll(prev, [c] + y, f) == [c] + ReplaceAll(Some(c), y, f)
  {
    assert ([c] + y)[1..] == y;
  }

  /** The character before position `i` of `x`, when `x` follows `prev`. */
  function PrevAt(prev: Option<char>, x: string, i: nat): Option<char>
    requires i <= |x|
  {
    if i == 0 then prev else Some(x[i - 1])
  }

  /** Nothing matches at any position of `x` when `x` is followed by `y`. */
  ghost predicate Quiet(prev: Option<char>, x: string, y: string, f: Matcher) {
    forall i :: 0 <= i < |x| ==> !Consumes(f(PrevAt(prev, x, i), x[i..] + y), x[i..] + y)
  }

  /** A stretch where nothing matches is copied through. */
  lemma {:induction false} CopyRun(prev: Option<char>, x: string, y: string, f: Matcher)
    requires Quiet(prev, x, y, f)
    ensures ReplaceAll(prev, x + y, f) == x + ReplaceAll(PrevAt(prev, x, |x|), y, f)
    decreases |x|
  {
    if x == [] {
      assert x + y == y;
    } else {
      assert x[0..] + y == x + y;
      assert !Consumes(f(prev, x + y), x + y);
      assert (x + y)[1..] == x[1..] + y;
      forall i | 0 <= i < |x[1..]|
        ensures !Consumes(f(PrevAt(Some(x[0]), x[1..], i), x[1..][i..] + y), x[1..][i..] + y)
      {
        assert x[1..][i..] == x[i + 1..];
        assert PrevAt(Some(x[0]), x[1..], i) == PrevAt(prev, x, i + 1);
      }
      CopyRun(Some(x[0]), x[1..], y, f);
      assert PrevAt(Some(x[0]), x[1..], |x[1..]|) == PrevAt(prev, x, |x|);
      calc {
        ReplaceAll(prev, x + y, f);
        [x[0]] + ReplaceAll(Some(x[0]), x[1..] + y, f);
        [x[0]] + (x[1..] + ReplaceAll(PrevAt(prev, x, |x|), y, f));
        { assert x == [x[0]] + x[1..]; }
        x + ReplaceAll(PrevAt(prev, x, |x|), y, f);
      }
    }
  }

  /**
   * For a matcher that ignores what precedes the text: a quiet stretch `d`,
   * then a match spanning exactly `x`, then the rest rewritten on its own.
   */
  lemma SplitAt(f: Matcher, d: string, x: string, rest: string, out: string)
    requires IgnoresPrev(f) && x != []
    requires Quiet(None, d, x + rest, f) && f(None, x + rest) == Some(Match(|x|, out))
    ensures Replace(d + x + rest, f) == d + out + Replace(rest, f)
  {
    var p := PrevAt(None, d, |d|);
    assert d + x + rest == d + (x + rest);
    CopyRun(None, d, x + rest, f);
    assert f(p, x + rest) == f(None, x + rest);
    MatchStep(p, x, rest, f, out);
    PrevFree(Some(x[|x| - 1]), None, rest, f);
  }

  /** A quiet stretch `d`, then text whose rewriting is known: the stretch is copied in front of it. */
  lemma CopyThen(prev: Option<char>, d: string, y: string, f: Matcher, out: string)
    requires Quiet(prev, d, y, f) && ReplaceAll(PrevAt(prev, d, |d|), y, f) == out
    ensures ReplaceAll(prev, d + y, f) == d + out
  {
    CopyRun(prev, d, y, f);
  }

  /** The matcher never looks at the character before the text. */
  ghost predicate IgnoresPrev(f: Matcher) {
    forall p, q, t :: f(p, t) == f(q, t)
  }

  lemma {:induction false} PrevFree(p: Option<char>, q: Option<char>, t: string, f: Matcher)
    requires IgnoresPrev(f)
    ensures ReplaceAll(p, t, f) == ReplaceAll(q, t, f)
    decreases |t|
  {
    if t != [] {
      assert f(p, t) == f(q, t);
      var m := f(p, t);
      if Consumes(m, t) {
        PrevFree(Some(t[m.value.len - 1]), Some(t[m.value.len - 1]), t[m.value.len..], f);
      } else {
        PrevFree(Some(t[0]), Some(t[0]), t[1..], f);
      }
    }
  }

  /**
   * The matcher sees only the current line: a match never reaches past a
   * line terminator, and what follows the terminator does not change it.
   */
  ghost predicate LineLocal(f: Matcher) {
    (forall prev, t :: f(prev, t).Some? ==> f(prev, t).value.len <= |t|)
    && (forall prev, a, y :: y != [] && IsTerminator(y[0]) ==> f(prev, a + y) == f(prev, a))
  }

  /** A line-local rewrite of `a + x + b`, for a terminator `x`, is the rewrite of `a` and of `b`. */
  lemma {:induction false} LinesApart(prev: Option<char>, a: string, x: char, b: string, f: Matcher)
    requires LineLocal(f) && IsTerminator(x)
    ensures ReplaceAll(prev, a + [x] + b, f) == ReplaceAll(prev, a, f) + [x] + ReplaceAll(Some(x), b, f)
    decreases |a|
  {
    var y := [x] + b;
    var t := a + y;
    assert a + [x] + b == t;
    assert f(prev, t) == f(prev, a);
    if a == [] {
      assert t == y && t[1..] == b;
    } else if Consumes(f(prev, a), a) {
      var n := f(prev, a).value.len;
      var out := f(prev, a).value.out;
      assert t[n..] == a[n..] + [x] + b;
      assert t[n - 1] == a[n - 1];
      LinesApart(Some(a[n - 1]), a[n..], x, b, f);
      var r := ReplaceAll(Some(a[n - 1]), a[n..], f);
      var tail := ReplaceAll(Some(x), b, f);
      assert out + (r + [x] + tail) == (out + r) + [x] + tail;
    } else {
      assert t[1..] == a[1..] + [x] + b;
      LinesApart(Some(a[0]), a[1..], x, b, f);
      var r := ReplaceAll(Some(a[0]), a[1..], f);
      var tail := ReplaceAll(Some(x), b, f);
      assert [a[0]] + (r + [x] + tail) == ([a[0]] + r) + [x] + tail;
    }
  }

  /**
   * On the stretch `a` followed by `y`, every attempt of the matcher gives the
   * same result as on `a` alone and no match runs past the end of `a`.
   */
  ghost predicate StaysOnLine(f: Matcher, prev: Option<char>, a: string, y: string) {
    forall i :: 0 <= i <= |a| ==>
      f(PrevAt(prev, a, i), a[i..] + y) == f(PrevAt(prev, a, i), a[i..])
      && (f(PrevAt(prev, a, i), a[i..]).Some? ==> f(PrevAt(prev, a, i), a[i..]).value.len <= |a| - i)
  }

  /** Nothing matches in `y` right after the stretch. */
  lemma StaysAtEnd(f: Matcher, prev: Option<char>, a: string, y: string)
    requires StaysOnLine(f, prev, a, y)
    ensures !Consumes(f(PrevAt(prev, a, |a|), y), y)
  {
    assert a[|a|..] + y == y;
    assert a[|a|..] == [];
  }

  /** The first attempt on `a + y` is the attempt on `a`. */
  lemma StaysAtStart(f: Matcher, prev: Option<char>, a: string, y: string)
    requires StaysOnLine(f, prev, a, y)
    ensures f(prev, a + y) == f(prev, a)
    ensures f(prev, a).Some? ==> f(prev, a).value.len <= |a|
  {
    assert a[0..] == a;
    assert PrevAt(prev, a, 0) == prev;
  }

  /** The stretch keeps the property past its first `n` characters. */
  lemma StaysShift(f: Matcher, prev: Option<char>, a: string, y: string, n: nat)
    requires StaysOnLine(f, prev, a, y) && 0 < n <= |a|
    ensures StaysOnLine(f, Some(a[n - 1]), a[n..], y)
    ensures PrevAt(Some(a[n - 1]), a[n..], |a[n..]|) == PrevAt(prev, a, |a|)
  {
    forall i | 0 <= i <= |a[n..]|
      ensures f(PrevAt(Some(a[n - 1]), a[n..], i), a[n..][i..] + y) == f(PrevAt(Some(a[n - 1]), a[n..], i), a[n..][i..])
      ensures f(PrevAt(Some(a[n - 1]), a[n..], i), a[n..][i..]).Some? ==>
              f(PrevAt(Some(a[n - 1]), a[n..], i), a[n..][i..]).value.len <= |a[n..]| - i
    {
      assert a[n..][i..] == a[n + i..];
      assert PrevAt(Some(a[n - 1]), a[n..], i) == PrevAt(prev, a, n + i);
    }
  }

  /** Then the rewrite of `a + y` is the rewrite of `a` followed by the rewrite of `y`. */
  lemma {:induction false} LineApart(prev: Option<char>, a: string, y: string, f: Matcher)
    requires StaysOnLine(f, prev, a, y)
    ensures ReplaceAll(prev, a + y, f) == ReplaceAll(prev, a, f) + ReplaceAll(PrevAt(prev, a, |a|), y, f)
    decreases |a|
  {
    if a == [] {
      assert a + y == y;
    } else {
      var t := a + y;
      StaysAtStart(f, prev, a, y);
      var m := f(prev, a);
      if Consumes(m, a) {
        var n := m.value.len;
        assert t[n..] == a[n..] + y;
        assert t[n - 1] == a[n - 1];
        StaysShift(f, prev, a, y, n);
        LineApart(Some(a[n - 1]), a[n..], y, f);
        Regroup(m.value.out, ReplaceAll(Some(a[n - 1]), a[n..], f), ReplaceAll(PrevAt(prev, a, |a|), y, f));
      } else {
        assert t[1..] == a[1..] + y;
        StaysShift(f, prev, a, y, 1);
        LineApart(Some(a[0]), a[1..], y, f);
        Regroup([a[0]], ReplaceAll(Some(a[0]), a[1..], f), ReplaceAll(PrevAt(prev, a, |a|), y, f));
      }
    }
  }

  lemma Regroup(x: string, y: string, z: string)
    ensures x + (y + z) == (x + y) + z
  {
  }

  /** The matcher looks at the character before the text only to tell whether a line starts there. */
  ghost predicate SeesOnlyLineStart(f: Matcher) {
    forall p, q, t :: AtLineStart(p) == AtLineStart(q) ==> f(p, t) == f(q, t)
  }

  lemma SameLineStart(p: Option<char>, q: Option<char>, t: string, f: Matcher)
    requires SeesOnlyLineStart(f) && AtLineStart(p) == AtLineStart(q)
    ensures ReplaceAll(p, t, f) == ReplaceAll(q, t, f)
  {
    if t != [] {
      assert f(p, t) == f(q, t);
    }
  }

  /** What the matcher does on the line `a` never depends on the next line, whatever precedes `a`. */
  ghost predicate Confined(f: Matcher, a: string) {
    forall p, y :: (y == [] || IsTerminator(y[0])) ==> StaysOnLine(f, p, a, y)
  }

  /** The rewrite applied to each line on its own. */
  function EachLine(lines: seq<string>, f: Matcher): (r: seq<string>)
    ensures |r| == |lines|
    ensures forall i :: 0 <= i < |lines| ==> r[i] == Replace(lines[i], f)
  {
    if lines == [] then [] else [Replace(lines[0], f)] + EachLine(lines[1..], f)
  }

  /** A rewrite confined to lines, applied to lines joined by line feeds, rewrites each line on its own. */
  lemma {:induction false} ReplaceLines(lines: seq<string>, f: Matcher)
    requires |lines| >= 1 && SeesOnlyLineStart(f)
    requires forall i :: 0 <= i < |lines| ==> Confined(f, lines[i])
    ensures Replace(Join(lines, '\n'), f) == Join(EachLine(lines, f), '\n')
    decreases |lines|
  {
    if |lines| > 1 {
      var a := lines[0];
      var rest := Join(lines[1..], '\n');
      var y := "\n" + rest;
      assert Join(lines, '\n') == a + y;
      assert StaysOnLine(f, None, a, y);
      LineApart(None, a, y, f);
      StaysAtEnd(f, None, a, y);
      assert y[1..] == rest;
      SameLineStart(Some('\n'), None, rest, f);
      ReplaceLines(lines[1..], f);
      assert EachLine(lines, f)[1..] == EachLine(lines[1..], f);
    }
  }

  /** Replacement of a fixed string, as `/\[\/quote\]\n\[quote\]/g` does. */
  function Literal(pat: string, rep: string): Matcher {
    (prev: Option<char>, t: string) => if pat != [] && StartsWith(t, pat) then Some(Match(|pat|, rep)) else None
  }

  function LineEnd(t: string, i: nat): (e: nat)
    requires i <= |t|
    ensures i <= e <= |t| && NoTerminator(t[i..e]) && (e < |t| ==> IsTerminator(t[e]))
  {
    assert t[i..][..LineLen(t[i..])] == t[i..i + LineLen(t[i..])];
    i + LineLen(t[i..])
  }

  /**
   * `(.+)$` can begin at `cs`, after whitespace that started at `a` and is at
   * least `minWs` long: the capture is non-empty and runs to the end of the
   * line, which under the `m` flag may be a terminator and without it must be
   * the end of the input.
   */
  ghost predicate TailAt(t: string, a: nat, minWs: nat, multiline: bool, cs: nat) {
    a + minWs <= cs < |t| && AllSpace(t[a..cs]) && !IsTerminator(t[cs])
    && (multiline || LineEnd(t, cs) == |t|)
  }

  /** The backtracking of the greedy whitespace run: candidate starts `e`, `e - 1`, … */
  function TailFrom(t: string, a: nat, minWs: nat, multiline: bool, e: nat): (r: Option<nat>)
    requires a <= e <= |t| && AllSpace(t[a..e])
    requires forall cs :: e < cs <= |t| ==> !TailAt(t, a, minWs, multiline, cs)
    ensures r.Some? ==> TailAt(t, a, minWs, multiline, r.value)
    ensures r.Some? ==> forall cs :: r.value < cs <= |t| ==> !TailAt(t, a, minWs, multiline, cs)
    ensures r.None? ==> forall cs :: !TailAt(t, a, minWs, multiline, cs)
    decreases e
  {
    if e < a + minWs then None
    else if e < |t| && !IsTerminator(t[e]) && (multiline || LineEnd(t, e) == |t|) then Some(e)
    else if e == a then None
    else
      assert t[a..e - 1] == t[a..e][..e - 1 - a];
      TailFrom(t, a, minWs, multiline, e - 1)
  }

  /**
   * `\s+(.+)$` (minWs = 1) or `\s*(.+)$` (minWs = 0) at position `a`: the start
   * of the capture, which is the latest start the pattern admits, since the
   * whitespace run is greedy and gives back one character at a time.
   */
  function Tail(t: string, a: nat, minWs: nat, multiline: bool): (r: Option<nat>)
    requires a <= |t|
    ensures r.Some? ==> TailAt(t, a, minWs, multiline, r.value)
    ensures r.Some? ==> forall cs :: r.value < cs <= |t| ==> !TailAt(t, a, minWs, multiline, cs)
    ensures r.None? ==> forall cs :: !TailAt(t, a, minWs, multiline, cs)
  {
    var n := SpaceRun(t[a..]);
    assert t[a..a + n] == t[a..][..n];
    forall cs | a + n < cs <= |t| ensures !TailAt(t, a, minWs, multiline, cs) {
      assert t[a..cs][n] == t[a + n];
    }
    TailFrom(t, a, minWs, multiline, a + n)
  }

  /** On a line `pre + body` whose `pre` ends in whitespace from `a`, the tail pattern captures exactly `body`. */
  lemma TailOfLine(pre: string, body: string, rest: string, a: nat, minWs: nat, multiline: bool)
    requires a + minWs <= |pre| && AllSpace(pre[a..])
    requires body != [] && !IsSpace(body[0]) && NoTerminator(body)
    requires rest == [] || (multiline && IsTerminator(rest[0]))
    ensures Tail(pre + body + rest, a, minWs, multiline) == Some(|pre|)
    ensures LineEnd(pre + body + rest, |pre|) == |pre| + |body|
  {
    var t := pre + body + rest;
    var cs := |pre|;
    assert t[cs..] == body + rest;
    LineLenOf(body, rest);
    assert t[a..cs] == pre[a..];
    assert TailAt(t, a, minWs, multiline, cs);
    forall c | cs < c <= |t| ensures !TailAt(t, a, minWs, multiline, c) {
      if c < |t| { assert t[a..c][cs - a] == body[0]; }
    }
  }

  /** `\s+` cannot start on a character that is not whitespace. */
  lemma NoTailAfter(t: string, j: nat)
    requires j < |t| && !IsSpace(t[j])
    ensures Tail(t, j, 1, true).None?
  {
    forall cs | j + 1 <= cs <= |t| ensures !TailAt(t, j, 1, true, cs) {
      assert t[j..cs][0] == t[j];
    }
  }

  /** On a line that ends in something other than whitespace, a whitespace run stops inside the line. */
  lemma RunInLine(line: string, y: string, a: nat)
    requires NoTerminator(line) && a < |line| && !IsSpace(line[|line| - 1])
    requires y == [] || IsTerminator(y[0])
    ensures a + SpaceRun(line[a..]) < |line|
    ensures SpaceRun((line + y)[a..]) == SpaceRun(line[a..])
  {
    var w := SpaceRun(line[a..]);
    SpaceRunStops(line[a..]);
    assert line[a..][|line[a..]| - 1] == line[|line| - 1];
    assert (line + y)[a..] == line[a..a + w] + (line[a + w..] + y);
    assert line[a..a + w] == line[a..][..w];
    assert line[a + w..][0] == line[a..][w];
    SpaceRunOf(line[a..a + w], line[a + w..] + y);
  }

  /**
   * On a line that ends in something other than whitespace, the tail pattern
   * from a position inside the line sees only the line, whatever follows it.
   */
  lemma TailInLine(line: string, y: string, a: nat)
    requires NoTerminator(line) && a < |line| && !IsSpace(line[|line| - 1])
    requires y == [] || IsTerminator(y[0])
    ensures a + SpaceRun(line[a..]) < |line|
    ensures Tail(line + y, a, 1, true) == if SpaceRun(line[a..]) >= 1 then Some(a + SpaceRun(line[a..])) else None
    ensures LineEnd(line + y, a + SpaceRun(line[a..])) == |line|
  {
    RunInLine(line, y, a);
    var w := SpaceRun(line[a..]);
    assert line[a..a + w] == line[a..][..w];
    assert line[a + w] == line[a..][w];
    if w >= 1 {
      TailAfterSpace(line, y, a, w);
    } else {
      TailAtText(line, y, a);
    }
  }

  lemma TailAfterSpace(line: string, y: string, a: nat, w: nat)
    requires NoTerminator(line) && 1 <= w && a + w < |line| && AllSpace(line[a..a + w]) && !IsSpace(line[a + w])
    requires y == [] || IsTerminator(y[0])
    ensures Tail(line + y, a, 1, true) == Some(a + w) && LineEnd(line + y, a + w) == |line|
  {
    var pre, body := line[..a + w], line[a + w..];
    assert line + y == pre + body + y;
    assert pre[a..] == line[a..a + w];
    assert body[0] == line[a + w];
    assert NoTerminator(body) by {
      forall i | 0 <= i < |body| ensures !IsTerminator(body[i]) {
        assert body[i] == line[a + w + i];
      }
    }
    TailOfLine(pre, body, y, a, 1, true);
  }

  lemma TailAtText(line: string, y: string, a: nat)
    requires NoTerminator(line) && a < |line| && !IsSpace(line[a])
    requires y == [] || IsTerminator(y[0])
    ensures Tail(line + y, a, 1, true).None? && LineEnd(line + y, a) == |line|
  {
    var body := line[a..];
    assert (line + y)[a] == line[a];
    NoTailAfter(line + y, a);
    assert (line + y)[a..] == body + y;
    assert NoTerminator(body) by {
      forall i | 0 <= i < |body| ensures !IsTerminator(body[i]) {
        assert body[i] == line[a + i];
      }
    }
    LineLenOf(body, y);
  }
}
