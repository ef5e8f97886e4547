/**
 * The non-greedy single-line span `OPEN(.*?)CLOSE` under a global replace
 * with `BEFORE$1AFTER`: the rewrite shared by emphasis, strikethrough and the
 * `<sup>`, `<sub>` and `<ins>` tags.
 */
module LineSpans {
  import opened Wrappers
  import opened Text
  import opened Scanner

  /** A span opened at the start of `t` may be closed at `k`: `.` never crosses a line terminator. */
  ghost predicate ClosesAt(t: string, open: string, close: string, k: nat) {
    open != [] && StartsWith(t, open) && |open| <= k <= |t|
    && StartsWith(t[k..], close) && NoTerminator(t[|open|..k])
  }

  function CloseFrom(t: string, open: string, close: string, k: nat): (r: Option<nat>)
    requires open != [] && StartsWith(t, open) && |open| <= k <= |t| && NoTerminator(t[|open|..k])
    ensures r.Some? ==> k <= r.value && ClosesAt(t, open, close, r.value)
    ensures r.Some? ==> forall j: nat :: k <= j < r.value ==> !ClosesAt(t, open, close, j)
    ensures r.None? ==> forall j: nat :: k <= j ==> !ClosesAt(t, open, close, j)
    decreases |t| - k
  {
    if StartsWith(t[k..], close) then Some(k)
    else if k == |t| || IsTerminator(t[k]) then None
    else
      assert t[|open|..k + 1] == t[|open|..k] + [t[k]];
      CloseFrom(t, open, close, k + 1)
  }

  /** Where the lazy `(.*?)` stops: the first place the span can close. */
  function SpanAt(t: string, open: string, close: string): (r: Option<nat>)
    ensures r.Some? ==> ClosesAt(t, open, close, r.value)
    ensures r.Some? ==> forall j: nat :: j < r.value ==> !ClosesAt(t, open, close, j)
    ensures r.None? ==> forall j: nat :: !ClosesAt(t, open, close, j)
  {
    if open != [] && StartsWith(t, open) then CloseFrom(t, open, close, |open|) else None
  }

  function SpanMatcher(open: string, close: string, before: string, after: string): Matcher {
    (prev: Option<char>, t: string) =>
      match SpanAt(t, open, close)
      case Some(k) => Some(Match(k + |close|, before + t[|open|..k] + after))
      case None => None
  }

  /** `s.replace(/OPEN(.*?)CLOSE/g, 'BEFORE$1AFTER')`. */
  function Spans(s: string, open: string, close: string, before: string, after: string): string {
    Replace(s, SpanMatcher(open, close, before, after))
  }

  /** Text in which the first character of the opening delimiter never occurs is left alone. */
  lemma SpansUnchanged(s: string, open: string, close: string, before: string, after: string)
    requires open != [] && Avoids(s, {open[0]})
    ensures Spans(s, open, close, before, after) == s
  {
    var f := SpanMatcher(open, close, before, after);
    forall prev, t | Avoids(t, {open[0]}) ensures !Consumes(f(prev, t), t) {
    }
    Unchanged(None, s, f, {open[0]});
  }

  /** No span starts inside a stretch free of the opening delimiter's first character. */
  lemma SpanQuiet(prev: Option<char>, d: string, y: string, open: string, close: string, before: string, after: string)
    requires open != [] && Avoids(d, {open[0]})
    ensures Quiet(prev, d, y, SpanMatcher(open, close, before, after))
  {
    forall i | 0 <= i < |d|
      ensures !Consumes(SpanMatcher(open, close, before, after)(PrevAt(prev, d, i), d[i..] + y), d[i..] + y)
    {
      assert (d[i..] + y)[0] == d[i];
    }
  }

  /** `OPEN c CLOSE` is replaced by `BEFORE c AFTER` when `c` is one line holding no start of CLOSE. */
  lemma SpanOf(prev: Option<char>, open: string, c: string, close: string, before: string, after: string, rest: string)
    requires open != [] && close != [] && NoTerminator(c) && close[0] !in c
    ensures ReplaceAll(prev, open + c + close + rest, SpanMatcher(open, close, before, after))
         == before + c + after + ReplaceAll(Some(close[|close| - 1]), rest, SpanMatcher(open, close, before, after))
  {
    var t := open + c + close + rest;
    var k := |open| + |c|;
    assert t[..|open|] == open;
    assert t[k..][..|close|] == close;
    assert t[|open|..k] == c;
    assert ClosesAt(t, open, close, k);
    forall j: nat | j < k ensures !ClosesAt(t, open, close, j) {
      if |open| <= j {
        assert t[j..][0] == c[j - |open|];
      }
    }
    var x := open + c + close;
    assert t == x + rest;
    MatchStep(prev, x, rest, SpanMatcher(open, close, before, after), before + c + after);
  }

  /** The span pattern has no anchor: the character before the text never matters. */
  lemma SpanIgnoresPrev(open: string, close: string, before: string, after: string)
    ensures IgnoresPrev(SpanMatcher(open, close, before, after))
  {
  }

  /** A stretch free of the opening delimiter's first character is copied in front of the rewrite of what follows. */
  lemma SpansAfterPlain(d: string, rest: string, open: string, close: string, before: string, after: string)
    requires open != [] && Avoids(d, {open[0]})
    ensures Spans(d + rest, open, close, before, after) == d + Spans(rest, open, close, before, after)
  {
    var f := SpanMatcher(open, close, before, after);
    SpanQuiet(None, d, rest, open, close, before, after);
    CopyRun(None, d, rest, f);
    SpanIgnoresPrev(open, close, before, after);
    PrevFree(PrevAt(None, d, |d|), None, rest, f);
  }

  /** A leading span `OPEN c CLOSE` is converted, and the rest is rewritten as if it stood alone. */
  lemma SpansAfterSpan(open: string, c: string, close: string, before: string, after: string, rest: string)
    requires open != [] && close != [] && NoTerminator(c) && close[0] !in c
    ensures Spans(open + c + close + rest, open, close, before, after)
         == before + c + after + Spans(rest, open, close, before, after)
  {
    var f := SpanMatcher(open, close, before, after);
    SpanOf(None, open, c, close, before, after, rest);
    SpanIgnoresPrev(open, close, before, after);
    PrevFree(Some(close[|close| - 1]), None, rest, f);
  }

  /** Text that does not begin with the opening delimiter's first character keeps its first character. */
  lemma SpansKeepFirst(rest: string, open: string, close: string, before: string, after: string)
    requires open != [] && rest != [] && rest[0] != open[0]
    ensures Spans(rest, open, close, before, after) != []
    ensures Spans(rest, open, close, before, after)[0] == rest[0]
  {
    var f := SpanMatcher(open, close, before, after);
    assert rest == [rest[0]] + rest[1..];
    CopyStep(None, rest[0], rest[1..], f);
  }

  /** A span found in `a + y` that ends before a line terminator is the span found in `a`. */
  lemma SpanBeforeBreak(a: string, y: string, open: string, close: string)
    requires y != [] && IsTerminator(y[0]) && NoTerminator(open) && NoTerminator(close)
    ensures SpanAt(a + y, open, close) == SpanAt(a, open, close)
  {
    var t := a + y;
    forall j: nat | ClosesAt(t, open, close, j) ensures ClosesAt(a, open, close, j) {
      forall i | 0 <= i < j + |close| ensures !IsTerminator(t[i]) {
        if i < |open| {
          assert t[i] == open[i];
        } else if i < j {
          assert t[i] == t[|open|..j][i - |open|];
        } else {
          assert t[i] == t[j..][..|close|][i - j];
        }
      }
      assert t[|a|] == y[0];
      assert a[..|open|] == t[..|open|];
      assert a[j..][..|close|] == t[j..][..|close|];
      assert a[|open|..j] == t[|open|..j];
    }
    forall j: nat | ClosesAt(a, open, close, j) ensures ClosesAt(t, open, close, j) {
      assert a[..|open|] == t[..|open|];
      assert a[j..][..|close|] == t[j..][..|close|];
      assert a[|open|..j] == t[|open|..j];
    }
  }

  /** The span rewrite looks at one line at a time. */
  lemma SpanLineLocal(open: string, close: string, before: string, after: string)
    requires NoTerminator(open) && NoTerminator(close)
    ensures LineLocal(SpanMatcher(open, close, before, after))
  {
    var f := SpanMatcher(open, close, before, after);
    forall prev, a, y | y != [] && IsTerminator(y[0]) ensures f(prev, a + y) == f(prev, a) {
      SpanBeforeBreak(a, y, open, close);
      if SpanAt(a, open, close).Some? {
        var k := SpanAt(a, open, close).value;
        assert (a + y)[|open|..k] == a[|open|..k];
      }
    }
  }

  /** Spans never cross a line: the rewrite of `a + x + b` for a terminator `x` is done line by line. */
  lemma SpansLines(a: string, x: char, b: string, open: string, close: string, before: string, after: string)
    requires IsTerminator(x) && NoTerminator(open) && NoTerminator(close)
    ensures Spans(a + [x] + b, open, close, before, after)
         == Spans(a, open, close, before, after) + [x] + Spans(b, open, close, before, after)
  {
    var f := SpanMatcher(open, close, before, after);
    SpanLineLocal(open, close, before, after);
    LinesApart(None, a, x, b, f);
    PrevFree(Some(x), None, b, f);
  }
}
