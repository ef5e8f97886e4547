/**
 * Character classes and string helpers shared by every rule.
 *
 * JavaScript's `\s`, `.` and `String.prototype.trim` are Unicode-wide; the model
 * restricts them to ASCII: whitespace is space, tab, line feed, carriage return,
 * vertical tab and form feed, and the line terminators (the characters `.` refuses
 * and `$` stops before under the `m` flag) are line feed and carriage return.
 */
module Text {
  import opened Wrappers

  predicate IsSpace(c: char) {
    c == ' ' || c == '\t' || c == '\n' || c == '\r' || c == '\U{000B}' || c == '\U{000C}'
  }

  predicate IsTerminator(c: char) {
    c == '\n' || c == '\r'
  }

  predicate IsDigit(c: char) {
    '0' <= c <= '9'
  }

  /** `\w`: ASCII letters, digits and underscore. */
  predicate IsWordChar(c: char) {
    ('a' <= c <= 'z') || ('A' <= c <= 'Z') || IsDigit(c) || c == '_'
  }

  predicate StartsWith(s: string, p: string) {
    |p| <= |s| && s[..|p|] == p
  }

  lemma CutAt(s: string, n: nat, rest: string)
    requires n <= |s|
    ensures s + rest == s[..n] + (s[n..] + rest) && (s + rest)[n..] == s[n..] + rest
  {
    assert s == s[..n] + s[n..];
  }

  /** The three parts of `a + b + c`, by position. */
  lemma Parts(a: string, b: string, c: string)
    ensures (a + b + c)[..|a|] == a && (a + b + c)[|a|..|a| + |b|] == b && (a + b + c)[|a|..] == b + c
  {
  }

  lemma StartsWithAppend(s: string, p: string, rest: string)
    requires StartsWith(s, p)
    ensures StartsWith(s + rest, p) && (s + rest)[0..] == s + rest
  {
    assert (s + rest)[..|p|] == s[..|p|];
  }

  /** No character of `s` belongs to `xs`. */
  predicate Avoids(s: string, xs: set<char>) {
    forall i :: 0 <= i < |s| ==> s[i] !in xs
  }

  predicate AllSpace(s: string) {
    forall i :: 0 <= i < |s| ==> IsSpace(s[i])
  }

  predicate NoTerminator(s: string) {
    forall i :: 0 <= i < |s| ==> !IsTerminator(s[i])
  }

  /** Length of the longest all-whitespace prefix: what a greedy `\s*` consumes. */
  function SpaceRun(s: string): (n: nat)
    ensures n <= |s| && AllSpace(s[..n])
    ensures n < |s| ==> !IsSpace(s[n])
  {
    if s == [] || !IsSpace(s[0]) then 0 else 1 + SpaceRun(s[1..])
  }

  /** Length of the longest all-digit prefix: what a greedy `\d*` consumes. */
  function DigitRun(s: string): (n: nat)
    ensures n <= |s|
    ensures forall i :: 0 <= i < n ==> IsDigit(s[i])
    ensures n < |s| ==> !IsDigit(s[n])
  {
    if s == [] || !IsDigit(s[0]) then 0 else 1 + DigitRun(s[1..])
  }

  /** Length of the longest `\w` prefix. */
  function WordRun(s: string): (n: nat)
    ensures n <= |s|
    ensures forall i :: 0 <= i < n ==> IsWordChar(s[i])
    ensures n < |s| ==> !IsWordChar(s[n])
  {
    if s == [] || !IsWordChar(s[0]) then 0 else 1 + WordRun(s[1..])
  }

  /** Length of the first line of `s`: what a greedy `.*` consumes. */
  function LineLen(s: string): (n: nat)
    ensures n <= |s| && NoTerminator(s[..n])
    ensures n < |s| ==> IsTerminator(s[n])
  {
    if s == [] || IsTerminator(s[0]) then 0 else 1 + LineLen(s[1..])
  }

  /** Index of the first occurrence of `c` in `s`. */
  function IndexOf(s: string, c: char): (r: Option<nat>)
    ensures r.Some? ==> r.value < |s| && s[r.value] == c && c !in s[..r.value]
    ensures r.None? ==> c !in s
  {
    if s == [] then None
    else if s[0] == c then Some(0)
    else match IndexOf(s[1..], c)
      case None => None
      case Some(k) => Some(k + 1)
  }

  /** Index of the first occurrence of `p` in `s` at or after `from`. */
  function FindFrom(s: string, p: string, from: nat): (r: Option<nat>)
    requires from <= |s|
    ensures r.Some? ==> from <= r.value <= |s| && StartsWith(s[r.value..], p)
    ensures r.Some? ==> forall j :: from <= j < r.value ==> !StartsWith(s[j..], p)
    ensures r.None? ==> forall j :: from <= j <= |s| ==> !StartsWith(s[j..], p)
    decreases |s| - from
  {
    if StartsWith(s[from..], p) then Some(from)
    else if from == |s| then None
    else FindFrom(s, p, from + 1)
  }

  function Repeat(c: char, n: nat): (r: string)
    ensures |r| == n && forall i :: 0 <= i < n ==> r[i] == c
  {
    if n == 0 then [] else [c] + Repeat(c, n - 1)
  }

  /** Number of occurrences of the character `c` in `s`. */
  function Count(s: string, c: char): nat {
    if s == [] then 0 else (if s[0] == c then 1 else 0) + Count(s[1..], c)
  }

  /** Length of the longest all-whitespace suffix. */
  function TrailingSpace(s: string): (n: nat)
    ensures n <= |s| && AllSpace(s[|s| - n..])
    ensures n < |s| ==> !IsSpace(s[|s| - n - 1])
    decreases |s|
  {
    if s == [] || !IsSpace(s[|s| - 1]) then 0
    else
      var n := TrailingSpace(s[..|s| - 1]);
      SpaceSuffixStep(s, n);
      n + 1
  }

  /** A whitespace suffix of all but the last character grows by that character when it is whitespace. */
  lemma SpaceSuffixStep(s: string, n: nat)
    requires n < |s| && IsSpace(s[|s| - 1]) && AllSpace(s[..|s| - 1][|s| - 1 - n..])
    ensures AllSpace(s[|s| - (n + 1)..])
  {
    var t := s[..|s| - 1];
    var u := s[|s| - (n + 1)..];
    forall k | 0 <= k < |u| ensures IsSpace(u[k]) {
      if k < n {
        assert u[k] == t[|t| - n..][k];
      }
    }
  }

  /** `String.prototype.trim`: drops leading and trailing whitespace. */
  function Trim(s: string): (r: string)
    ensures r == [] || (!IsSpace(r[0]) && !IsSpace(r[|r| - 1]))
    ensures exists i, j :: 0 <= i <= j <= |s| && r == s[i..j] && AllSpace(s[..i]) && AllSpace(s[j..])
  {
    var a := SpaceRun(s);
    var b := TrailingSpace(s[a..]);
    TrimCut(s, a, b);
    if b == |s| - a then s[|s|..] else s[a..|s| - b]
  }

  /** Text that begins and ends with something other than whitespace, followed by whitespace, trims to itself. */
  lemma TrimOf(u: string, ws: string)
    requires u != [] && !IsSpace(u[0]) && !IsSpace(u[|u| - 1]) && AllSpace(ws)
    ensures Trim(u + ws) == u
  {
    var s := u + ws;
    var r := Trim(s);
    var i, j :| 0 <= i <= j <= |s| && r == s[i..j] && AllSpace(s[..i]) && AllSpace(s[j..]);
    SpaceAround(s, i, j);
    assert s[|u| - 1] == u[|u| - 1];
    assert forall k :: |u| <= k < |s| ==> s[k] == ws[k - |u|];
    assert i == 0 && j == |u|;
    assert s[..|u|] == u;
  }

  /** Text with something other than whitespace, between two stretches of whitespace, trims to itself. */
  lemma {:induction false} TrimOfSpaced(p: string, u: string, ws: string)
    requires AllSpace(p) && u != [] && !IsSpace(u[0]) && !IsSpace(u[|u| - 1]) && AllSpace(ws)
    ensures Trim(p + u + ws) == u
  {
    SpacedParts(p, u, ws);
    TrimBetween(p + u + ws, |p|, |p| + |u|);
  }

  /** Whitespace outside `[a, b)`, and none at its two ends: the trim is exactly that stretch. */
  lemma TrimBetween(s: string, a: nat, b: nat)
    requires a < b <= |s| && !IsSpace(s[a]) && !IsSpace(s[b - 1])
    requires forall k :: 0 <= k < a ==> IsSpace(s[k])
    requires forall k :: b <= k < |s| ==> IsSpace(s[k])
    ensures Trim(s) == s[a..b]
  {
    var i, j := TrimBounds(s);
    SpacedBounds(s, a, b, i, j);
  }

  /** Where the trim cuts `s`, stated character by character. */
  lemma TrimBounds(s: string) returns (i: nat, j: nat)
    ensures i <= j <= |s| && Trim(s) == s[i..j]
    ensures forall k :: 0 <= k < i ==> IsSpace(s[k])
    ensures forall k :: j <= k < |s| ==> IsSpace(s[k])
    ensures i == j || (!IsSpace(s[i]) && !IsSpace(s[j - 1]))
  {
    var r := Trim(s);
    i, j :| 0 <= i <= j <= |s| && r == s[i..j] && AllSpace(s[..i]) && AllSpace(s[j..]);
    SpaceAround(s, i, j);
    if i < j {
      assert r[0] == s[i] && r[|r| - 1] == s[j - 1];
    }
  }

  /**
   * When whitespace fills `s` outside `[a, b)` and the ends of that stretch are
   * not whitespace, the cut a trim makes is exactly `[a, b)`.
   */
  lemma SpacedBounds(s: string, a: nat, b: nat, i: nat, j: nat)
    requires a < b <= |s| && !IsSpace(s[a]) && !IsSpace(s[b - 1])
    requires forall k :: 0 <= k < a ==> IsSpace(s[k])
    requires forall k :: b <= k < |s| ==> IsSpace(s[k])
    requires i <= j <= |s|
    requires forall k :: 0 <= k < i ==> IsSpace(s[k])
    requires forall k :: j <= k < |s| ==> IsSpace(s[k])
    requires i == j || (!IsSpace(s[i]) && !IsSpace(s[j - 1]))
    ensures i == a && j == b
  {
    assert i <= a && b <= j;
  }

  lemma SpacedParts(p: string, u: string, ws: string)
    requires u != []
    ensures (p + u + ws)[|p|] == u[0] && (p + u + ws)[|p| + |u| - 1] == u[|u| - 1]
    ensures forall k :: 0 <= k < |p| ==> (p + u + ws)[k] == p[k]
    ensures forall k :: |p| + |u| <= k < |p + u + ws| ==> (p + u + ws)[k] == ws[k - |p| - |u|]
    ensures (p + u + ws)[|p|..|p| + |u|] == u
  {
  }

  /** Whitespace added at the end does not change the trimmed text. */
  lemma TrimAppendSpace(s: string, ws: string)
    requires AllSpace(ws)
    ensures Trim(s + ws) == Trim(s)
  {
    var r := Trim(s);
    var i, j :| 0 <= i <= j <= |s| && r == s[i..j] && AllSpace(s[..i]) && AllSpace(s[j..]);
    if r == [] {
      SpaceAround(s, i, j);
      BlankAppend(s, ws);
    } else {
      TextAppend(s, i, j, ws);
    }
  }

  lemma BlankAppend(s: string, ws: string)
    requires AllSpace(ws) && forall k :: 0 <= k < |s| ==> IsSpace(s[k])
    ensures Trim(s + ws) == []
  {
    assert AllSpace(s + ws) by {
      forall k | 0 <= k < |s + ws| ensures IsSpace((s + ws)[k]) {
        if k >= |s| { assert (s + ws)[k] == ws[k - |s|]; }
      }
    }
    TrimBlank(s + ws);
  }

  lemma TextAppend(s: string, i: nat, j: nat, ws: string)
    requires i <= j <= |s| && AllSpace(s[..i]) && AllSpace(s[j..]) && AllSpace(ws)
    requires s[i..j] != [] && !IsSpace(s[i..j][0]) && !IsSpace(s[i..j][j - i - 1])
    ensures Trim(s + ws) == s[i..j]
  {
    var tail := s[j..] + ws;
    assert AllSpace(tail) by {
      forall k | 0 <= k < |tail| ensures IsSpace(tail[k]) {
        if k < |s| - j { assert tail[k] == s[j..][k]; } else { assert tail[k] == ws[k - (|s| - j)]; }
      }
    }
    Sandwich(s, i, j, ws);
    TrimOfSpaced(s[..i], s[i..j], tail);
  }

  lemma Sandwich(s: string, i: nat, j: nat, ws: string)
    requires i <= j <= |s|
    ensures s + ws == s[..i] + s[i..j] + (s[j..] + ws)
  {
    assert s == s[..i] + s[i..j] + s[j..];
  }

  lemma SpaceAround(s: string, i: nat, j: nat)
    requires i <= j <= |s| && AllSpace(s[..i]) && AllSpace(s[j..])
    ensures forall k :: 0 <= k < i ==> IsSpace(s[k])
    ensures forall k :: j <= k < |s| ==> IsSpace(s[k])
  {
    assert forall k :: 0 <= k < i ==> s[k] == s[..i][k];
    assert forall k :: j <= k < |s| ==> s[k] == s[j..][k - j];
  }

  /** Whitespace trims to nothing. */
  lemma TrimBlank(ws: string)
    requires AllSpace(ws)
    ensures Trim(ws) == []
  {
    assert ws + [] == ws;
    SpaceRunOf(ws, []);
  }

  /** Trimming twice is trimming once. */
  lemma TrimTwice(s: string)
    ensures Trim(Trim(s)) == Trim(s)
  {
    var r := Trim(s);
    if r != [] {
      assert r + [] == r;
      TrimOf(r, []);
    }
  }

  /** Where `Trim` cuts: after the leading run and before the trailing run. */
  lemma TrimCut(s: string, a: nat, b: nat)
    requires a + b <= |s| && AllSpace(s[..a]) && (a < |s| ==> !IsSpace(s[a]))
    requires AllSpace(s[a..][|s| - a - b..]) && (b < |s| - a ==> !IsSpace(s[a..][|s| - a - b - 1]))
    ensures b == |s| - a ==> AllSpace(s[..|s|]) && AllSpace(s[|s|..])
    ensures b < |s| - a ==>
      (a < |s| - b && !IsSpace(s[a]) && !IsSpace(s[|s| - b - 1]) && AllSpace(s[..a]) && AllSpace(s[|s| - b..]))
  {
    if b == |s| - a {
      TrimAll(s, a);
    } else {
      TrimSome(s, a, b);
    }
  }

  lemma TrimAll(s: string, a: nat)
    requires a <= |s| && AllSpace(s[..a]) && AllSpace(s[a..][|s| - a - (|s| - a)..])
    ensures AllSpace(s[..|s|]) && AllSpace(s[|s|..])
  {
    assert s[a..][|s| - a - (|s| - a)..] == s[a..];
    AllSpaceSplit(s, a);
  }

  lemma TrimSome(s: string, a: nat, b: nat)
    requires a + b < |s| && !IsSpace(s[a]) && AllSpace(s[a..][|s[a..]| - b..])
    requires !IsSpace(s[a..][|s[a..]| - b - 1])
    ensures !IsSpace(s[|s| - b - 1]) && AllSpace(s[|s| - b..])
  {
    var rest := s[a..];
    assert rest[|rest| - b..] == s[|s| - b..];
    assert rest[|rest| - b - 1] == s[|s| - b - 1];
  }

  lemma AllSpaceSplit(s: string, a: nat)
    requires a <= |s| && AllSpace(s[..a]) && AllSpace(s[a..])
    ensures AllSpace(s[..|s|])
  {
    assert s[..|s|] == s[..a] + s[a..];
  }

  /** `s.split(sep)` with a one-character separator. */
  function Split(s: string, sep: char): (r: seq<string>)
    ensures |r| >= 1
    ensures forall i :: 0 <= i < |r| ==> sep !in r[i]
    decreases |s|
  {
    match IndexOf(s, sep)
    case None => [s]
    case Some(k) => [s[..k]] + Split(s[k + 1..], sep)
  }

  /** `xs.join(sep)` with a one-character separator. */
  function Join(xs: seq<string>, sep: char): string
    decreases |xs|
  {
    if |xs| == 0 then []
    else if |xs| == 1 then xs[0]
    else xs[0] + [sep] + Join(xs[1..], sep)
  }

  /** Whitespace followed by something else: the greedy run takes exactly the whitespace. */
  lemma {:induction false} SpaceRunOf(ws: string, rest: string)
    requires AllSpace(ws) && (rest == [] || !IsSpace(rest[0]))
    ensures SpaceRun(ws + rest) == |ws|
    decreases |ws|
  {
    if ws != [] {
      assert (ws + rest)[1..] == ws[1..] + rest;
      SpaceRunOf(ws[1..], rest);
    }
  }

  /** The whitespace run stops at or before the first character that is not whitespace. */
  lemma {:induction false} SpaceRunBefore(s: string, z: nat)
    requires z < |s| && !IsSpace(s[z])
    ensures SpaceRun(s) <= z
    decreases z
  {
    if IsSpace(s[0]) {
      assert s[1..][z - 1] == s[z];
      SpaceRunBefore(s[1..], z - 1);
    }
  }

  lemma NoTerminatorAppend(a: string, b: string)
    ensures NoTerminator(a + b) <==> NoTerminator(a) && NoTerminator(b)
  {
    if NoTerminator(a) && NoTerminator(b) {
      forall i | 0 <= i < |a + b| ensures !IsTerminator((a + b)[i]) {
        if i >= |a| { assert (a + b)[i] == b[i - |a|]; }
      }
    }
    if NoTerminator(a + b) {
      forall i | 0 <= i < |a| ensures !IsTerminator(a[i]) {
        assert (a + b)[i] == a[i];
      }
      forall i | 0 <= i < |b| ensures !IsTerminator(b[i]) {
        assert (a + b)[|a| + i] == b[i];
      }
    }
  }

  /** A text that ends in something other than whitespace is not all whitespace. */
  lemma {:induction false} SpaceRunStops(s: string)
    requires s != [] && !IsSpace(s[|s| - 1])
    ensures SpaceRun(s) < |s|
    decreases |s|
  {
    if |s| > 1 && IsSpace(s[0]) {
      assert s[1..][|s[1..]| - 1] == s[|s| - 1];
      SpaceRunStops(s[1..]);
    }
  }

  /** A line of text followed by a terminator or nothing at all. */
  lemma {:induction false} LineLenOf(body: string, rest: string)
    requires NoTerminator(body) && (rest == [] || IsTerminator(rest[0]))
    ensures LineLen(body + rest) == |body|
    decreases |body|
  {
    if body != [] {
      assert (body + rest)[1..] == body[1..] + rest;
      LineLenOf(body[1..], rest);
    } else {
      assert body + rest == rest;
    }
  }

  lemma IndexOfAfter(a: string, c: char, b: string)
    requires c !in a
    ensures IndexOf(a + [c] + b, c) == Some(|a|)
  {
    var s := a + [c] + b;
    assert s[|a|] == c;
    assert forall i :: 0 <= i < |a| ==> s[i] == a[i];
  }

  lemma {:induction false} CountAppend(a: string, b: string, c: char)
    ensures Count(a + b, c) == Count(a, c) + Count(b, c)
    decreases |a|
  {
    if a == [] {
      assert a + b == b;
    } else {
      assert (a + b)[1..] == a[1..] + b;
      CountAppend(a[1..], b, c);
    }
  }

  lemma {:induction false} CountAbsent(a: string, c: char)
    requires c !in a
    ensures Count(a, c) == 0
    decreases |a|
  {
    if a != [] {
      assert c !in a[1..] by { assert forall x :: x in a[1..] ==> x in a; }
      CountAbsent(a[1..], c);
    }
  }

  /** Every piece between `open` and `close`. */
  function Framed(xs: seq<string>, open: string, close: string): (r: seq<string>)
    ensures |r| == |xs| && forall i :: 0 <= i < |xs| ==> r[i] == open + xs[i] + close
  {
    seq(|xs|, i requires 0 <= i < |xs| => open + xs[i] + close)
  }

  /** Regrouping three pieces around two line feeds. */
  lemma Between(a: string, m: string, b: string)
    ensures a + "\n" + (m + "\n" + b) == a + "\n" + m + "\n" + b
  {
  }

  /** Joining two non-empty lists of pieces puts one separator between their joins. */
  lemma {:induction false} JoinAppend(a: seq<string>, b: seq<string>, sep: char)
    requires |a| >= 1 && |b| >= 1
    ensures Join(a + b, sep) == Join(a, sep) + [sep] + Join(b, sep)
    decreases |a|
  {
    assert (a + b)[0] == a[0];
    if |a| == 1 {
      assert (a + b)[1..] == b;
    } else {
      assert (a + b)[1..] == a[1..] + b;
      JoinAppend(a[1..], b, sep);
    }
  }

  /** Joining the pieces of a split restores the text. */
  lemma {:induction false} JoinSplit(s: string, sep: char)
    ensures Join(Split(s, sep), sep) == s
    decreases |s|
  {
    match IndexOf(s, sep)
    case None =>
    case Some(k) =>
      var rest := Split(s[k + 1..], sep);
      assert Split(s, sep) == [s[..k]] + rest;
      assert ([s[..k]] + rest)[1..] == rest;
      JoinSplit(s[k + 1..], sep);
      Rejoin(s, k, sep);
  }

  lemma Rejoin(s: string, k: nat, sep: char)
    requires k < |s| && s[k] == sep
    ensures s[..k] + [sep] + s[k + 1..] == s
  {
  }

  /** Splitting a join of separator-free pieces gives the pieces back. */
  lemma {:induction false} SplitJoin(xs: seq<string>, sep: char)
    requires |xs| >= 1
    requires forall i :: 0 <= i < |xs| ==> sep !in xs[i]
    ensures Split(Join(xs, sep), sep) == xs
    decreases |xs|
  {
    if |xs| > 1 {
      var s := Join(xs, sep);
      var rest := Join(xs[1..], sep);
      assert s == xs[0] + [sep] + rest;
      IndexOfAfter(xs[0], sep, rest);
      assert s[..|xs[0]|] == xs[0];
      assert s[|xs[0]| + 1..] == rest;
      SplitJoin(xs[1..], sep);
      assert xs == [xs[0]] + xs[1..];
    }
  }

  /** A split yields one more piece than there are separators. */
  lemma {:induction false} SplitCount(s: string, sep: char)
    ensures |Split(s, sep)| == Count(s, sep) + 1
    decreases |s|
  {
    match IndexOf(s, sep)
    case None =>
      CountAbsent(s, sep);
    case Some(k) =>
      SplitCount(s[k + 1..], sep);
      assert s == s[..k] + ([sep] + s[k + 1..]);
      CountAppend(s[..k], [sep] + s[k + 1..], sep);
      CountAppend([sep], s[k + 1..], sep);
      CountAbsent(s[..k], sep);
  }
}
