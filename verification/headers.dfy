/**
 * Headers: six global, multi-line passes `^#{i}\s+(.+)$` for i = 6 down to 1.
 * World Anvil writes `[h<i>]…[/h<i>]`; generic BBCode writes a bold text in
 * the size of the level.
 */
module Headers {
  import opened Wrappers
  import opened Text
  import opened Scanner
  import opened Dialect

  /** The `[size=…]` value of header levels 1 to 6 in generic BBCode. */
  const Sizes: seq<string> := ["28", "24", "20", "18", "16", "14"]

  function LevelDigit(level: nat): char
    requires 1 <= level <= 6
  {
    (('0' as int) + level) as char
  }

  /** The replacement for a header of `level` whose captured text is `content`. */
  function HeaderTag(fmt: Format, level: nat, content: string): (r: string)
    requires 1 <= level <= 6
    ensures r != [] && r[0] == '['
    ensures NoTerminator(content) ==> NoTerminator(r)
  {
    match fmt
    case WorldAnvil => "[h" + [LevelDigit(level)] + "]" + content + "[/h" + [LevelDigit(level)] + "]"
    case BBCode => "[size=" + Sizes[level - 1] + "][b]" + content + "[/b][/size]"
  }

  /** The tags of each level: sizes 28 down to 14 in generic BBCode, `[h1]` to `[h6]` in World Anvil. */
  lemma LevelTags(c: string)
    ensures HeaderTag(BBCode, 1, c) == "[size=28][b]" + c + "[/b][/size]"
    ensures HeaderTag(BBCode, 2, c) == "[size=24][b]" + c + "[/b][/size]"
    ensures HeaderTag(BBCode, 3, c) == "[size=20][b]" + c + "[/b][/size]"
    ensures HeaderTag(BBCode, 4, c) == "[size=18][b]" + c + "[/b][/size]"
    ensures HeaderTag(BBCode, 5, c) == "[size=16][b]" + c + "[/b][/size]"
    ensures HeaderTag(BBCode, 6, c) == "[size=14][b]" + c + "[/b][/size]"
    ensures HeaderTag(WorldAnvil, 1, c) == "[h1]" + c + "[/h1]"
    ensures HeaderTag(WorldAnvil, 2, c) == "[h2]" + c + "[/h2]"
    ensures HeaderTag(WorldAnvil, 3, c) == "[h3]" + c + "[/h3]"
    ensures HeaderTag(WorldAnvil, 4, c) == "[h4]" + c + "[/h4]"
    ensures HeaderTag(WorldAnvil, 5, c) == "[h5]" + c + "[/h5]"
    ensures HeaderTag(WorldAnvil, 6, c) == "[h6]" + c + "[/h6]"
  {
  }

  /** `^#{level}\s+(.+)$` under the `m` flag, tried at the start of `t`. */
  function HeaderMatch(fmt: Format, level: nat, prev: Option<char>, t: string): Option<Match>
    requires 1 <= level <= 6
  {
    if AtLineStart(prev) && StartsWith(t, Repeat('#', level)) then
      match Tail(t, level, 1, true)
      case None => None
      case Some(cs) =>
        var e := LineEnd(t, cs);
        Some(Match(e, HeaderTag(fmt, level, t[cs..e])))
    else None
  }

  function HeaderMatcher(fmt: Format, level: nat): Matcher
    requires 1 <= level <= 6
  {
    (prev: Option<char>, t: string) => HeaderMatch(fmt, level, prev, t)
  }

  /** The passes for levels `level`, `level - 1`, …, 1, in that order. */
  function HeadersFrom(fmt: Format, s: string, level: nat): string
    requires level <= 6
    decreases level
  {
    if level == 0 then s else HeadersFrom(fmt, Replace(s, HeaderMatcher(fmt, level)), level - 1)
  }

  function Headers(fmt: Format, s: string): string {
    HeadersFrom(fmt, s, 6)
  }

  /** The header loop of the converters and of the header strategies. */
  method ConvertHeaders(fmt: Format, text: string) returns (r: string)
    ensures r == Headers(fmt, text)
  {
    r := text;
    var i := 6;
    while i >= 1
      invariant 0 <= i <= 6
      invariant HeadersFrom(fmt, r, i) == Headers(fmt, text)
    {
      r := Replace(r, HeaderMatcher(fmt, i));
      i := i - 1;
    }
  }

  // ---------------------------------------------------------------------
  // One line at a time
  // ---------------------------------------------------------------------

  /** Number of `#` that open the line. */
  function Hashes(s: string): (n: nat)
    ensures n <= |s| && (forall i :: 0 <= i < n ==> s[i] == '#')
    ensures n < |s| ==> s[n] != '#'
  {
    if s == [] || s[0] != '#' then 0 else 1 + Hashes(s[1..])
  }

  /**
   * The level of a header line: one to six `#`, whitespace, then text that
   * does not start with whitespace; 0 for any other line.
   */
  function HeaderLevel(line: string): (k: nat)
    ensures k <= 6
  {
    var k := Hashes(line);
    var w := SpaceRun(line[k..]);
    if 1 <= k <= 6 && 1 <= w && k + w < |line| then k else 0
  }

  /** The text of a header line: everything after the whitespace, trailing whitespace included. */
  function HeaderText(line: string): string {
    var k := Hashes(line);
    line[k + SpaceRun(line[k..])..]
  }

  /** What the header passes make of one line on its own. */
  function HeaderLine(fmt: Format, line: string): string {
    var k := HeaderLevel(line);
    if k == 0 then line else HeaderTag(fmt, k, HeaderText(line))
  }

  /**
   * A line the passes treat on its own: no line terminator, and it does not
   * end in a bare run of `#` and whitespace, which `\s+(.+)` would carry on
   * into the next line.
   */
  predicate Standalone(line: string) {
    NoTerminator(line) && (Hashes(line) == 0 || Hashes(line) + SpaceRun(line[Hashes(line)..]) < |line|)
  }

  /** At the start of a header line of `level`, the pattern for `level` takes the whole line. */
  lemma HeaderTakesLine(level: nat, line: string, y: string)
    requires 1 <= level <= 6 && Standalone(line) && (y == [] || IsTerminator(y[0]))
    requires level == HeaderLevel(line)
    ensures Tail(line + y, level, 1, true) == Some(level + SpaceRun(line[level..]))
    ensures LineEnd(line + y, level + SpaceRun(line[level..])) == |line|
    ensures (line + y)[level + SpaceRun(line[level..])..|line|] == HeaderText(line)
  {
    var w := SpaceRun(line[level..]);
    var pre, body := line[..level + w], line[level + w..];
    assert line == pre + body;
    assert body[0] == line[level..][w];
    assert pre[level..] == line[level..][..w];
    TailOfLine(pre, body, y, level, 1, true);
    assert line + y == pre + body + y;
  }

  /** The pass for `level` at the start of a line that is no header of that level. */
  lemma NoHeaderAtStart(fmt: Format, level: nat, p: Option<char>, line: string, y: string)
    requires 1 <= level <= 6 && Standalone(line) && (y == [] || IsTerminator(y[0]))
    requires level != HeaderLevel(line)
    ensures HeaderMatch(fmt, level, p, line + y) == None
  {
    var t := line + y;
    var k := Hashes(line);
    assert t[..|line|] == line;
    if level < k {
      assert t[level] == '#';
      NoTailAfter(t, level);
    } else if level == k {
      assert t[k] == line[k..][0];
      NoTailAfter(t, level);
    } else {
      assert k < |line| ==> t[k] == line[k];
      assert k == |line| ==> line == [] && (t == [] || t[0] == y[0]);
      assert !StartsWith(t, Repeat('#', level));
    }
  }

  /** The pass for `level` at the start of a standalone line, whatever follows the line. */
  lemma HeaderAtStart(fmt: Format, level: nat, p: Option<char>, line: string, y: string)
    requires 1 <= level <= 6 && Standalone(line) && (y == [] || IsTerminator(y[0]))
    ensures HeaderMatch(fmt, level, p, line + y) ==
      if AtLineStart(p) && level == HeaderLevel(line)
      then Some(Match(|line|, HeaderTag(fmt, level, HeaderText(line))))
      else None
  {
    if level != HeaderLevel(line) {
      NoHeaderAtStart(fmt, level, p, line, y);
    } else if AtLineStart(p) {
      HeaderMatchOf(fmt, level, p, line, y);
    }
  }

  lemma HeaderMatchOf(fmt: Format, level: nat, p: Option<char>, line: string, y: string)
    requires 1 <= level <= 6 && Standalone(line) && (y == [] || IsTerminator(y[0]))
    requires AtLineStart(p) && level == HeaderLevel(line)
    ensures HeaderMatch(fmt, level, p, line + y) == Some(Match(|line|, HeaderTag(fmt, level, HeaderText(line))))
  {
    var t := line + y;
    var cs := level + SpaceRun(line[level..]);
    HashesOpen(level, line, y);
    HeaderTakesLine(level, line, y);
    HeaderMatchIs(fmt, level, p, t, cs, |line|, HeaderText(line));
  }

  lemma HashesOpen(level: nat, line: string, y: string)
    requires 1 <= level <= 6 && Standalone(line) && level == HeaderLevel(line)
    ensures StartsWith(line + y, Repeat('#', level))
  {
    assert (line + y)[..level] == line[..level] == Repeat('#', level);
  }

  /** The pass for `level` where the hashes, the whitespace and the text are found. */
  lemma HeaderMatchIs(fmt: Format, level: nat, p: Option<char>, t: string, cs: nat, e: nat, text: string)
    requires 1 <= level <= 6 && AtLineStart(p) && StartsWith(t, Repeat('#', level))
    requires Tail(t, level, 1, true) == Some(cs) && LineEnd(t, cs) == e && t[cs..e] == text
    ensures HeaderMatch(fmt, level, p, t) == Some(Match(e, HeaderTag(fmt, level, text)))
  {
  }

  lemma HeaderConfined(fmt: Format, level: nat, line: string)
    requires 1 <= level <= 6 && Standalone(line)
    ensures Confined(HeaderMatcher(fmt, level), line)
  {
    var f := HeaderMatcher(fmt, level);
    forall p, y | y == [] || IsTerminator(y[0]) ensures StaysOnLine(f, p, line, y) {
      forall i | 0 <= i <= |line|
        ensures f(PrevAt(p, line, i), line[i..] + y) == f(PrevAt(p, line, i), line[i..])
        ensures f(PrevAt(p, line, i), line[i..]).Some? ==> f(PrevAt(p, line, i), line[i..]).value.len <= |line| - i
      {
        if i == 0 {
          assert line[0..] == line && line + [] == line;
          HeaderAtStart(fmt, level, p, line, y);
          HeaderAtStart(fmt, level, p, line, []);
        } else {
          assert !IsTerminator(line[i - 1]);
        }
      }
    }
  }

  lemma HeaderSees(fmt: Format, level: nat)
    requires 1 <= level <= 6
    ensures SeesOnlyLineStart(HeaderMatcher(fmt, level))
  {
  }

  /** The pass for `level` on a standalone line on its own. */
  lemma {:induction false} HeaderPassLine(fmt: Format, level: nat, line: string)
    requires 1 <= level <= 6 && Standalone(line)
    ensures Replace(line, HeaderMatcher(fmt, level)) == if level == HeaderLevel(line) then HeaderLine(fmt, line) else line
  {
    var f := HeaderMatcher(fmt, level);
    HeaderConfined(fmt, level, line);
    assert StaysOnLine(f, None, line, []);
    assert line + [] == line;
    HeaderAtStart(fmt, level, None, line, []);
    if level == HeaderLevel(line) {
      assert HeaderLevel(line) != 0;
      MatchStep(None, line, [], f, HeaderTag(fmt, level, HeaderText(line)));
    } else {
      forall i | 0 <= i < |line| ensures !Consumes(f(PrevAt(None, line, i), line[i..] + []), line[i..] + []) {
        assert line[i..] + [] == line[i..];
        if i > 0 {
          assert !IsTerminator(line[i - 1]);
        } else {
          assert line[0..] == line;
        }
      }
      CopyRun(None, line, [], f);
    }
  }

  /** A header tag is standalone and no header. */
  lemma TagStandalone(fmt: Format, level: nat, content: string)
    requires 1 <= level <= 6 && NoTerminator(content)
    ensures Standalone(HeaderTag(fmt, level, content)) && HeaderLevel(HeaderTag(fmt, level, content)) == 0
  {
  }

  /** A line once the passes above `level` have run. */
  function Stage(fmt: Format, line: string, level: nat): string {
    if HeaderLevel(line) > level then HeaderLine(fmt, line) else line
  }

  lemma StageStep(fmt: Format, line: string, level: nat)
    requires 1 <= level <= 6 && Standalone(line)
    ensures Standalone(Stage(fmt, line, level))
    ensures Replace(Stage(fmt, line, level), HeaderMatcher(fmt, level)) == Stage(fmt, line, level - 1)
  {
    if HeaderLevel(line) > level {
      TagStandalone(fmt, HeaderLevel(line), HeaderText(line));
      HeaderPassLine(fmt, level, HeaderLine(fmt, line));
    } else {
      HeaderPassLine(fmt, level, line);
    }
  }

  function Stages(fmt: Format, lines: seq<string>, level: nat): (r: seq<string>)
    ensures |r| == |lines| && forall i :: 0 <= i < |lines| ==> r[i] == Stage(fmt, lines[i], level)
  {
    seq(|lines|, i requires 0 <= i < |lines| => Stage(fmt, lines[i], level))
  }

  lemma {:induction false} StagesFrom(fmt: Format, lines: seq<string>, level: nat)
    requires level <= 6 && |lines| >= 1
    requires forall i :: 0 <= i < |lines| ==> Standalone(lines[i])
    ensures HeadersFrom(fmt, Join(Stages(fmt, lines, level), '\n'), level) == Join(Stages(fmt, lines, 0), '\n')
    decreases level
  {
    if level > 0 {
      StagesStep(fmt, lines, level);
      StagesFrom(fmt, lines, level - 1);
      PassThen(fmt, Join(Stages(fmt, lines, level), '\n'), Join(Stages(fmt, lines, level - 1), '\n'), level);
    }
  }

  /** The passes from `level` down are the pass for `level`, then those below it. */
  lemma PassThen(fmt: Format, s: string, t: string, level: nat)
    requires 1 <= level <= 6 && Replace(s, HeaderMatcher(fmt, level)) == t
    ensures HeadersFrom(fmt, s, level) == HeadersFrom(fmt, t, level - 1)
  {
  }

  /** The pass for `level` takes every line from one stage to the next. */
  lemma StagesStep(fmt: Format, lines: seq<string>, level: nat)
    requires 1 <= level <= 6 && |lines| >= 1
    requires forall i :: 0 <= i < |lines| ==> Standalone(lines[i])
    ensures Replace(Join(Stages(fmt, lines, level), '\n'), HeaderMatcher(fmt, level))
            == Join(Stages(fmt, lines, level - 1), '\n')
  {
    var f := HeaderMatcher(fmt, level);
    var cur := Stages(fmt, lines, level);
    forall i | 0 <= i < |cur| ensures Confined(f, cur[i]) && Replace(cur[i], f) == Stage(fmt, lines[i], level - 1) {
      StageStep(fmt, lines[i], level);
      HeaderConfined(fmt, level, cur[i]);
    }
    HeaderSees(fmt, level);
    ReplaceLines(cur, f);
    assert EachLine(cur, f) == Stages(fmt, lines, level - 1);
  }

  /**
   * Text made of standalone lines: every line is converted on its own, a
   * header line to its tag and any other line left as it is.
   */
  lemma HeadersByLine(fmt: Format, lines: seq<string>)
    requires |lines| >= 1 && forall i :: 0 <= i < |lines| ==> Standalone(lines[i])
    ensures Headers(fmt, Join(lines, '\n')) ==
            Join(seq(|lines|, i requires 0 <= i < |lines| => HeaderLine(fmt, lines[i])), '\n')
  {
    assert Stages(fmt, lines, 6) == lines;
    StagesFrom(fmt, lines, 6);
    assert Stages(fmt, lines, 0) == seq(|lines|, i requires 0 <= i < |lines| => HeaderLine(fmt, lines[i]));
  }

  lemma ShapeHashes(n: nat, ws: string, content: string)
    requires ws != [] && AllSpace(ws)
    ensures Hashes(Repeat('#', n) + ws + content) == n
  {
    assert Repeat('#', n) + ws + content == Repeat('#', n) + (ws + content);
    assert (ws + content)[0] == ws[0] && IsSpace(ws[0]);
    HashesOf(Repeat('#', n), ws + content);
  }

  lemma ShapeSpace(n: nat, ws: string, content: string)
    requires AllSpace(ws) && content != [] && !IsSpace(content[0])
    ensures SpaceRun((Repeat('#', n) + ws + content)[n..]) == |ws|
    ensures (Repeat('#', n) + ws + content)[n + |ws|..] == content
  {
    var line := Repeat('#', n) + ws + content;
    assert line[n..] == ws + content;
    SpaceRunOf(ws, content);
    assert line[n + |ws|..] == content;
  }

  lemma ShapeLine(n: nat, ws: string, content: string)
    requires NoTerminator(ws) && NoTerminator(content)
    ensures NoTerminator(Repeat('#', n) + ws + content)
  {
    var line := Repeat('#', n) + ws + content;
    forall i | 0 <= i < |line| ensures !IsTerminator(line[i]) {
      if i >= n + |ws| { assert line[i] == content[i - n - |ws|]; }
      else if i >= n { assert line[i] == ws[i - n]; }
    }
  }

  /** The shape of `#…# text`: its run of `#`, its whitespace and its text. */
  lemma HeaderShape(n: nat, ws: string, content: string)
    requires ws != [] && AllSpace(ws) && NoTerminator(ws)
    requires content != [] && !IsSpace(content[0]) && NoTerminator(content)
    ensures Hashes(Repeat('#', n) + ws + content) == n
    ensures SpaceRun((Repeat('#', n) + ws + content)[n..]) == |ws|
    ensures (Repeat('#', n) + ws + content)[n + |ws|..] == content
    ensures Standalone(Repeat('#', n) + ws + content)
  {
    ShapeHashes(n, ws, content);
    ShapeSpace(n, ws, content);
    ShapeLine(n, ws, content);
  }

  /** `#…# text` with one to six `#` becomes the tag of that level around the text. */
  lemma HeaderLineOf(fmt: Format, level: nat, ws: string, content: string)
    requires 1 <= level <= 6 && ws != [] && AllSpace(ws) && NoTerminator(ws)
    requires content != [] && !IsSpace(content[0]) && NoTerminator(content)
    ensures Headers(fmt, Repeat('#', level) + ws + content) == HeaderTag(fmt, level, content)
  {
    var line := Repeat('#', level) + ws + content;
    HeaderShape(level, ws, content);
    HeadersOneLine(fmt, line);
  }

  /** A text of one standalone line is converted as that line. */
  lemma HeadersOneLine(fmt: Format, line: string)
    requires Standalone(line)
    ensures Headers(fmt, line) == HeaderLine(fmt, line)
  {
    HeadersByLine(fmt, [line]);
    assert Join([line], '\n') == line;
    assert Join([HeaderLine(fmt, line)], '\n') == HeaderLine(fmt, line);
    assert seq(1, i requires 0 <= i < 1 => HeaderLine(fmt, [line][i])) == [HeaderLine(fmt, line)];
  }

  /** Seven or more `#` make no header: the line is left as it is. */
  lemma TooManyHashes(fmt: Format, n: nat, ws: string, content: string)
    requires n >= 7 && ws != [] && AllSpace(ws) && NoTerminator(ws)
    requires content != [] && !IsSpace(content[0]) && NoTerminator(content)
    ensures Headers(fmt, Repeat('#', n) + ws + content) == Repeat('#', n) + ws + content
  {
    var line := Repeat('#', n) + ws + content;
    HeaderShape(n, ws, content);
    HeadersOneLine(fmt, line);
  }

  lemma {:induction false} HashesOf(hs: string, rest: string)
    requires forall i :: 0 <= i < |hs| ==> hs[i] == '#'
    requires rest == [] || rest[0] != '#'
    ensures Hashes(hs + rest) == |hs|
    decreases |hs|
  {
    if hs != [] {
      assert (hs + rest)[1..] == hs[1..] + rest;
      HashesOf(hs[1..], rest);
    }
  }
}
