/**
 * Markdown tables (`TableConversionStrategy`): a `|…|` header row, a
 * separator row of `-`, `:`, `|` and whitespace, then any number of `|…|`
 * body rows become `[table]` markup with one `[tr]` per row, `[th]` cells for
 * the header and `[td]` cells for the body. The format is not consulted.
 */
module Tables {
  import opened Wrappers
  import opened Text
  import opened Scanner

  // ----- Rows and cells -----

  /** `row.replace(/^\||\|$/g, '')`: a leading `|` is dropped, then a trailing one. */
  function StripPipes(row: string): string {
    var a := if row != [] && row[0] == '|' then row[1..] else row;
    if a != [] && a[|a| - 1] == '|' then a[..|a| - 1] else a
  }

  /** Every piece trimmed. */
  function Trims(xs: seq<string>): (r: seq<string>)
    ensures |r| == |xs| && forall i :: 0 <= i < |xs| ==> r[i] == Trim(xs[i])
  {
    seq(|xs|, i requires 0 <= i < |xs| => Trim(xs[i]))
  }

  /** `parseTableRow`: the pipes at the ends dropped, split on every other pipe, each cell trimmed. */
  function ParseRow(row: string): (cells: seq<string>)
    ensures |cells| == Count(StripPipes(row), '|') + 1
  {
    SplitCount(StripPipes(row), '|');
    Trims(Split(StripPipes(row), '|'))
  }

  /** A row written `|inner|` has exactly the pipes at its two ends dropped, whatever `inner` holds. */
  lemma StripWrapped(inner: string)
    ensures StripPipes("|" + inner + "|") == inner
  {
    var a := ("|" + inner + "|")[1..];
    assert a == inner + "|";
    assert a[..|a| - 1] == inner;
  }

  /**
   * The cells of `|inner|` are the pieces of `inner` between its pipes, trimmed:
   * one more cell than `inner` has pipes.
   */
  lemma CellsOfRow(inner: string)
    ensures ParseRow("|" + inner + "|") == Trims(Split(inner, '|'))
    ensures |ParseRow("|" + inner + "|")| == Count(inner, '|') + 1
  {
    StripWrapped(inner);
  }

  /** Every cell comes out trimmed. */
  lemma CellsTrimmed(row: string)
    ensures forall i :: 0 <= i < |ParseRow(row)| ==> Trim(ParseRow(row)[i]) == ParseRow(row)[i]
  {
    var pieces := Split(StripPipes(row), '|');
    forall i | 0 <= i < |pieces| ensures Trim(Trim(pieces[i])) == Trim(pieces[i]) {
      TrimTwice(pieces[i]);
    }
  }

  /** A row that holds only whitespace between its pipes has one empty cell. */
  lemma BlankCell(ws: string)
    requires AllSpace(ws)
    ensures ParseRow("|" + ws + "|") == [""]
  {
    CellsOfRow(ws);
    assert '|' !in ws by {
      assert forall i :: 0 <= i < |ws| ==> IsSpace(ws[i]);
    }
    IndexOfAbsent(ws, '|');
    assert Split(ws, '|') == [ws];
    TrimBlank(ws);
  }

  lemma IndexOfAbsent(s: string, c: char)
    requires c !in s
    ensures IndexOf(s, c) == None
  {
  }

  // ----- The markup -----

  /** What `f` makes of each element, one after another. */
  function ConcatMap(f: string -> string, xs: seq<string>): string
    decreases |xs|
  {
    if xs == [] then [] else ConcatMap(f, xs[..|xs| - 1]) + f(xs[|xs| - 1])
  }

  /** `ConcatMap` of two sequences one after the other. */
  lemma {:induction false} ConcatAppend(f: string -> string, a: seq<string>, b: seq<string>)
    ensures ConcatMap(f, a + b) == ConcatMap(f, a) + ConcatMap(f, b)
    decreases |b|
  {
    if b == [] {
      assert a + b == a;
    } else {
      var c := b[..|b| - 1];
      assert (a + b)[..|a + b| - 1] == a + c;
      assert (a + b)[|a + b| - 1] == b[|b| - 1];
      ConcatAppend(f, a, c);
    }
  }

  lemma ConcatStep(f: string -> string, xs: seq<string>, i: nat)
    requires i < |xs|
    ensures ConcatMap(f, xs[..i + 1]) == ConcatMap(f, xs[..i]) + f(xs[i])
  {
    assert xs[..i + 1][..i] == xs[..i];
  }

  /** A header cell, trimmed again on the way out. */
  function HeaderCell(cell: string): string {
    "[th]" + Trim(cell) + "[/th]\n"
  }

  /** A body cell, trimmed again on the way out. */
  function BodyCell(cell: string): string {
    "[td]" + Trim(cell) + "[/td]\n"
  }

  /** A row of cells, or nothing for a row without cells. */
  function RowMarkup(cell: string -> string, cells: seq<string>): string {
    if |cells| > 0 then "[tr]\n" + ConcatMap(cell, cells) + "[/tr]\n" else []
  }

  /** A body line is converted when it is not blank and holds a pipe. */
  predicate KeptRow(row: string) {
    Trim(row) != [] && '|' in row
  }

  function LineMarkup(row: string): string {
    if KeptRow(row) then RowMarkup(BodyCell, ParseRow(row)) else []
  }

  /** What the replacement callback returns for the captured header row and body rows. */
  function TableMarkup(headerRow: string, bodyRows: string): string {
    "[table]\n" + RowMarkup(HeaderCell, ParseRow(headerRow))
      + ConcatMap(LineMarkup, Split(Trim(bodyRows), '\n')) + "[/table]\n"
  }

  /** The cell markup of the header row or of a body row. */
  function CellOf(header: bool): string -> string {
    if header then HeaderCell else BodyCell
  }

  /** Appends `[tr]`, one cell after another, then `[/tr]`, as each loop of the callback does. */
  method AppendRow(result: string, cells: seq<string>, header: bool) returns (r: string)
    ensures r == result + "[tr]\n" + ConcatMap(CellOf(header), cells) + "[/tr]\n"
  {
    r := result + "[tr]\n";
    var opening := r;
    for i := 0 to |cells|
      invariant r == opening + ConcatMap(CellOf(header), cells[..i])
    {
      var cell := if header then "[th]" + Trim(cells[i]) + "[/th]\n" else "[td]" + Trim(cells[i]) + "[/td]\n";
      ConcatStep(CellOf(header), cells, i);
      Regroup(opening, ConcatMap(CellOf(header), cells[..i]), cell);
      r := r + cell;
    }
    assert cells[..|cells|] == cells;
    r := r + "[/tr]\n";
  }

  /** The loop over the body lines: each line that is kept becomes a row. */
  method AppendBody(result: string, rows: seq<string>) returns (r: string)
    ensures r == result + ConcatMap(LineMarkup, rows)
  {
    r := result;
    for k := 0 to |rows|
      invariant r == result + ConcatMap(LineMarkup, rows[..k])
    {
      var row := rows[k];
      var before := r;
      if Trim(row) != [] && '|' in row {
        var cells := ParseRow(row);
        if |cells| > 0 {
          r := AppendRow(r, cells, false);
          Wrap(before, "[tr]\n", ConcatMap(BodyCell, cells), "[/tr]\n");
        }
      }
      ConcatStep(LineMarkup, rows, k);
      Regroup(result, ConcatMap(LineMarkup, rows[..k]), LineMarkup(row));
    }
    assert rows[..|rows|] == rows;
  }

  /** The replacement callback, building its result piece by piece. */
  method ConvertTable(headerRow: string, bodyRows: string) returns (result: string)
    ensures result == TableMarkup(headerRow, bodyRows)
  {
    result := "[table]\n";
    var headers := ParseRow(headerRow);
    if |headers| > 0 {
      result := AppendRow(result, headers, true);
      Wrap("[table]\n", "[tr]\n", ConcatMap(HeaderCell, headers), "[/tr]\n");
    }
    result := AppendBody(result, Split(Trim(bodyRows), '\n'));
    result := result + "[/table]\n";
  }

  lemma Wrap(x: string, a: string, m: string, b: string)
    ensures x + a + m + b == x + (a + m + b)
  {
  }

  lemma ConcatOne(f: string -> string, x: string)
    ensures ConcatMap(f, [x]) == f(x)
  {
    assert [x][..0] == [];
  }

  /** An element that `f` maps to nothing can be dropped. */
  lemma Dropped(f: string -> string, a: seq<string>, x: string, b: seq<string>)
    requires f(x) == []
    ensures ConcatMap(f, a + [x] + b) == ConcatMap(f, a + b)
  {
    ConcatAppend(f, a + [x], b);
    ConcatAppend(f, a, [x]);
    ConcatAppend(f, a, b);
    ConcatOne(f, x);
  }

  /** Blank lines and lines without a pipe add nothing, wherever they stand among the body lines. */
  lemma Skipped(a: seq<string>, row: string, b: seq<string>)
    requires !KeptRow(row)
    ensures ConcatMap(LineMarkup, a + [row] + b) == ConcatMap(LineMarkup, a + b)
  {
    Dropped(LineMarkup, a, row, b);
  }

  // ----- Finding a table -----

  /** `[-\s|:]`: what a separator row is made of. */
  predicate IsRuleChar(c: char) {
    c == '-' || c == ':' || c == '|' || IsSpace(c)
  }

  predicate RuleText(s: string) {
    forall i :: 0 <= i < |s| ==> IsRuleChar(s[i])
  }

  /** Length of the longest prefix of separator characters: what a greedy `[-\s|:]+` consumes. */
  function RuleRun(s: string): (n: nat)
    ensures n <= |s| && RuleText(s[..n])
    ensures n < |s| ==> !IsRuleChar(s[n])
  {
    if s == [] || !IsRuleChar(s[0]) then 0
    else
      var n := RuleRun(s[1..]);
      assert s[..n + 1] == [s[0]] + s[1..][..n];
      n + 1
  }

  /** The last position in `[lo, hi)` that holds `c`. */
  function LastAt(t: string, c: char, lo: nat, hi: nat): (r: Option<nat>)
    requires hi <= |t|
    ensures r.Some? ==> lo <= r.value < hi && t[r.value] == c
    ensures r.Some? ==> forall j :: r.value < j < hi ==> t[j] != c
    ensures r.None? ==> forall j :: lo <= j < hi ==> t[j] != c
    decreases hi
  {
    if hi <= lo then None
    else if t[hi - 1] == c then Some(hi - 1)
    else LastAt(t, c, lo, hi - 1)
  }

  /**
   * `\|(.+)\|` for a row whose opening pipe is at `i`: the greedy `.+` stays
   * on the line and gives back to the line's last pipe, at least two places on.
   */
  function Closing(t: string, i: nat): (r: Option<nat>)
    requires i <= |t|
    ensures r.Some? ==> i + 2 <= r.value < |t| && t[r.value] == '|'
  {
    LastAt(t, '|', i + 2, LineEnd(t, i))
  }

  /**
   * `\s*\n` at `a`: the greedy `\s*` takes the whole whitespace run, then
   * gives back to just before the run's last line feed.
   */
  function Gap(t: string, a: nat): (r: Option<nat>)
    requires a <= |t|
    ensures r.Some? ==> a < r.value <= |t| && t[r.value - 1] == '\n'
  {
    match LastAt(t, '\n', a, a + SpaceRun(t[a..]))
    case None => None
    case Some(k) => Some(k + 1)
  }

  /** `^\|(.+)\|\s*\n\|`: the header's closing pipe and where the separator row starts. */
  function HeaderAt(t: string): (r: Option<(nat, nat)>)
    ensures r.Some? ==> 2 <= r.value.0 < r.value.1 < |t| && t[r.value.1] == '|'
  {
    if t == [] || t[0] != '|' then None
    else match Closing(t, 0)
      case None => None
      case Some(p) =>
        match Gap(t, p + 1)
        case None => None
        case Some(h) => if h < |t| && t[h] == '|' then Some((p, h)) else None
  }

  /**
   * The separator row opening at `h`, `\|[-\s|:]+\|\s*\n`: the greedy run of
   * separator characters gives back to its last pipe that a line feed follows.
   */
  function SeparatorAt(t: string, h: nat): (r: Option<nat>)
    requires h < |t|
    ensures r.Some? ==> h + 3 < r.value <= |t|
  {
    SepEnd(t, h + 2, h + 1 + RuleRun(t[h + 1..]))
  }

  function SepEnd(t: string, lo: nat, hi: nat): (r: Option<nat>)
    requires hi <= |t|
    ensures r.Some? ==> lo + 1 < r.value <= |t|
    decreases hi
  {
    if hi <= lo then None
    else if t[hi - 1] == '|' && Gap(t, hi).Some? then Gap(t, hi)
    else SepEnd(t, lo, hi - 1)
  }

  /**
   * `(?:\|.+\|\s*\n?)*` from `i`: each body row runs to its line's last pipe,
   * then takes all the whitespace after it, blank lines included.
   */
  function BodyEnd(t: string, i: nat): (e: nat)
    requires i <= |t|
    ensures i <= e <= |t|
    decreases |t| - i
  {
    match NextRow(t, i)
    case None => i
    case Some(j) => BodyEnd(t, j)
  }

  /** One round of the group at `i`: where the next round starts, if the group matches here. */
  function NextRow(t: string, i: nat): (r: Option<nat>)
    requires i <= |t|
    ensures r.Some? ==> i < r.value <= |t|
  {
    if i < |t| && t[i] == '|' then
      match Closing(t, i)
      case None => None
      case Some(p) => Some(p + 1 + SpaceRun(t[p + 1..]))
    else None
  }

  /** The table regular expression tried at the start of `t`, with the callback's markup. */
  function TableAt(t: string): Option<Match> {
    match HeaderAt(t)
    case None => None
    case Some((p, h)) =>
      match SeparatorAt(t, h)
      case None => None
      case Some(b) =>
        var e := BodyEnd(t, b);
        Some(Match(e, TableMarkup(t[1..p], t[b..e])))
  }

  /** Under the `m` flag the table starts at the beginning of a line. */
  function TableMatcher(): Matcher {
    (prev: Option<char>, t: string) => if AtLineStart(prev) then TableAt(t) else None
  }

  /** `TableConversionStrategy.convert`. */
  function Tables(s: string): string {
    Replace(s, TableMatcher())
  }

  // ----- Steps of the pattern -----

  /** A non-empty line. */
  predicate IsLine(s: string) {
    s != [] && NoTerminator(s)
  }

  /** A row `|r|` alone on its line closes at its last pipe. */
  lemma RowClose(t: string, i: nat, r: string, y: string)
    requires i <= |t| && t[i..] == "|" + r + "|" + y
    requires IsLine(r) && (y == [] || IsTerminator(y[0]))
    ensures Closing(t, i) == Some(i + |r| + 1)
  {
    var line := "|" + r + "|";
    assert NoTerminator(line) by {
      assert forall k :: 1 <= k <= |r| ==> line[k] == r[k - 1];
    }
    assert t[i..] == line + y;
    LineLenOf(line, y);
    assert t[i + |r| + 1] == t[i..][|r| + 1];
  }

  /** A line feed followed by something other than whitespace ends `\s*\n` just after it. */
  lemma LineGap(x: string, y: string)
    requires y == [] || !IsSpace(y[0])
    ensures Gap(x + "\n" + y, |x|) == Some(|x| + 1)
  {
    var t := x + "\n" + y;
    assert t[|x|..] == "\n" + y;
    SpaceRunOf("\n", y);
  }

  /** `\s*\n` finds no line feed when something other than whitespace comes first on the same line. */
  lemma NoGap(t: string, a: nat, z: nat)
    requires a <= z < |t| && !IsSpace(t[z]) && forall j :: a <= j < z ==> !IsTerminator(t[j])
    ensures Gap(t, a).None?
  {
    assert t[a..][z - a] == t[z];
    SpaceRunBefore(t[a..], z - a);
  }

  /** The separator search settles on the highest pipe that `\s*\n` can follow. */
  lemma {:induction false} SepEndAt(t: string, lo: nat, hi: nat, q0: nat)
    requires lo <= q0 < hi <= |t| && t[q0] == '|' && Gap(t, q0 + 1).Some?
    requires forall q :: q0 < q < hi && t[q] == '|' ==> Gap(t, q + 1).None?
    ensures SepEnd(t, lo, hi) == Gap(t, q0 + 1)
    decreases hi
  {
    if hi - 1 != q0 {
      SepEndAt(t, lo, hi - 1, q0);
    }
  }

  lemma {:induction false} RuleRunOf(a: string, b: string)
    requires RuleText(a)
    ensures RuleRun(a + b) == |a| + RuleRun(b)
    decreases |a|
  {
    if a != [] {
      assert (a + b)[1..] == a[1..] + b;
      assert (a + b)[0] == a[0];
      RuleRunOf(a[1..], b);
    } else {
      assert a + b == b;
    }
  }

  lemma {:induction false} RuleRunBefore(s: string, z: nat)
    requires z < |s| && !IsRuleChar(s[z])
    ensures RuleRun(s) <= z
    decreases z
  {
    if IsRuleChar(s[0]) {
      assert s[1..][z - 1] == s[z];
      RuleRunBefore(s[1..], z - 1);
    }
  }

  /** The header row `|header|` on its own line, with the separator row's pipe next. */
  lemma HeaderOf(header: string, y: string)
    requires IsLine(header) && y != [] && y[0] == '|'
    ensures HeaderAt("|" + header + "|\n" + y) == Some((|header| + 1, |header| + 3))
  {
    var t := "|" + header + "|\n" + y;
    var line := "|" + header + "|";
    assert t == [] + "|" + header + "|" + ("\n" + y) && t == line + "\n" + y by {
      Regroup(line, "\n", y);
    }
    RowClose(t, 0, header, "\n" + y);
    LineGap(line, y);
    assert t[|header| + 3] == y[0];
  }

  /** Some character of `y` ends the run of separator characters before a line feed does. */
  predicate StopsRule(y: string) {
    y == [] || exists k :: 0 <= k < |y| && !IsRuleChar(y[k]) && NoTerminator(y[..k])
  }

  /** A separator row: pipes, dashes, colons and blanks, on one line. */
  predicate IsRule(rule: string) {
    rule != [] && RuleText(rule) && NoTerminator(rule)
  }

  /** The separator row `|rule|` on its own line ends just after its line feed. */
  lemma SeparatorOf(x: string, rule: string, y: string)
    requires IsRule(rule) && (y == [] || !IsSpace(y[0])) && StopsRule(y)
    ensures SeparatorAt(x + "|" + rule + "|\n" + y, |x|) == Some(|x| + |rule| + 3)
  {
    var w := x + "|" + rule + "|\n";
    var q0 := |x| + 1 + |rule|;
    var hi := |x| + |rule| + 3 + RuleRun(y);
    assert RuleRun((w + y)[|x| + 1..]) == |rule| + 2 + RuleRun(y) by {
      SeparatorRun(x, rule, y);
    }
    assert (w + y)[q0] == '|' && w[q0 + 1] == '\n' && Gap(w + y, q0 + 1) == Some(|x| + |rule| + 3) by {
      SeparatorGap(x, rule, y);
    }
    NoLaterGap(w, y, q0);
    SeparatorFound(w + y, |x|, q0, hi);
  }

  /** The separator search from `h` settles on the pipe at `q0` when no later pipe in the run has a line feed after it. */
  lemma SeparatorFound(t: string, h: nat, q0: nat, hi: nat)
    requires h + 2 <= q0 < hi <= |t| && hi == h + 1 + RuleRun(t[h + 1..])
    requires t[q0] == '|' && Gap(t, q0 + 1).Some?
    requires forall q :: q0 < q < hi && t[q] == '|' ==> Gap(t, q + 1).None?
    ensures SeparatorAt(t, h) == Gap(t, q0 + 1)
  {
    SepEndAt(t, h + 2, hi, q0);
  }

  lemma SeparatorRun(x: string, rule: string, y: string)
    requires RuleText(rule)
    ensures RuleRun((x + "|" + rule + "|\n" + y)[|x| + 1..]) == |rule| + 2 + RuleRun(y)
  {
    assert (x + "|" + rule + "|\n" + y)[|x| + 1..] == rule + ("|\n" + y);
    RuleRunOf(rule, "|\n" + y);
    RuleRunOf("|\n", y);
  }

  lemma SeparatorGap(x: string, rule: string, y: string)
    requires y == [] || !IsSpace(y[0])
    ensures Gap(x + "|" + rule + "|\n" + y, |x| + 1 + |rule| + 1) == Some(|x| + |rule| + 3)
    ensures (x + "|" + rule + "|\n" + y)[|x| + 1 + |rule|] == '|'
    ensures (x + "|" + rule + "|\n")[|x| + 1 + |rule| + 1] == '\n'
  {
    assert x + "|" + rule + "|\n" + y == (x + "|" + rule + "|") + "\n" + y;
    LineGap(x + "|" + rule + "|", y);
  }

  /** After the separator row's line feed, no pipe inside the separator run has a line feed after it. */
  lemma NoLaterGap(w: string, y: string, q0: nat)
    requires q0 + 2 == |w| && w[q0 + 1] == '\n' && StopsRule(y)
    ensures forall q :: q0 < q < |w| + RuleRun(y) && (w + y)[q] == '|' ==> Gap(w + y, q + 1).None?
  {
    var t := w + y;
    if RuleRun(y) > 0 {
      var k :| 0 <= k < |y| && !IsRuleChar(y[k]) && NoTerminator(y[..k]);
      RuleRunBefore(y, k);
      forall q | q0 < q < |w| + RuleRun(y) && t[q] == '|' ensures Gap(t, q + 1).None? {
        if q > q0 + 1 {
          NoGapIn(w, y, k, q);
        }
      }
    }
  }

  /** A pipe in `y` before the character that stops the separator run has no line feed after it. */
  lemma NoGapIn(w: string, y: string, k: nat, q: nat)
    requires k < |y| && !IsRuleChar(y[k]) && NoTerminator(y[..k]) && |w| <= q < |w| + k
    ensures Gap(w + y, q + 1).None?
  {
    var t := w + y;
    var z := |w| + k;
    assert t[z] == y[k];
    assert forall j :: q + 1 <= j < z ==> t[j] == y[..k][j - |w|];
    NoGap(t, q + 1, z);
  }

  /** The body rows, each `|r|` on its own line. */
  function RowLines(rows: seq<string>): string
    decreases |rows|
  {
    if rows == [] then [] else "|" + rows[0] + "|\n" + RowLines(rows[1..])
  }

  predicate AllLines(rows: seq<string>) {
    forall i :: 0 <= i < |rows| ==> IsLine(rows[i])
  }

  /** What may follow the body: nothing, or a line that does not start with whitespace or a pipe. */
  predicate AfterBody(rest: string) {
    rest == [] || (!IsSpace(rest[0]) && rest[0] != '|')
  }

  lemma RowLinesStep(rows: seq<string>, rest: string)
    requires rows != []
    ensures RowLines(rows) + rest == "|" + rows[0] + "|" + ("\n" + (RowLines(rows[1..]) + rest))
  {
  }

  /** The repeated body group takes every row and stops where the rest begins. */
  lemma {:induction false} BodyOf(t: string, i: nat, rows: seq<string>, rest: string)
    requires i <= |t| && t[i..] == RowLines(rows) + rest
    requires AllLines(rows) && AfterBody(rest)
    ensures BodyEnd(t, i) == i + |RowLines(rows)|
    decreases |rows|
  {
    if rows == [] {
      BodyStop(t, i, rest);
    } else {
      var j := BodyCons(t, i, rows, rest);
      BodyOf(t, j, rows[1..], rest);
    }
  }

  /** The first body row is one round of the group; the rest of the body follows it. */
  lemma BodyCons(t: string, i: nat, rows: seq<string>, rest: string) returns (j: nat)
    requires i <= |t| && t[i..] == RowLines(rows) + rest
    requires rows != [] && AllLines(rows) && AfterBody(rest)
    ensures j <= |t| && t[j..] == RowLines(rows[1..]) + rest && AllLines(rows[1..])
    ensures BodyEnd(t, i) == BodyEnd(t, j) && j + |RowLines(rows[1..])| == i + |RowLines(rows)|
  {
    RowsHead(rows, rest);
    j := BodyHead(t, i, rows[0], RowLines(rows[1..]) + rest);
  }

  /** The first row of a body, and what comes after it. */
  lemma RowsHead(rows: seq<string>, rest: string)
    requires rows != [] && AllLines(rows) && AfterBody(rest)
    ensures RowLines(rows) + rest == "|" + rows[0] + "|" + ("\n" + (RowLines(rows[1..]) + rest))
    ensures |RowLines(rows)| == |rows[0]| + 3 + |RowLines(rows[1..])|
    ensures IsLine(rows[0]) && AllLines(rows[1..])
    ensures RowLines(rows[1..]) + rest == [] || !IsSpace((RowLines(rows[1..]) + rest)[0])
  {
    RowLinesStep(rows, rest);
    RowLinesStart(rows[1..]);
    AllLinesTail(rows);
  }

  /** One body row at `i`: the body goes on at the next line, where `y` begins. */
  lemma BodyHead(t: string, i: nat, r: string, y: string) returns (j: nat)
    requires i <= |t| && t[i..] == "|" + r + "|" + ("\n" + y)
    requires IsLine(r) && (y == [] || !IsSpace(y[0]))
    ensures j == i + |r| + 3 && j <= |t| && t[j..] == y
    ensures NextRow(t, i) == Some(j) && BodyEnd(t, i) == BodyEnd(t, j)
  {
    j := i + |r| + 3;
    RowRest(t, i, r, y);
    RowStep(t, i, r, y);
    BodyIs(t, i, j);
  }

  lemma RowRest(t: string, i: nat, r: string, y: string)
    requires i <= |t| && t[i..] == "|" + r + "|" + ("\n" + y)
    ensures i + |r| + 3 <= |t| && t[i + |r| + 3..] == y
  {
    Suffix(t, i, "|" + r + "|", "\n" + y);
    Suffix(t, i + |r| + 2, "\n", y);
  }

  lemma Suffix(t: string, i: nat, a: string, b: string)
    requires i <= |t| && t[i..] == a + b
    ensures i + |a| <= |t| && t[i + |a|..] == b
  {
    assert t[i + |a|..] == t[i..][|a|..];
  }

  lemma BodyStop(t: string, i: nat, rest: string)
    requires i <= |t| && t[i..] == RowLines([]) + rest && AfterBody(rest)
    ensures BodyEnd(t, i) == i
  {
    assert i == |t| || t[i] != '|' by {
      assert i < |t| ==> t[i] == t[i..][0];
    }
  }

  lemma BodyIs(t: string, i: nat, j: nat)
    requires i <= |t| && NextRow(t, i) == Some(j)
    ensures BodyEnd(t, i) == BodyEnd(t, j)
  {
  }

  lemma NextRowIs(t: string, i: nat, p: nat, w: nat)
    requires i < |t| && t[i] == '|' && Closing(t, i) == Some(p) && SpaceRun(t[p + 1..]) == w
    ensures NextRow(t, i) == Some(p + 1 + w)
  {
  }

  lemma RowLinesStart(rows: seq<string>)
    ensures RowLines(rows) == [] || RowLines(rows)[0] == '|'
  {
  }

  lemma AllLinesTail(rows: seq<string>)
    requires rows != [] && AllLines(rows)
    ensures AllLines(rows[1..])
  {
    assert forall i :: 0 <= i < |rows[1..]| ==> rows[1..][i] == rows[i + 1];
  }

  /** One body row: it closes at its last pipe and the whitespace after it is its line feed. */
  lemma RowStep(t: string, i: nat, r: string, y: string)
    requires i <= |t| && t[i..] == "|" + r + "|" + ("\n" + y)
    requires IsLine(r) && (y == [] || !IsSpace(y[0]))
    ensures NextRow(t, i) == Some(i + |r| + 3)
  {
    RowClose(t, i, r, "\n" + y);
    assert t[i + |r| + 2..] == "\n" + y by {
      assert t[i + |r| + 2..] == t[i..][|r| + 2..];
    }
    SpaceRunOf("\n", y);
    assert t[i] == t[i..][0];
    NextRowIs(t, i, i + |r| + 1, 1);
  }

  // ----- Whole tables -----

  /** A table written out: the header row, the separator row and the body rows, each on its own line. */
  function TableText(header: string, rule: string, rows: seq<string>): string {
    "|" + header + "|\n" + "|" + rule + "|\n" + RowLines(rows)
  }

  /**
   * The table is followed by `rest`, and the separator run cannot reach past
   * the separator row: the first body row holds a character that is not a
   * separator character, or, without body rows, `rest` does not start with one.
   */
  predicate WellFormed(header: string, rule: string, rows: seq<string>, rest: string) {
    IsLine(header) && IsRule(rule) && AllLines(rows) && AfterBody(rest)
    && if rows == [] then rest == [] || !IsRuleChar(rest[0]) else !RuleText(rows[0])
  }

  /** A body row: one `[td]` per pipe-separated cell. */
  function BodyRow(row: string): string {
    "[tr]\n" + ConcatMap(BodyCell, Trims(Split(row, '|'))) + "[/tr]\n"
  }

  /** Each body row `|r|` on its own line. */
  function Wrapped(rows: seq<string>): seq<string> {
    Framed(rows, "|", "|")
  }

  /** The regular expression matches the whole table and nothing after it. */
  lemma TableAtOf(header: string, rule: string, rows: seq<string>, rest: string)
    requires WellFormed(header, rule, rows, rest)
    ensures TableAt(TableText(header, rule, rows) + rest)
         == Some(Match(|TableText(header, rule, rows)|, TableMarkup(header, RowLines(rows))))
  {
    var t := TableText(header, rule, rows) + rest;
    var x := "|" + header + "|\n";
    var y := RowLines(rows) + rest;
    var b := |x| + |rule| + 3;
    TableSlices(header, rule, rows, rest);
    assert HeaderAt(t) == Some((|header| + 1, |header| + 3)) by {
      TableParts(header, rule, rows, rest);
      HeaderOf(header, "|" + rule + "|\n" + y);
    }
    assert SeparatorAt(t, |x|) == Some(b) by {
      TableParts(header, rule, rows, rest);
      BodyStart(rows, rest);
      SeparatorOf(x, rule, y);
    }
    assert BodyEnd(t, b) == b + |RowLines(rows)| by {
      BodyOf(t, b, rows, rest);
    }
    TableAtIs(t, |header| + 1, |x|, b);
  }

  lemma TableAtIs(t: string, p: nat, h: nat, b: nat)
    requires HeaderAt(t) == Some((p, h)) && SeparatorAt(t, h) == Some(b)
    ensures TableAt(t) == Some(Match(BodyEnd(t, b), TableMarkup(t[1..p], t[b..BodyEnd(t, b)])))
  {
  }

  /** The table regrouped as the header and separator lemmas see it. */
  lemma TableParts(header: string, rule: string, rows: seq<string>, rest: string)
    ensures var t := TableText(header, rule, rows) + rest;
      && t == "|" + header + "|\n" + ("|" + rule + "|\n" + (RowLines(rows) + rest))
      && t == ("|" + header + "|\n") + "|" + rule + "|\n" + (RowLines(rows) + rest)
  {
  }

  /** The header row and the body rows as slices of the table. */
  lemma TableSlices(header: string, rule: string, rows: seq<string>, rest: string)
    ensures var t := TableText(header, rule, rows) + rest;
      var b := |header| + |rule| + 6;
      && |t| == b + |RowLines(rows)| + |rest|
      && t[1..|header| + 1] == header
      && t[b..] == RowLines(rows) + rest
      && t[b..b + |RowLines(rows)|] == RowLines(rows)
  {
    Behind("|" + header + "|\n" + "|" + rule + "|\n", RowLines(rows), rest);
  }

  lemma Behind(p: string, r: string, z: string)
    ensures (p + r + z)[|p|..] == r + z && (p + r + z)[|p|..|p| + |r|] == r
  {
    assert (p + r + z)[|p|..] == (p + r + z)[|p|..][..];
  }

  /** What follows the separator row begins with no whitespace and stops the separator run. */
  lemma BodyStart(rows: seq<string>, rest: string)
    requires AllLines(rows) && AfterBody(rest)
    requires if rows == [] then rest == [] || !IsRuleChar(rest[0]) else !RuleText(rows[0])
    ensures var y := RowLines(rows) + rest; (y == [] || !IsSpace(y[0])) && StopsRule(y)
  {
    var y := RowLines(rows) + rest;
    if rows == [] {
      assert y == rest;
      if rest != [] {
        assert !IsRuleChar(y[0]) && NoTerminator(y[..0]);
      }
    } else {
      var r := rows[0];
      var k :| 0 <= k < |r| && !IsRuleChar(r[k]);
      assert y == "|" + r + ("|\n" + RowLines(rows[1..]) + rest);
      assert y[k + 1] == r[k];
      assert y[..k + 1] == "|" + r[..k];
      assert IsLine(r);
      var front := y[..k + 1];
      assert NoTerminator(front) by {
        assert forall j :: 1 <= j <= k ==> front[j] == r[j - 1];
      }
    }
  }

  // ----- The markup of a whole table -----

  /** Each body row becomes one `[tr]` with a `[td]` per cell, in order. */
  lemma {:induction false} BodyMarkup(rows: seq<string>)
    requires AllLines(rows)
    ensures ConcatMap(LineMarkup, Split(Trim(RowLines(rows)), '\n')) == ConcatMap(BodyRow, rows)
  {
    if rows == [] {
      TrimBlank([]);
      assert Split([], '\n') == [[]];
      assert ConcatMap(LineMarkup, [[]]) == ConcatMap(LineMarkup, []) + LineMarkup([]);
    } else {
      var w := Wrapped(rows);
      assert Split(Trim(RowLines(rows)), '\n') == w by {
        var j := Join(w, '\n');
        RowLinesJoin(rows);
        JoinEnds(rows);
        TrimOf(j, "\n");
        forall i | 0 <= i < |w| ensures '\n' !in w[i] {
          assert IsLine(rows[i]);
          assert forall k :: 0 <= k < |w[i]| && w[i][k] == '\n' ==> 1 <= k <= |rows[i]| && rows[i][k - 1] == '\n';
        }
        SplitJoin(w, '\n');
      }
      forall i | 0 <= i < |rows| ensures LineMarkup(w[i]) == BodyRow(rows[i]) {
        WrappedRow(rows[i]);
      }
      ConcatSame(LineMarkup, BodyRow, w, rows);
    }
  }

  /** A body row between its pipes is kept and becomes one `[tr]`. */
  lemma WrappedRow(r: string)
    ensures LineMarkup("|" + r + "|") == BodyRow(r)
  {
    var row := "|" + r + "|";
    assert KeptRow(row) by {
      assert row + [] == row;
      TrimOf(row, []);
      assert row[0] == '|';
    }
    var cells := ParseRow(row);
    assert cells == Trims(Split(r, '|')) && |cells| > 0 by {
      CellsOfRow(r);
    }
    assert LineMarkup(row) == RowMarkup(BodyCell, cells);
  }

  /** The same markup element by element is the same markup. */
  lemma {:induction false} ConcatSame(f: string -> string, g: string -> string, xs: seq<string>, ys: seq<string>)
    requires |xs| == |ys| && forall i :: 0 <= i < |xs| ==> f(xs[i]) == g(ys[i])
    ensures ConcatMap(f, xs) == ConcatMap(g, ys)
    decreases |xs|
  {
    if xs != [] {
      ConcatSame(f, g, xs[..|xs| - 1], ys[..|ys| - 1]);
    }
  }

  /** The body is its rows joined by line feeds, with one more line feed at the end. */
  lemma {:induction false} RowLinesJoin(rows: seq<string>)
    requires rows != []
    ensures RowLines(rows) == Join(Wrapped(rows), '\n') + "\n"
    decreases |rows|
  {
    var w := Wrapped(rows);
    if |rows| > 1 {
      RowLinesJoin(rows[1..]);
      assert w[1..] == Wrapped(rows[1..]);
    }
  }

  /** The rows joined start and end with a pipe. */
  lemma {:induction false} JoinEnds(rows: seq<string>)
    requires rows != []
    ensures var j := Join(Wrapped(rows), '\n'); |j| >= 2 && j[0] == '|' && j[|j| - 1] == '|'
    decreases |rows|
  {
    var w := Wrapped(rows);
    if |rows| > 1 {
      JoinEnds(rows[1..]);
      assert w[1..] == Wrapped(rows[1..]);
    }
  }

  // ----- The table pass -----

  /** Under the `m` flag only the start of a line matters to the table pattern. */
  lemma TableSees()
    ensures SeesOnlyLineStart(TableMatcher())
  {
  }

  /** The last character of a table is a line feed. */
  lemma TableEnd(header: string, rule: string, rows: seq<string>)
    ensures var x := TableText(header, rule, rows); x != [] && x[|x| - 1] == '\n'
  {
    var x := TableText(header, rule, rows);
    var p := "|" + header + "|\n" + "|" + rule + "|\n";
    if rows != [] {
      RowLinesEnd(rows);
    }
    assert x == p + RowLines(rows);
  }

  lemma {:induction false} RowLinesEnd(rows: seq<string>)
    requires rows != []
    ensures var r := RowLines(rows); r != [] && r[|r| - 1] == '\n'
    decreases |rows|
  {
    if |rows| > 1 {
      RowLinesEnd(rows[1..]);
    }
  }

  /**
   * A table at the start of a line becomes `[table]`, the header row's cells,
   * one `[tr]` per body row and `[/table]`; the text after it is converted on
   * its own, as from the start of a line.
   */
  lemma TableConverts(prev: Option<char>, header: string, rule: string, rows: seq<string>, rest: string)
    requires AtLineStart(prev) && WellFormed(header, rule, rows, rest)
    ensures ReplaceAll(prev, TableText(header, rule, rows) + rest, TableMatcher())
         == "[table]\n" + RowMarkup(HeaderCell, ParseRow(header)) + ConcatMap(BodyRow, rows) + "[/table]\n"
            + Tables(rest)
  {
    var x := TableText(header, rule, rows);
    var f := TableMatcher();
    var m := TableMarkup(header, RowLines(rows));
    assert f(prev, x + rest) == Some(Match(|x|, m)) by {
      TableAtOf(header, rule, rows, rest);
    }
    TableEnd(header, rule, rows);
    MatchStep(prev, x, rest, f, m);
    TableSees();
    SameLineStart(Some('\n'), None, rest, f);
    BodyMarkup(rows);
  }

  /** A text where no line starts with a pipe holds no table and is left as it is. */
  lemma NoTable(s: string)
    requires forall i :: 0 <= i < |s| && s[i] == '|' ==> i > 0 && !IsTerminator(s[i - 1])
    ensures Tables(s) == s
  {
    var f := TableMatcher();
    forall i | 0 <= i < |s| ensures !Consumes(f(PrevAt(None, s, i), s[i..] + []), s[i..] + []) {
      assert (s[i..] + [])[0] == s[i];
    }
    CopyRun(None, s, [], f);
    assert s + [] == s;
  }

  /**
   * What a match spans: a header row that opens with a pipe and closes with
   * one on the same line, a separator row that opens with a pipe at the start
   * of a later line, and a body that starts after a line feed; the markup is
   * made of the header row between its outer pipes and of the body.
   */
  lemma TableShape(t: string)
    requires TableAt(t).Some?
    ensures var m := TableAt(t).value;
      && t[0] == '|'
      && exists p, h, b :: 2 <= p < h < b <= m.len <= |t| && t[p] == '|' && NoTerminator(t[..p])
           && t[h - 1] == '\n' && t[h] == '|' && t[b - 1] == '\n'
           && m.out == TableMarkup(t[1..p], t[b..m.len])
  {
    var p, h := HeaderAt(t).value.0, HeaderAt(t).value.1;
    var b := SeparatorAt(t, h).value;
    var m := TableAt(t).value;
    assert m == Match(BodyEnd(t, b), TableMarkup(t[1..p], t[b..BodyEnd(t, b)]));
    assert t[0] == '|' && t[p] == '|' && NoTerminator(t[..p]) && t[h - 1] == '\n' by {
      HeaderShape(t, p, h);
    }
    assert t[b - 1] == '\n' by {
      SeparatorLine(t, h, b);
    }
    assert 2 <= p < h < b <= m.len <= |t| && t[p] == '|' && NoTerminator(t[..p])
      && t[h - 1] == '\n' && t[h] == '|' && t[b - 1] == '\n'
      && m.out == TableMarkup(t[1..p], t[b..m.len]);
  }

  /** The header row closes on its own line and the separator row starts a line. */
  lemma HeaderShape(t: string, p: nat, h: nat)
    requires HeaderAt(t) == Some((p, h))
    ensures t[0] == '|' && t[p] == '|' && NoTerminator(t[..p]) && t[h - 1] == '\n'
  {
    var e := LineEnd(t, 0);
    assert Closing(t, 0) == Some(p) && Gap(t, p + 1) == Some(h);
    assert forall j :: 0 <= j < p ==> t[..p][j] == t[0..e][j];
  }

  /** The separator row ends with its line feed. */
  lemma SeparatorLine(t: string, h: nat, b: nat)
    requires h < |t| && SeparatorAt(t, h) == Some(b)
    ensures t[b - 1] == '\n'
  {
    SepEndLine(t, h + 2, h + 1 + RuleRun(t[h + 1..]));
  }

  lemma {:induction false} SepEndLine(t: string, lo: nat, hi: nat)
    requires hi <= |t| && SepEnd(t, lo, hi).Some?
    ensures t[SepEnd(t, lo, hi).value - 1] == '\n'
    decreases hi
  {
    if !(t[hi - 1] == '|' && Gap(t, hi).Some?) {
      SepEndLine(t, lo, hi - 1);
    }
  }
}
