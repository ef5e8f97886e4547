/**
 * The list step. World Anvil text groups each run of numbered items of equal
 * indent into an `[ol]` block and then rewrites bullets as dashes, one more
 * dash per two characters of indent; every other format turns both kinds of
 * item into `[*]` lines and wraps each run of them in `[list]` tags.
 */
module Lists {
  import opened Wrappers
  import opened Text
  import opened Scanner
  import opened Items
  import opened Dialect

  // ---------------------------------------------------------------------
  // World Anvil ordered lists: the grouping loop
  // ---------------------------------------------------------------------

  /** The line a numbered item becomes inside its block. */
  function LiLine(content: string): string {
    "  [li]" + content + "[/li]"
  }

  /** What a line matches: the indent and content of a numbered item, or nothing. */
  type Classifier = string -> Option<(string, string)>

  /** The numbered-item pattern `^(\s*)\d+\.\s+(.+)$`, applied to one line. */
  function Numbered(): Classifier {
    (line: string) => OrderedItem(line)
  }

  /**
   * What the grouping loop emits for `lines`, when a block is `open` with
   * indent `indent`: an item opens a block unless one with its indent is
   * open, closing any other first; any other line closes the open block and
   * is copied; the end of the input closes the open block.
   */
  function OlFrom(m: Classifier, open: bool, indent: string, lines: seq<string>): seq<string>
    decreases |lines|
  {
    if lines == [] then (if open then ["[/ol]"] else [])
    else Emit(m, open, indent, lines[0]) + OlFrom(m, m(lines[0]).Some?, NextIndent(m, lines[0]), lines[1..])
  }

  /** The lines the loop emits for one input line. */
  function Emit(m: Classifier, open: bool, indent: string, line: string): seq<string> {
    match m(line)
    case Some((ind, content)) =>
      (if open && ind == indent then [] else (if open then ["[/ol]"] else []) + ["[ol]"]) + [LiLine(content)]
    case None =>
      (if open then ["[/ol]"] else []) + [line]
  }

  /** The indent of the block open after a line: the item's own, or none. */
  function NextIndent(m: Classifier, line: string): string {
    if m(line).Some? then m(line).value.0 else ""
  }

  function OlGroups(m: Classifier, lines: seq<string>): seq<string> {
    OlFrom(m, false, "", lines)
  }

  lemma OlStep(m: Classifier, open: bool, indent: string, line: string, rest: seq<string>)
    ensures OlFrom(m, open, indent, [line] + rest) ==
      Emit(m, open, indent, line) + OlFrom(m, m(line).Some?, NextIndent(m, line), rest)
  {
    assert ([line] + rest)[1..] == rest;
  }

  lemma Regroup(a: seq<string>, b: seq<string>, c: seq<string>)
    ensures a + b + c == a + (b + c)
  {
  }

  /**
   * The ordered-list pass of World Anvil lists, line by line over
   * `text.split('\n')`; `item` is the line pattern the loop matches.
   */
  method GroupOrdered(item: Classifier, text: string) returns (r: string)
    ensures r == Join(OlGroups(item, Split(text, '\n')), '\n')
  {
    var lines := Split(text, '\n');
    ghost var goal := OlGroups(item, lines);
    var newLines: seq<string> := [];
    var inList := false;
    var currentIndent := "";
    var i := 0;
    while i < |lines|
      invariant 0 <= i <= |lines|
      invariant !inList ==> currentIndent == ""
      invariant newLines + OlFrom(item, inList, currentIndent, lines[i..]) == goal
    {
      var line := lines[i];
      ghost var rest := lines[i + 1..];
      ghost var before, wasIn, wasIndent := newLines, inList, currentIndent;
      assert lines[i..] == [line] + rest;
      var emitted;
      emitted, inList, currentIndent := EmitLine(item, inList, currentIndent, line);
      newLines := newLines + emitted;
      OlStep(item, wasIn, wasIndent, line, rest);
      Regroup(before, emitted, OlFrom(item, inList, currentIndent, rest));
      i := i + 1;
    }
    assert lines[i..] == [];
    assert newLines + (if inList then ["[/ol]"] else []) == goal;
    if inList {
      newLines := newLines + ["[/ol]"];
    }
    assert newLines == goal;
    r := Join(newLines, '\n');
  }

  /** One turn of the grouping loop: the lines it appends, and whether a block is open after it, with which indent. */
  method EmitLine(item: Classifier, inList: bool, currentIndent: string, line: string)
    returns (emitted: seq<string>, nowIn: bool, nowIndent: string)
    requires !inList ==> currentIndent == ""
    ensures emitted == Emit(item, inList, currentIndent, line)
    ensures nowIn == item(line).Some? && nowIndent == NextIndent(item, line)
    ensures !nowIn ==> nowIndent == ""
  {
    emitted, nowIn, nowIndent := [], inList, currentIndent;
    var m := item(line);
    if m.Some? {
      var (indent, content) := m.value;
      if !inList || indent != currentIndent {
        if inList {
          emitted := emitted + ["[/ol]"];
        }
        emitted := emitted + ["[ol]"];
        nowIn := true;
        nowIndent := indent;
      }
      emitted := emitted + [LiLine(content)];
    } else {
      if inList {
        emitted := emitted + ["[/ol]"];
        nowIn := false;
        nowIndent := "";
      }
      emitted := emitted + [line];
    }
  }

  /** The ordered-list pass with the numbered-item pattern `^(\s*)\d+\.\s+(.+)$`. */
  method ConvertOrderedLists(text: string) returns (r: string)
    ensures r == Join(OlGroups(Numbered(), Split(text, '\n')), '\n')
  {
    r := GroupOrdered(Numbered(), text);
  }

  // ---------------------------------------------------------------------
  // The same grouping, stated as blocks
  // ---------------------------------------------------------------------

  /** A line copied through, or a maximal run of numbered items sharing an indent. */
  datatype Block = Plain(line: string) | Ol(indent: string, items: seq<string>)

  /** How many of the first lines are numbered items with this indent. */
  function RunLen(m: Classifier, lines: seq<string>, indent: string): (k: nat)
    ensures k <= |lines|
    ensures forall i :: 0 <= i < k ==> m(lines[i]).Some? && m(lines[i]).value.0 == indent
    ensures k < |lines| ==> m(lines[k]).None? || m(lines[k]).value.0 != indent
  {
    if lines == [] then 0
    else match m(lines[0])
      case Some((ind, _)) => if ind == indent then 1 + RunLen(m, lines[1..], indent) else 0
      case None => 0
  }

  function Blocks(m: Classifier, lines: seq<string>): seq<Block>
    decreases |lines|
  {
    if lines == [] then []
    else match m(lines[0])
      case None => [Plain(lines[0])] + Blocks(m, lines[1..])
      case Some((ind, _)) =>
        var k := 1 + RunLen(m, lines[1..], ind);
        [Ol(ind, lines[..k])] + Blocks(m, lines[k..])
  }

  /** The `[li]` line of a numbered item. */
  function ItemLi(m: Classifier, line: string): string {
    match m(line)
    case Some((_, content)) => LiLine(content)
    case None => line
  }

  function Lis(m: Classifier, items: seq<string>): (r: seq<string>)
    ensures |r| == |items|
    decreases |items|
  {
    if items == [] then [] else [ItemLi(m, items[0])] + Lis(m, items[1..])
  }

  function RenderBlock(m: Classifier, b: Block): seq<string> {
    match b
    case Plain(line) => [line]
    case Ol(_, items) => ["[ol]"] + Lis(m, items) + ["[/ol]"]
  }

  function Render(m: Classifier, bs: seq<Block>): seq<string>
    decreases |bs|
  {
    if bs == [] then [] else RenderBlock(m, bs[0]) + Render(m, bs[1..])
  }

  /** The input lines a block stands for. */
  function Source(bs: seq<Block>): seq<string>
    decreases |bs|
  {
    if bs == [] then []
    else (match bs[0] case Plain(line) => [line] case Ol(_, items) => items) + Source(bs[1..])
  }

  /** Each block is well formed, and no two item blocks next to each other share an indent. */
  predicate WellFormed(m: Classifier, bs: seq<Block>) {
    (forall i :: 0 <= i < |bs| && bs[i].Plain? ==> m(bs[i].line).None?)
    && (forall i :: 0 <= i < |bs| && bs[i].Ol? ==>
          |bs[i].items| > 0 && forall j :: 0 <= j < |bs[i].items| ==>
            m(bs[i].items[j]).Some? && m(bs[i].items[j]).value.0 == bs[i].indent)
    && (forall i :: 0 <= i < |bs| - 1 && bs[i].Ol? && bs[i + 1].Ol? ==> bs[i].indent != bs[i + 1].indent)
  }

  lemma RenderCons(m: Classifier, b: Block, bs: seq<Block>)
    ensures Render(m, [b] + bs) == RenderBlock(m, b) + Render(m, bs)
    ensures Source([b] + bs) == Source([b]) + Source(bs)
  {
    assert ([b] + bs)[1..] == bs;
    assert [b][1..] == [];
  }

  /** A line that does not continue the open block closes it. */
  lemma OpenRunStop(m: Classifier, indent: string, lines: seq<string>)
    requires lines != [] && (m(lines[0]).None? || m(lines[0]).value.0 != indent)
    ensures OlFrom(m, true, indent, lines) == ["[/ol]"] + OlGroups(m, lines)
  {
    assert [lines[0]] + lines[1..] == lines;
    OlStep(m, true, indent, lines[0], lines[1..]);
    OlStep(m, false, "", lines[0], lines[1..]);
  }

  lemma LisCons(m: Classifier, line: string, rest: seq<string>)
    ensures Lis(m, [line] + rest) == [ItemLi(m, line)] + Lis(m, rest)
  {
    assert ([line] + rest)[1..] == rest;
  }

  /** An open block runs on to the end of its run of items and is closed there. */
  lemma {:induction false} OpenRun(m: Classifier, indent: string, lines: seq<string>)
    ensures OlFrom(m, true, indent, lines) ==
            Lis(m, lines[..RunLen(m, lines, indent)]) + ["[/ol]"] + OlGroups(m, lines[RunLen(m, lines, indent)..])
    decreases |lines|
  {
    var k := RunLen(m, lines, indent);
    if lines != [] && m(lines[0]).Some? && m(lines[0]).value.0 == indent {
      var rest := lines[1..];
      OpenRun(m, indent, rest);
      assert [lines[0]] + rest == lines;
      OlStep(m, true, indent, lines[0], rest);
      assert k == 1 + RunLen(m, rest, indent);
      assert lines[..k] == [lines[0]] + rest[..k - 1];
      assert lines[k..] == rest[k - 1..];
      LisCons(m, lines[0], rest[..k - 1]);
    } else if lines != [] {
      OpenRunStop(m, indent, lines);
      assert k == 0 && lines[..k] == [] && lines[k..] == lines;
    }
  }

  /** The loop's output is the rendering of the blocks. */
  lemma {:induction false} GroupsAreBlocks(m: Classifier, lines: seq<string>)
    ensures OlGroups(m, lines) == Render(m, Blocks(m, lines))
    decreases |lines|
  {
    if lines != [] {
      var rest := lines[1..];
      assert [lines[0]] + rest == lines;
      if m(lines[0]).None? {
        OlStep(m, false, "", lines[0], rest);
        GroupsAreBlocks(m, rest);
        RenderCons(m, Plain(lines[0]), Blocks(m, rest));
      } else {
        var k := 1 + RunLen(m, rest, m(lines[0]).value.0);
        GroupsAreBlocks(m, lines[k..]);
        GroupsOfRun(m, lines);
      }
    }
  }

  /** One step of the above: a run of items at the head of the input. */
  lemma GroupsOfRun(m: Classifier, lines: seq<string>)
    requires lines != [] && m(lines[0]).Some?
    requires var k := 1 + RunLen(m, lines[1..], m(lines[0]).value.0);
      OlGroups(m, lines[k..]) == Render(m, Blocks(m, lines[k..]))
    ensures OlGroups(m, lines) == Render(m, Blocks(m, lines))
  {
    var (ind, content) := m(lines[0]).value;
    var k := 1 + RunLen(m, lines[1..], ind);
    GroupsRunSide(m, lines);
    RenderRunSide(m, lines);
    BlockShape(LiLine(content), Lis(m, lines[1..k]), OlGroups(m, lines[k..]));
  }

  lemma GroupsRunSide(m: Classifier, lines: seq<string>)
    requires lines != [] && m(lines[0]).Some?
    ensures var (ind, content) := m(lines[0]).value;
      var k := 1 + RunLen(m, lines[1..], ind);
      OlGroups(m, lines) == ["[ol]", LiLine(content)] + (Lis(m, lines[1..k]) + ["[/ol]"] + OlGroups(m, lines[k..]))
  {
    var rest := lines[1..];
    var (ind, content) := m(lines[0]).value;
    var k := 1 + RunLen(m, rest, ind);
    assert [lines[0]] + rest == lines;
    OlStep(m, false, "", lines[0], rest);
    assert OlGroups(m, lines) == ["[ol]", LiLine(content)] + OlFrom(m, true, ind, rest);
    OpenRun(m, ind, rest);
    assert rest[..k - 1] == lines[1..k];
    assert rest[k - 1..] == lines[k..];
  }

  lemma RenderRunSide(m: Classifier, lines: seq<string>)
    requires lines != [] && m(lines[0]).Some?
    ensures var (ind, content) := m(lines[0]).value;
      var k := 1 + RunLen(m, lines[1..], ind);
      Render(m, Blocks(m, lines)) == (["[ol]"] + ([LiLine(content)] + Lis(m, lines[1..k])) + ["[/ol]"]) + Render(m, Blocks(m, lines[k..]))
  {
    var (ind, content) := m(lines[0]).value;
    var k := 1 + RunLen(m, lines[1..], ind);
    BlocksOfRun(m, lines, ind, content, k);
    RenderCons(m, Ol(ind, lines[..k]), Blocks(m, lines[k..]));
    FirstOf(lines, k);
    LisCons(m, lines[0], lines[1..k]);
    assert ItemLi(m, lines[0]) == LiLine(content);
  }

  lemma BlocksOfRun(m: Classifier, lines: seq<string>, ind: string, content: string, k: nat)
    requires lines != [] && m(lines[0]) == Some((ind, content)) && k == 1 + RunLen(m, lines[1..], ind)
    ensures Blocks(m, lines) == [Ol(ind, lines[..k])] + Blocks(m, lines[k..])
  {
  }

  lemma FirstOf<T>(xs: seq<T>, k: nat)
    requires 1 <= k <= |xs|
    ensures xs[..k] == [xs[0]] + xs[1..k]
  {
  }

  lemma BlockShape(x: string, li: seq<string>, r: seq<string>)
    ensures ["[ol]", x] + (li + ["[/ol]"] + r) == (["[ol]"] + ([x] + li) + ["[/ol]"]) + r
  {
    assert ["[ol]", x] == ["[ol]"] + [x];
  }

  /** The blocks partition the input, in order. */
  lemma {:induction false} BlocksCover(m: Classifier, lines: seq<string>)
    ensures Source(Blocks(m, lines)) == lines
    decreases |lines|
  {
    if lines != [] {
      match m(lines[0])
      case None =>
        BlocksCover(m, lines[1..]);
        RenderCons(m, Plain(lines[0]), Blocks(m, lines[1..]));
      case Some((ind, _)) =>
        var k := 1 + RunLen(m, lines[1..], ind);
        BlocksCover(m, lines[k..]);
        RenderCons(m, Ol(ind, lines[..k]), Blocks(m, lines[k..]));
        assert lines == lines[..k] + lines[k..];
    }
  }

  /** The first block of the blocks of `lines`, when it is an item block. */
  lemma BlocksHead(m: Classifier, lines: seq<string>)
    requires lines != [] && m(lines[0]).Some?
    ensures Blocks(m, lines)[0] == Ol(m(lines[0]).value.0, lines[..1 + RunLen(m, lines[1..], m(lines[0]).value.0)])
  {
  }

  /** One block on its own is well formed. */
  predicate BlockOk(m: Classifier, b: Block) {
    match b
    case Plain(line) => m(line).None?
    case Ol(indent, items) =>
      |items| > 0 && forall j :: 0 <= j < |items| ==> m(items[j]).Some? && m(items[j]).value.0 == indent
  }

  lemma WellFormedCons(m: Classifier, b: Block, bs: seq<Block>)
    requires BlockOk(m, b) && WellFormed(m, bs)
    requires b.Ol? && bs != [] && bs[0].Ol? ==> b.indent != bs[0].indent
    ensures WellFormed(m, [b] + bs)
  {
    var cs := [b] + bs;
    forall i | 0 < i < |cs| ensures cs[i] == bs[i - 1] { }
  }

  /** Every block is well formed and item blocks are maximal runs. */
  lemma {:induction false} BlocksWellFormed(m: Classifier, lines: seq<string>)
    ensures WellFormed(m, Blocks(m, lines))
    decreases |lines|
  {
    if lines != [] && m(lines[0]).None? {
      BlocksWellFormed(m, lines[1..]);
      WellFormedCons(m, Plain(lines[0]), Blocks(m, lines[1..]));
    } else if lines != [] {
      var ind := m(lines[0]).value.0;
      var k := 1 + RunLen(m, lines[1..], ind);
      var rest := lines[k..];
      forall j | 0 <= j < k ensures m(lines[..k][j]).Some? && m(lines[..k][j]).value.0 == ind {
        if j > 0 { assert lines[..k][j] == lines[1..][j - 1]; }
      }
      if rest != [] && m(rest[0]).Some? {
        assert rest[0] == lines[1..][k - 1];
        BlocksHead(m, rest);
      } else if rest != [] {
        assert Blocks(m, rest)[0] == Plain(rest[0]);
      }
      BlocksWellFormed(m, rest);
      WellFormedCons(m, Ol(ind, lines[..k]), Blocks(m, rest));
    }
  }

  // ---------------------------------------------------------------------
  // `[ol]` and `[/ol]` come in pairs
  // ---------------------------------------------------------------------

  /** How many lines equal `x`. */
  function Occurrences(lines: seq<string>, x: string): nat
    decreases |lines|
  {
    if lines == [] then 0 else (if lines[0] == x then 1 else 0) + Occurrences(lines[1..], x)
  }

  function OlCount(bs: seq<Block>): nat
    decreases |bs|
  {
    if bs == [] then 0 else (if bs[0].Ol? then 1 else 0) + OlCount(bs[1..])
  }

  lemma {:induction false} OccurrencesAppend(a: seq<string>, b: seq<string>, x: string)
    ensures Occurrences(a + b, x) == Occurrences(a, x) + Occurrences(b, x)
    decreases |a|
  {
    if a == [] {
      assert a + b == b;
    } else {
      assert (a + b)[1..] == a[1..] + b;
      OccurrencesAppend(a[1..], b, x);
    }
  }

  /** No `[li]` line is a bare tag, and no item line is either. */
  lemma {:induction false} LisAvoid(m: Classifier, items: seq<string>, x: string)
    requires (x == "[ol]" || x == "[/ol]") && m(x).None?
    requires forall j :: 0 <= j < |items| ==> m(items[j]).Some?
    ensures Occurrences(Lis(m, items), x) == 0 && Occurrences(items, x) == 0
    decreases |items|
  {
    if items != [] {
      var c := m(items[0]).value.1;
      assert LiLine(c)[0] == ' ';
      assert Lis(m, items)[1..] == Lis(m, items[1..]);
      LisAvoid(m, items[1..], x);
    }
  }

  lemma {:induction false} TagsCounted(m: Classifier, bs: seq<Block>, x: string)
    requires (x == "[ol]" || x == "[/ol]") && m(x).None?
    requires WellFormed(m, bs)
    ensures Occurrences(Render(m, bs), x) == Occurrences(Source(bs), x) + OlCount(bs)
    decreases |bs|
  {
    if bs != [] {
      RenderCons(m, bs[0], bs[1..]);
      assert [bs[0]] + bs[1..] == bs;
      assert WellFormed(m, bs[1..]) by {
        forall i | 0 <= i < |bs[1..]| ensures bs[1..][i] == bs[i + 1] { }
      }
      TagsCounted(m, bs[1..], x);
      OccurrencesAppend(RenderBlock(m, bs[0]), Render(m, bs[1..]), x);
      OccurrencesAppend(Source([bs[0]]), Source(bs[1..]), x);
      match bs[0]
      case Plain(line) =>
      case Ol(_, items) =>
        LisAvoid(m, items, x);
        OccurrencesAppend(["[ol]"] + Lis(m, items), ["[/ol]"], x);
        OccurrencesAppend(["[ol]"], Lis(m, items), x);
        assert Source([bs[0]]) == items + [];
        assert items + [] == items;
    }
  }

  /**
   * The grouping adds as many `[ol]` lines as `[/ol]` lines: one of each per
   * block, on top of any the input already had.
   */
  lemma OlBalanced(m: Classifier, lines: seq<string>)
    requires m("[ol]").None? && m("[/ol]").None?
    ensures Occurrences(OlGroups(m, lines), "[ol]") == Occurrences(lines, "[ol]") + OlCount(Blocks(m, lines))
    ensures Occurrences(OlGroups(m, lines), "[/ol]") == Occurrences(lines, "[/ol]") + OlCount(Blocks(m, lines))
  {
    GroupsAreBlocks(m, lines);
    BlocksCover(m, lines);
    BlocksWellFormed(m, lines);
    TagsCounted(m, Blocks(m, lines), "[ol]");
    TagsCounted(m, Blocks(m, lines), "[/ol]");
  }

  /** Neither tag line is a numbered item. */
  lemma TagsNotNumbered()
    ensures Numbered()("[ol]").None? && Numbered()("[/ol]").None?
  {
    var o, c := "[ol]", "[/ol]";
    assert SpaceRun(o) == 0 && !IsDigit(o[0]) && DigitRun(o) == 0;
    assert SpaceRun(c) == 0 && !IsDigit(c[0]) && DigitRun(c) == 0;
  }

  // ---------------------------------------------------------------------
  // The whole World Anvil list step
  // ---------------------------------------------------------------------

  /** The ordered-list pass as a function of the text. */
  function OrderedLists(text: string): string {
    Join(OlGroups(Numbered(), Split(text, '\n')), '\n')
  }

  /** Ordered lists first, then bullets become dashes. */
  function WorldAnvilLists(text: string): string {
    Items.Items(OrderedLists(text), Bullet, Dashes)
  }

  method ConvertWorldAnvilLists(text: string) returns (r: string)
    ensures r == WorldAnvilLists(text)
  {
    r := ConvertOrderedLists(text);
    r := Items.Items(r, Bullet, Dashes);
  }

  /** Every line the grouping emits satisfies `p`, if the lines it copies and makes do. */
  lemma {:induction false} EmitsOnly(m: Classifier, p: string -> bool, open: bool, indent: string, lines: seq<string>)
    requires p("[ol]") && p("[/ol]")
    requires forall j :: 0 <= j < |lines| ==> if m(lines[j]).Some? then p(LiLine(m(lines[j]).value.1)) else p(lines[j])
    ensures forall j :: 0 <= j < |OlFrom(m, open, indent, lines)| ==> p(OlFrom(m, open, indent, lines)[j])
    decreases |lines|
  {
    if lines != [] {
      var rest := lines[1..];
      assert [lines[0]] + rest == lines;
      OlStep(m, open, indent, lines[0], rest);
      forall j | 0 <= j < |rest| ensures if m(rest[j]).Some? then p(LiLine(m(rest[j]).value.1)) else p(rest[j]) {
        assert rest[j] == lines[j + 1];
      }
      EmitsOnly(m, p, m(lines[0]).Some?, NextIndent(m, lines[0]), rest);
      var e := Emit(m, open, indent, lines[0]);
      var tail := OlFrom(m, m(lines[0]).Some?, NextIndent(m, lines[0]), rest);
      assert forall j :: 0 <= j < |e| ==> p(e[j]);
      forall j | 0 <= j < |e + tail| ensures p((e + tail)[j]) {
        if j >= |e| { assert (e + tail)[j] == tail[j - |e|]; }
      }
    }
  }

  /** The lines the grouping makes are not bullet items, and the dash pass leaves them alone. */
  lemma MadeLinesKept(line: string)
    requires line == "[ol]" || line == "[/ol]" || (exists c :: c != [] && NoTerminator(c) && line == LiLine(c))
    ensures Standalone(Bullet, line) && ItemLine(Bullet, Dashes, line) == line
  {
    var n := SpaceRun(line);
    if line == "[ol]" || line == "[/ol]" {
      assert n == 0;
    } else {
      var c :| c != [] && NoTerminator(c) && line == LiLine(c);
      assert line[..6] == "  [li]";
      SpaceRunOf("  ", line[2..]);
      assert line == "  " + line[2..];
      assert n == 2;
      assert NoTerminator(line) by {
        forall i | 0 <= i < |line| ensures !IsTerminator(line[i]) {
          if 6 <= i < 6 + |c| { assert line[i] == c[i - 6]; }
        }
      }
    }
    assert line[n] == '[';
    assert HeadLen(Bullet, line, n).None?;
  }

  /** Grouping standalone lines gives standalone lines, at least one of them. */
  lemma GroupedStandalone(lines: seq<string>)
    requires |lines| >= 1 && forall i :: 0 <= i < |lines| ==> Standalone(Bullet, lines[i])
    ensures |OlGroups(Numbered(), lines)| >= 1
    ensures forall j :: 0 <= j < |OlGroups(Numbered(), lines)| ==> Standalone(Bullet, OlGroups(Numbered(), lines)[j])
  {
    var p := (l: string) => Standalone(Bullet, l);
    MadeLinesKept("[ol]");
    MadeLinesKept("[/ol]");
    forall j | 0 <= j < |lines|
      ensures if Numbered()(lines[j]).Some? then p(LiLine(Numbered()(lines[j]).value.1)) else p(lines[j])
    {
      if Numbered()(lines[j]).Some? {
        var c := OrderedItem(lines[j]).value.1;
        MadeLinesKept(LiLine(c));
      }
    }
    EmitsOnly(Numbered(), p, false, "", lines);
    assert [lines[0]] + lines[1..] == lines;
    OlStep(Numbered(), false, "", lines[0], lines[1..]);
  }

  /** A standalone line holds no line feed. */
  lemma NoFeeds(lines: seq<string>)
    requires forall i :: 0 <= i < |lines| ==> Standalone(Bullet, lines[i])
    ensures forall i :: 0 <= i < |lines| ==> '\n' !in lines[i]
  {
  }

  /**
   * World Anvil lists on text made of standalone lines: the grouped lines,
   * each put through the dash pass on its own.
   */
  lemma WorldAnvilListsByLine(lines: seq<string>)
    requires |lines| >= 1 && forall i :: 0 <= i < |lines| ==> Standalone(Bullet, lines[i])
    ensures WorldAnvilLists(Join(lines, '\n')) ==
      Join(seq(|OlGroups(Numbered(), lines)|, j requires 0 <= j < |OlGroups(Numbered(), lines)| =>
        ItemLine(Bullet, Dashes, OlGroups(Numbered(), lines)[j])), '\n')
  {
    NoFeeds(lines);
    SplitJoin(lines, '\n');
    assert Split(Join(lines, '\n'), '\n') == lines;
    GroupedStandalone(lines);
    var out := OlGroups(Numbered(), lines);
    assert OrderedLists(Join(lines, '\n')) == Join(out, '\n');
    ItemsByLine(Bullet, Dashes, out);
    var a := seq(|out|, i requires 0 <= i < |out| => ItemLine(Bullet, Dashes, out[i]));
    var b := seq(|OlGroups(Numbered(), lines)|, j requires 0 <= j < |OlGroups(Numbered(), lines)| =>
      ItemLine(Bullet, Dashes, OlGroups(Numbered(), lines)[j]));
    assert a == b;
  }

  /**
   * A blank line just before a bullet item disappears in the dash pass:
   * `^(\s*)` takes the line feed as part of the indent, and the indent is
   * replaced by dashes.
   */
  lemma BlankLineSwallowed(c: string)
    requires c != [] && NoTerminator(c) && !IsSpace(c[0])
    ensures Items.Items("\n- " + c, Bullet, Dashes) == "- " + c
  {
    var t := "\n- " + c;
    var f := ItemMatcher(Bullet, Dashes);
    assert "\n" + t[1..] == t;
    SpaceRunOf("\n", t[1..]);
    assert HeadLen(Bullet, t, 1) == Some(1);
    ItemMatchIs(Bullet, Dashes, None, t, 1, Some(1));
    assert "\n- " + c + [] == t;
    TailOfLine("\n- ", c, [], 2, 1, true);
    assert t[..1] == "\n" && t[3..|t|] == c;
    assert Repeat('-', 1) == "-";
    assert Tail(t, 2, 1, true) == Some(3);
    assert LineEnd(t, 3) == |t|;
    assert ItemOut(Dashes, "\n", c) == "- " + c;
    assert ItemRest(Dashes, t, 1, 2) == Some(Match(|t|, "- " + c));
    assert t + [] == t;
    assert f(None, t + []) == Some(Match(|t|, "- " + c));
    MatchStep(None, t, [], f, "- " + c);
  }

  /**
   * A bullet indented by `k` spaces becomes `k / 2 + 1` dashes. The content
   * does not end in whitespace because the line-by-line account of the pass
   * (`Items.Standalone`) asks that of every line it covers.
   */
  lemma DashLevel(k: nat, c: string)
    requires c != [] && NoTerminator(c) && !IsSpace(c[0]) && !IsSpace(c[|c| - 1])
    ensures Items.Items(Repeat(' ', k) + "- " + c, Bullet, Dashes) == Repeat('-', k / 2 + 1) + " " + c
  {
    var ind := Repeat(' ', k);
    assert ind + "- " + c == ind + ['-'] + " " + c;
    BulletLine(ind, '-', " ", c);
    ItemPassLine(Bullet, Dashes, ind + "- " + c);
  }
}
