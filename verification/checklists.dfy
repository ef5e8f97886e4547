/**
 * Checklists: `^(\s*)[-*+]\s+\[\s*\]\s+(.+)$` (an empty box) and then
 * `^(\s*)[-*+]\s+\[[xX]\]\s+(.+)$` (a ticked box), both global with the `m`
 * flag, rewritten as `$1- MARK $2` with the marks of the dialect.
 */
module Checklists {
  import opened Wrappers
  import opened Text
  import opened Scanner
  import opened Items
  import opened Dialect

  /** The marks a dialect writes for an empty and for a ticked box. */
  datatype Marks = Marks(unchecked: string, checked: string)

  function MarksOf(fmt: Format): Marks {
    match fmt
    case BBCode => Marks("[ ]", "[X]")
    case WorldAnvil => Marks("[]", "[c]")
  }

  /** Empty boxes first, then ticked ones. */
  function Checkboxes(text: string, marks: Marks): string {
    Items.Items(Items.Items(text, Unchecked, Box(marks.unchecked)), Checked, Box(marks.checked))
  }

  /** The rule that picks the marks by format, `bbcode` when none is given. */
  function Checklists(text: string, fmt: Option<Format>): string {
    Checkboxes(text, MarksOf(OrDefault(fmt, BBCode)))
  }

  /** The BBCode-only rule: it takes no format. */
  function StandardChecklists(text: string): string {
    Checkboxes(text, MarksOf(BBCode))
  }

  /** The World Anvil rule: it takes a format and ignores it. */
  function WorldAnvilChecklists(text: string, fmt: Format): string {
    Checkboxes(text, MarksOf(WorldAnvil))
  }

  /** What both passes make of one line. */
  function CheckLine(marks: Marks, line: string): string {
    ItemLine(Checked, Box(marks.checked), ItemLine(Unchecked, Box(marks.unchecked), line))
  }

  // ---------------------------------------------------------------------
  // Lines with a box
  // ---------------------------------------------------------------------

  /** An indent, a bullet, whitespace, a box holding `inner`, whitespace, the text. */
  function BoxLine(ind: string, bullet: char, ws: string, inner: string, ws2: string, text: string): string {
    ind + [bullet] + ws + "[" + inner + "]" + ws2 + text
  }

  /** The parts of a box line that sits on a line of its own. */
  predicate Layout(ind: string, bullet: char, ws: string, inner: string, ws2: string, text: string) {
    AllSpace(ind) && NoTerminator(ind) && IsBullet(bullet)
    && ws != [] && AllSpace(ws) && NoTerminator(ws)
    && NoTerminator(inner)
    && ws2 != [] && AllSpace(ws2) && NoTerminator(ws2)
    && Ends(text) && !IsSpace(text[0])
  }

  /** `[-*+]\s+\[` after whatever comes first: the `[` is found past the whitespace. */
  lemma BoxAtParts(pre: string, bullet: char, ws: string, rest: string)
    requires IsBullet(bullet) && ws != [] && AllSpace(ws) && rest != [] && rest[0] == '['
    ensures BoxAt(pre + [bullet] + ws + rest, |pre|) == Some(|pre| + 1 + |ws|)
  {
    var t := pre + [bullet] + ws + rest;
    var n := |pre|;
    assert t[n] == bullet;
    assert t[n + 1..] == ws + rest;
    SpaceRunOf(ws, rest);
    assert t[n + 1 + |ws|] == rest[0];
  }

  /** What the scans before the box find on a box line. */
  lemma BoxLineHead(ind: string, bullet: char, ws: string, inner: string, ws2: string, text: string)
    requires Layout(ind, bullet, ws, inner, ws2, text)
    ensures var l := BoxLine(ind, bullet, ws, inner, ws2, text);
      |l| == |ind| + |ws| + |inner| + |ws2| + |text| + 3
      && SpaceRun(l) == |ind| && l[..|ind|] == ind && BoxAt(l, |ind|) == Some(|ind| + 1 + |ws|)
  {
    var l := BoxLine(ind, bullet, ws, inner, ws2, text);
    var tail := "[" + inner + "]" + ws2 + text;
    assert l == ind + [bullet] + ws + tail;
    assert SpaceRun(l) == |ind| by {
      assert l == ind + ([bullet] + ws + tail);
      SpaceRunOf(ind, [bullet] + ws + tail);
    }
    BoxAtParts(ind, bullet, ws, tail);
  }

  /** What follows the `[`: the inner part, the `]`, whitespace and the text. */
  lemma AfterBracket(head: string, inner: string, ws2: string, text: string)
    requires AllSpace(ws2) && text != [] && !IsSpace(text[0])
    ensures var l := head + inner + "]" + ws2 + text;
      var c := |head| + |inner|;
      c + 1 + |ws2| < |l| && l[|head|..c] == inner && l[c] == ']'
      && Skip(l, c + 1) == c + 1 + |ws2| && l[c + 1 + |ws2|..] == text
  {
    var front := head + inner + "]";
    var l := front + (ws2 + text);
    var c := |head| + |inner|;
    assert l == head + inner + "]" + ws2 + text;
    assert l[c + 1..] == ws2 + text;
    assert l[|head|..c] == inner by {
      assert front[|head|..c] == inner;
    }
    assert l[c] == front[c] == ']';
    SpaceRunOf(ws2, text);
    assert l[c + 1 + |ws2|..] == text by {
      assert (ws2 + text)[|ws2|..] == text;
    }
  }

  /** The box and what follows it on a box line. */
  lemma BoxLineBody(ind: string, bullet: char, ws: string, inner: string, ws2: string, text: string)
    requires Layout(ind, bullet, ws, inner, ws2, text)
    ensures var l := BoxLine(ind, bullet, ws, inner, ws2, text);
      var c := |ind| + |ws| + |inner| + 2;
      c + 1 + |ws2| < |l| && l[|ind| + |ws| + 2..c] == inner && l[c] == ']'
      && Skip(l, c + 1) == c + 1 + |ws2| && l[c + 1 + |ws2|..] == text
  {
    AfterBracket(ind + [bullet] + ws + "[", inner, ws2, text);
  }

  /** A box line ends its line and leaves room after its bullet and its `[`. */
  lemma BoxLineEnds(ind: string, bullet: char, ws: string, inner: string, ws2: string, text: string)
    requires Layout(ind, bullet, ws, inner, ws2, text)
    ensures Ends(BoxLine(ind, bullet, ws, inner, ws2, text))
    ensures BoxFits(BoxLine(ind, bullet, ws, inner, ws2, text), |ind|)
  {
    var l := BoxLine(ind, bullet, ws, inner, ws2, text);
    BoxLineHead(ind, bullet, ws, inner, ws2, text);
    NoTerminatorAppend(ind, [bullet]);
    NoTerminatorAppend(ind + [bullet], ws);
    NoTerminatorAppend(ind + [bullet] + ws, "[");
    NoTerminatorAppend(ind + [bullet] + ws + "[", inner);
    NoTerminatorAppend(ind + [bullet] + ws + "[" + inner, "]");
    NoTerminatorAppend(ind + [bullet] + ws + "[" + inner + "]", ws2);
    NoTerminatorAppend(ind + [bullet] + ws + "[" + inner + "]" + ws2, text);
    assert l[|l| - 1] == text[|text| - 1];
  }

  /**
   * A line with a bullet at `n` (after the indent), the box's `[` at `a`,
   * its `]` at `c`, and the text starting at `e`, told only by what the
   * scans find there.
   */
  ghost predicate BoxShape(l: string, n: nat, a: nat, c: nat, e: nat) {
    n + 1 < a < c && c + 1 < e < |l| && SpaceRun(l) == n && BoxAt(l, n) == Some(a)
    && l[c] == ']' && Skip(l, c + 1) == e && Ends(l) && BoxFits(l, n)
  }

  lemma BoxLineShape(ind: string, bullet: char, ws: string, inner: string, ws2: string, text: string)
    requires Layout(ind, bullet, ws, inner, ws2, text)
    ensures var l := BoxLine(ind, bullet, ws, inner, ws2, text);
      var a := |ind| + 1 + |ws|;
      var c := a + 1 + |inner|;
      BoxShape(l, |ind|, a, c, c + 1 + |ws2|)
      && l[..|ind|] == ind && l[a + 1..c] == inner && l[c + 1 + |ws2|..] == text
  {
    BoxLineHead(ind, bullet, ws, inner, ws2, text);
    BoxLineBody(ind, bullet, ws, inner, ws2, text);
    BoxLineEnds(ind, bullet, ws, inner, ws2, text);
  }

  /** A head that runs to the box's `]` makes the line an item, with the text after the box. */
  lemma ItemOnBox(head: Head, l: string, n: nat, c: nat, e: nat)
    requires n <= c + 1 < e <= |l| && SpaceRun(l) == n && Skip(l, c + 1) == e
    requires HeadLen(head, l, n) == Some(c + 1 - n)
    ensures LineItem(head, l) == Some((l[..n], l[e..]))
  {
    LineItemIs(head, l, n, Some(c + 1 - n));
  }

  /** No head of the kind at the bullet: no item of that kind. */
  lemma NoItemOnBox(head: Head, l: string, n: nat)
    requires n <= |l| && SpaceRun(l) == n && HeadLen(head, l, n) == None
    ensures LineItem(head, l) == None
  {
    LineItemIs(head, l, n, None);
  }

  /** A box line is standalone for a head that is absent or runs to the box's `]`. */
  lemma StandaloneOnBox(head: Head, l: string, n: nat, a: nat, c: nat, e: nat)
    requires BoxShape(l, n, a, c, e)
    requires HeadLen(head, l, n) == None || HeadLen(head, l, n) == Some(c + 1 - n)
    ensures Standalone(head, l)
  {
  }

  /** `\[\s*\]` takes a box of whitespace; `\[[xX]\]` does not. */
  lemma EmptyBoxHeads(l: string, n: nat, a: nat, c: nat)
    requires n < a < c < |l| && BoxAt(l, n) == Some(a) && l[c] == ']' && AllSpace(l[a + 1..c])
    ensures HeadLen(Unchecked, l, n) == Some(c + 1 - n)
    ensures HeadLen(Checked, l, n) == None
  {
    assert Skip(l, a + 1) == c by {
      assert l[a + 1..] == l[a + 1..c] + l[c..];
      SpaceRunOf(l[a + 1..c], l[c..]);
    }
    assert l[a + 1] == ']' || IsSpace(l[a + 1]) by {
      if a + 1 < c { assert l[a + 1] == l[a + 1..c][0]; }
    }
  }

  /** `\[[xX]\]` takes a ticked box; `\[\s*\]` does not. */
  lemma TickedBoxHeads(l: string, n: nat, a: nat)
    requires n < a && a + 2 < |l| && BoxAt(l, n) == Some(a) && l[a + 2] == ']' && (l[a + 1] == 'x' || l[a + 1] == 'X')
    ensures HeadLen(Checked, l, n) == Some(a + 3 - n)
    ensures HeadLen(Unchecked, l, n) == None
  {
    assert Skip(l, a + 1) == a + 1 by {
      assert l[a + 1..][0] == l[a + 1];
    }
  }

  /** A box holding one other character is neither empty nor ticked. */
  lemma OtherBoxHeads(l: string, n: nat, a: nat)
    requires n < a && a + 2 < |l| && BoxAt(l, n) == Some(a)
    requires !IsSpace(l[a + 1]) && l[a + 1] != ']' && l[a + 1] != 'x' && l[a + 1] != 'X'
    ensures HeadLen(Checked, l, n) == None
    ensures HeadLen(Unchecked, l, n) == None
  {
    assert Skip(l, a + 1) == a + 1 by {
      assert l[a + 1..][0] == l[a + 1];
    }
  }

  /** A box of whitespace: an unchecked item, not a checked one. */
  lemma EmptyBoxLine(ind: string, bullet: char, ws: string, inner: string, ws2: string, text: string)
    requires Layout(ind, bullet, ws, inner, ws2, text) && AllSpace(inner)
    ensures var l := BoxLine(ind, bullet, ws, inner, ws2, text);
      LineItem(Unchecked, l) == Some((ind, text)) && LineItem(Checked, l) == None
      && Standalone(Unchecked, l) && Standalone(Checked, l)
  {
    var l := BoxLine(ind, bullet, ws, inner, ws2, text);
    var n := |ind|;
    var a := n + 1 + |ws|;
    var c := a + 1 + |inner|;
    var e := c + 1 + |ws2|;
    BoxLineShape(ind, bullet, ws, inner, ws2, text);
    EmptyBoxHeads(l, n, a, c);
    ItemOnBox(Unchecked, l, n, c, e);
    NoItemOnBox(Checked, l, n);
    StandaloneOnBox(Unchecked, l, n, a, c, e);
    StandaloneOnBox(Checked, l, n, a, c, e);
  }

  /** A box holding `x` or `X`: a checked item, not an unchecked one. */
  lemma TickedBoxLine(ind: string, bullet: char, ws: string, x: char, ws2: string, text: string)
    requires Layout(ind, bullet, ws, [x], ws2, text) && (x == 'x' || x == 'X')
    ensures var l := BoxLine(ind, bullet, ws, [x], ws2, text);
      LineItem(Checked, l) == Some((ind, text)) && LineItem(Unchecked, l) == None
      && Standalone(Unchecked, l) && Standalone(Checked, l)
  {
    var l := BoxLine(ind, bullet, ws, [x], ws2, text);
    var n := |ind|;
    var a := n + 1 + |ws|;
    var c := a + 2;
    var e := c + 1 + |ws2|;
    BoxLineShape(ind, bullet, ws, [x], ws2, text);
    assert HeadLen(Checked, l, n) == Some(c + 1 - n) && HeadLen(Unchecked, l, n) == None by {
      assert l[a + 1] == x by {
        assert l[a + 1..a + 2] == [x];
      }
      TickedBoxHeads(l, n, a);
    }
    ItemOnBox(Checked, l, n, c, e);
    NoItemOnBox(Unchecked, l, n);
    StandaloneOnBox(Unchecked, l, n, a, c, e);
    StandaloneOnBox(Checked, l, n, a, c, e);
  }

  /** A box holding one other character: no checklist item at all. */
  lemma OtherBoxLine(ind: string, bullet: char, ws: string, x: char, ws2: string, text: string)
    requires Layout(ind, bullet, ws, [x], ws2, text)
    requires !IsSpace(x) && x != ']' && x != 'x' && x != 'X'
    ensures var l := BoxLine(ind, bullet, ws, [x], ws2, text);
      LineItem(Checked, l) == None && LineItem(Unchecked, l) == None
      && Standalone(Unchecked, l) && Standalone(Checked, l)
  {
    var l := BoxLine(ind, bullet, ws, [x], ws2, text);
    var n := |ind|;
    var a := n + 1 + |ws|;
    var c := a + 2;
    var e := c + 1 + |ws2|;
    BoxLineShape(ind, bullet, ws, [x], ws2, text);
    assert l[a + 1] == x by {
      assert l[a + 1..a + 2] == [x];
    }
    OtherBoxHeads(l, n, a);
    NoItemOnBox(Checked, l, n);
    NoItemOnBox(Unchecked, l, n);
    StandaloneOnBox(Unchecked, l, n, a, c, e);
    StandaloneOnBox(Checked, l, n, a, c, e);
  }

  // ---------------------------------------------------------------------
  // What the passes write
  // ---------------------------------------------------------------------

  /** The text of an item, and an indent that stays on its line. */
  predicate ItemParts(ind: string, text: string) {
    AllSpace(ind) && NoTerminator(ind) && Ends(text) && !IsSpace(text[0])
  }

  /** The indent and text of any item line are item parts. */
  lemma PartsOfItem(head: Head, line: string) returns (ind: string, text: string)
    requires IsItem(head, line) && Ends(line)
    ensures LineItem(head, line) == Some((ind, text)) && ItemParts(ind, text)
  {
    ind, text := LineItemParts(head, line);
    TextEnds(line, text);
  }

  /** What lies between the brackets of a dialect's empty-box mark. */
  function EmptyInner(fmt: Format): (r: string)
    ensures MarksOf(fmt).unchecked == "[" + r + "]" && AllSpace(r) && NoTerminator(r)
  {
    match fmt
    case BBCode => " "
    case WorldAnvil => ""
  }

  /** What lies between the brackets of a dialect's ticked-box mark. */
  function TickInner(fmt: Format): (r: char)
    ensures MarksOf(fmt).checked == "[" + [r] + "]" && !IsSpace(r) && r != ']'
    ensures r == 'x' || r == 'X' <==> fmt == BBCode
  {
    match fmt
    case BBCode => 'X'
    case WorldAnvil => 'c'
  }

  /** A written empty box is an unchecked item again, and no checked one. */
  lemma UncheckedOut(fmt: Format, ind: string, text: string)
    requires ItemParts(ind, text)
    ensures var o := ItemOut(Box(MarksOf(fmt).unchecked), ind, text);
      LineItem(Unchecked, o) == Some((ind, text)) && LineItem(Checked, o) == None
      && Standalone(Unchecked, o) && Standalone(Checked, o)
  {
    var inner := EmptyInner(fmt);
    assert ItemOut(Box(MarksOf(fmt).unchecked), ind, text) == BoxLine(ind, '-', " ", inner, " ", text);
    EmptyBoxLine(ind, '-', " ", inner, " ", text);
  }

  /**
   * A written ticked box is no unchecked item; it is a checked item again
   * in BBCode, whose mark holds an `X`, and no item in World Anvil, whose
   * mark holds a `c`.
   */
  lemma CheckedOut(fmt: Format, ind: string, text: string)
    requires ItemParts(ind, text)
    ensures var o := ItemOut(Box(MarksOf(fmt).checked), ind, text);
      LineItem(Unchecked, o) == None
      && LineItem(Checked, o) == (if fmt == BBCode then Some((ind, text)) else None)
      && Standalone(Unchecked, o) && Standalone(Checked, o)
  {
    var x := TickInner(fmt);
    assert ItemOut(Box(MarksOf(fmt).checked), ind, text) == BoxLine(ind, '-', " ", [x], " ", text);
    if fmt == BBCode {
      TickedBoxLine(ind, '-', " ", [x][0], " ", text);
    } else {
      OtherBoxLine(ind, '-', " ", [x][0], " ", text);
    }
  }

  // ---------------------------------------------------------------------
  // Line by line
  // ---------------------------------------------------------------------

  /** An empty box, whatever its bullet and spacing, becomes `- MARK text`. */
  lemma ConvertsEmptyBox(fmt: Format, ind: string, bullet: char, ws: string, inner: string, ws2: string, text: string)
    requires Layout(ind, bullet, ws, inner, ws2, text) && AllSpace(inner)
    ensures CheckLine(MarksOf(fmt), BoxLine(ind, bullet, ws, inner, ws2, text))
            == ind + "- " + MarksOf(fmt).unchecked + " " + text
  {
    EmptyBoxLine(ind, bullet, ws, inner, ws2, text);
    UncheckedOut(fmt, ind, text);
  }

  /** A box ticked with `x` or `X` becomes `- MARK text`. */
  lemma ConvertsTickedBox(fmt: Format, ind: string, bullet: char, ws: string, x: char, ws2: string, text: string)
    requires Layout(ind, bullet, ws, [x], ws2, text) && (x == 'x' || x == 'X')
    ensures CheckLine(MarksOf(fmt), BoxLine(ind, bullet, ws, [x], ws2, text))
            == ind + "- " + MarksOf(fmt).checked + " " + text
  {
    TickedBoxLine(ind, bullet, ws, x, ws2, text);
  }

  /** A box holding anything else is left as it is. */
  lemma KeepsOtherBox(fmt: Format, ind: string, bullet: char, ws: string, x: char, ws2: string, text: string)
    requires Layout(ind, bullet, ws, [x], ws2, text)
    requires !IsSpace(x) && x != ']' && x != 'x' && x != 'X'
    ensures var l := BoxLine(ind, bullet, ws, [x], ws2, text); CheckLine(MarksOf(fmt), l) == l
  {
    OtherBoxLine(ind, bullet, ws, x, ws2, text);
  }

  /**
   * Both passes leave a line that stands alone in a state where it again
   * stands alone, and a second run of both passes leaves it as it is.
   */
  lemma CheckLineStable(fmt: Format, line: string)
    requires Standalone(Unchecked, line) && Standalone(Checked, line)
    ensures var m := MarksOf(fmt);
      var mid := ItemLine(Unchecked, Box(m.unchecked), line);
      var o := ItemLine(Checked, Box(m.checked), mid);
      Standalone(Checked, mid) && Standalone(Unchecked, o) && Standalone(Checked, o)
      && CheckLine(m, o) == o
  {
    var m := MarksOf(fmt);
    if IsItem(Unchecked, line) {
      var ind, text := PartsOfItem(Unchecked, line);
      UncheckedOut(fmt, ind, text);
    } else if IsItem(Checked, line) {
      var ind, text := PartsOfItem(Checked, line);
      CheckedOut(fmt, ind, text);
    }
  }

  /** On lines that stand alone, the two passes work line by line. */
  lemma ChecklistsByLine(fmt: Format, lines: seq<string>)
    requires |lines| >= 1
    requires forall i :: 0 <= i < |lines| ==> Standalone(Unchecked, lines[i]) && Standalone(Checked, lines[i])
    ensures Checkboxes(Join(lines, '\n'), MarksOf(fmt))
            == Join(seq(|lines|, i requires 0 <= i < |lines| => CheckLine(MarksOf(fmt), lines[i])), '\n')
  {
    var m := MarksOf(fmt);
    ItemsByLine(Unchecked, Box(m.unchecked), lines);
    var mids := seq(|lines|, i requires 0 <= i < |lines| => ItemLine(Unchecked, Box(m.unchecked), lines[i]));
    forall i | 0 <= i < |mids| ensures Standalone(Checked, mids[i]) {
      CheckLineStable(fmt, lines[i]);
    }
    ItemsByLine(Checked, Box(m.checked), mids);
    assert seq(|mids|, i requires 0 <= i < |mids| => ItemLine(Checked, Box(m.checked), mids[i]))
        == seq(|lines|, i requires 0 <= i < |lines| => CheckLine(m, lines[i]));
  }

  /** Converting checklists twice is converting them once. */
  lemma ChecklistsIdempotent(fmt: Format, lines: seq<string>)
    requires |lines| >= 1
    requires forall i :: 0 <= i < |lines| ==> Standalone(Unchecked, lines[i]) && Standalone(Checked, lines[i])
    ensures var once := Checkboxes(Join(lines, '\n'), MarksOf(fmt));
      Checkboxes(once, MarksOf(fmt)) == once
  {
    var m := MarksOf(fmt);
    ChecklistsByLine(fmt, lines);
    var outs := seq(|lines|, i requires 0 <= i < |lines| => CheckLine(m, lines[i]));
    forall i | 0 <= i < |outs| ensures Standalone(Unchecked, outs[i]) && Standalone(Checked, outs[i]) && CheckLine(m, outs[i]) == outs[i] {
      CheckLineStable(fmt, lines[i]);
    }
    ChecklistsByLine(fmt, outs);
    assert seq(|outs|, i requires 0 <= i < |outs| => CheckLine(m, outs[i])) == outs;
  }
}
