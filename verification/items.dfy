/**
 * List items: the line patterns `^(\s*)HEAD\s+(.+)$` (global, `m` flag)
 * shared by the list and checklist rules. The head is a bullet `[-*+]`, a
 * number `\d+\.`, or a bullet with an empty `\[\s*\]` or ticked `\[[xX]\]` box;
 * the replacement keeps or rewrites the indent and keeps the content.
 */
module Items {
  import opened Wrappers
  import opened Text
  import opened Scanner

  /** What opens an item after its indent. */
  datatype Head = Bullet | Number | Unchecked | Checked

  predicate IsBullet(c: char) {
    c == '-' || c == '*' || c == '+'
  }

  /** Where the whitespace run that starts at `i` ends. */
  function Skip(t: string, i: nat): (r: nat)
    requires i <= |t|
    ensures i <= r <= |t| && AllSpace(t[i..r]) && (r < |t| ==> !IsSpace(t[r]))
  {
    var n := SpaceRun(t[i..]);
    assert t[i..][..n] == t[i..i + n];
    i + n
  }

  /** On a line that ends in something other than whitespace, a run stops inside the line. */
  lemma SkipInLine(line: string, y: string, i: nat)
    requires NoTerminator(line) && i < |line| && !IsSpace(line[|line| - 1])
    requires y == [] || IsTerminator(y[0])
    ensures Skip(line + y, i) == Skip(line, i) < |line|
    ensures (line + y)[Skip(line, i)] == line[Skip(line, i)]
  {
    RunInLine(line, y, i);
  }

  /** `[-*+]\s+\[`: where the box's `[` is, after a bullet at `n`. */
  function BoxAt(t: string, n: nat): (r: Option<nat>)
    requires n < |t|
    ensures r.Some? ==> n + 1 < r.value < |t| && t[r.value] == '['
  {
    if !IsBullet(t[n]) then None
    else
      var a := Skip(t, n + 1);
      if a > n + 1 && a < |t| && t[a] == '[' then Some(a) else None
  }

  /** `[-*+]\s+\[\s*\]` */
  function UncheckedLen(t: string, n: nat): (r: Option<nat>)
    requires n < |t|
    ensures r.Some? ==> 0 < r.value && n + r.value <= |t|
  {
    match BoxAt(t, n)
    case None => None
    case Some(a) =>
      var b := Skip(t, a + 1);
      if b < |t| && t[b] == ']' then Some(b + 1 - n) else None
  }

  /** `[-*+]\s+\[[xX]\]` */
  function CheckedLen(t: string, n: nat): (r: Option<nat>)
    requires n < |t|
    ensures r.Some? ==> 0 < r.value && n + r.value <= |t|
  {
    match BoxAt(t, n)
    case None => None
    case Some(a) =>
      if a + 2 < |t| && (t[a + 1] == 'x' || t[a + 1] == 'X') && t[a + 2] == ']' then Some(a + 3 - n) else None
  }

  /** `\d+\.` */
  function NumberLen(t: string, n: nat): (r: Option<nat>)
    requires n < |t|
    ensures r.Some? ==> 0 < r.value && n + r.value <= |t|
  {
    var d := DigitRun(t[n..]);
    if 0 < d && n + d < |t| && t[n + d] == '.' then Some(d + 1) else None
  }

  /**
   * Length of the head that starts at `n`, if one does. Each part of a head
   * is followed by a character the part itself cannot take, so none of the
   * greedy runs inside it ever gives anything back.
   */
  function HeadLen(head: Head, t: string, n: nat): (r: Option<nat>)
    requires n <= |t|
    ensures r.Some? ==> 0 < r.value && n + r.value <= |t|
  {
    if n == |t| then None
    else match head
      case Bullet => if IsBullet(t[n]) then Some(1) else None
      case Number => NumberLen(t, n)
      case Unchecked => UncheckedLen(t, n)
      case Checked => CheckedLen(t, n)
  }

  /** How an item is written back. */
  datatype Style =
    | Star            // `$1[*] $2`
    | Dashes          // one dash per two characters of indent, plus one
    | Box(mark: string)  // `$1- MARK $2`

  function ItemOut(style: Style, indent: string, content: string): string {
    match style
    case Star => indent + "[*] " + content
    case Dashes => Repeat('-', |indent| / 2 + 1) + " " + content
    case Box(mark) => indent + "- " + mark + " " + content
  }

  /**
   * `^(\s*)HEAD\s+(.+)$` under the `m` flag, tried at the start of `t`. The
   * indent is the whole whitespace run: a shorter one would leave whitespace
   * where the head must start.
   */
  function ItemMatch(head: Head, style: Style, prev: Option<char>, t: string): Option<Match> {
    if !AtLineStart(prev) then None
    else
      var n := SpaceRun(t);
      match HeadLen(head, t, n)
      case None => None
      case Some(h) => ItemRest(style, t, n, n + h)
  }

  /** `\s+(.+)$` after a head that ends at `a`, with the indent ending at `n`. */
  function ItemRest(style: Style, t: string, n: nat, a: nat): Option<Match>
    requires n <= a <= |t|
  {
    match Tail(t, a, 1, true)
    case None => None
    case Some(cs) =>
      var e := LineEnd(t, cs);
      Some(Match(e, ItemOut(style, t[..n], t[cs..e])))
  }

  function ItemMatcher(head: Head, style: Style): Matcher {
    (prev: Option<char>, t: string) => ItemMatch(head, style, prev, t)
  }

  function Items(s: string, head: Head, style: Style): string {
    Replace(s, ItemMatcher(head, style))
  }

  // ---------------------------------------------------------------------
  // One line at a time
  // ---------------------------------------------------------------------

  /**
   * An item line taken on its own: its indent and its text, which follows
   * the head and at least one whitespace character.
   */
  function LineItem(head: Head, line: string): Option<(string, string)> {
    var n := SpaceRun(line);
    match HeadLen(head, line, n)
    case None => None
    case Some(h) => LineRest(line, n, n + h)
  }

  function LineRest(line: string, n: nat, a: nat): Option<(string, string)>
    requires n <= a <= |line|
  {
    var c := Skip(line, a);
    if a < c then Some((line[..n], line[c..])) else None
  }

  predicate IsItem(head: Head, line: string) {
    LineItem(head, line).Some?
  }

  /** What a pass makes of one line on its own. */
  function ItemLine(head: Head, style: Style, line: string): string {
    match LineItem(head, line)
    case None => line
    case Some((indent, text)) => ItemOut(style, indent, text)
  }

  /**
   * A line the pass treats on its own: no line terminator, it ends in
   * something other than whitespace, and no part of the pattern ends exactly
   * at the end of the line, where a following `\s` would carry it on into the
   * next line.
   */
  predicate Standalone(head: Head, line: string) {
    Ends(line) && SpaceRun(line) < |line| && HeadFits(head, line, SpaceRun(line))
    && ((head == Unchecked || head == Checked) ==> BoxFits(line, SpaceRun(line)))
  }

  /** Non-empty, no terminator, and the last character is not whitespace. */
  predicate Ends(line: string) {
    NoTerminator(line) && line != [] && !IsSpace(line[|line| - 1])
  }

  /** A head found at `n` ends before the line does. */
  predicate HeadFits(head: Head, line: string, n: nat)
    requires n <= |line|
  {
    HeadLen(head, line, n).Some? ==> n + HeadLen(head, line, n).value < |line|
  }

  /** A bullet at `n`, and the `[` of a box after it, are not the last character of the line. */
  predicate BoxFits(line: string, n: nat)
    requires n < |line|
  {
    (IsBullet(line[n]) ==> n + 1 < |line|)
    && (BoxAt(line, n).Some? ==> BoxAt(line, n).value + 1 < |line|)
  }

  lemma {:induction false} DigitRunStable(s: string, y: string)
    requires y == [] || !IsDigit(y[0])
    ensures DigitRun(s + y) == DigitRun(s)
    decreases |s|
  {
    if s == [] {
      assert s + y == y;
    } else {
      assert (s + y)[0] == s[0] && (s + y)[1..] == s[1..] + y;
      DigitRunStable(s[1..], y);
    }
  }

  lemma HeadStableNumber(line: string, y: string, n: nat)
    requires NoTerminator(line) && n < |line| && (y == [] || IsTerminator(y[0]))
    ensures NumberLen(line + y, n) == NumberLen(line, n)
  {
    assert (line + y)[n..] == line[n..] + y;
    DigitRunStable(line[n..], y);
    var d := DigitRun(line[n..]);
    if n + d < |line| {
      assert (line + y)[n + d] == line[n + d];
    } else if n + d < |line + y| {
      assert (line + y)[n + d] == y[0];
    }
  }

  lemma BoxStable(line: string, y: string, n: nat)
    requires Ends(line) && n < |line| && BoxFits(line, n) && (y == [] || IsTerminator(y[0]))
    ensures BoxAt(line + y, n) == BoxAt(line, n)
  {
    var t := line + y;
    assert t[n] == line[n];
    if IsBullet(line[n]) {
      SkipInLine(line, y, n + 1);
    }
  }

  lemma HeadStableUnchecked(line: string, y: string, n: nat)
    requires Ends(line) && n < |line| && BoxFits(line, n) && (y == [] || IsTerminator(y[0]))
    ensures UncheckedLen(line + y, n) == UncheckedLen(line, n)
  {
    BoxStable(line, y, n);
    match BoxAt(line, n)
    case None =>
    case Some(a) =>
      SkipInLine(line, y, a + 1);
      UncheckedStableAt(line, line + y, n, a, Skip(line, a + 1));
  }

  lemma UncheckedStableAt(line: string, t: string, n: nat, a: nat, b: nat)
    requires n < |line| <= |t| && a + 1 <= |line| && b < |line| && t[b] == line[b]
    requires BoxAt(t, n) == Some(a) && BoxAt(line, n) == Some(a)
    requires Skip(t, a + 1) == b && Skip(line, a + 1) == b
    ensures UncheckedLen(t, n) == UncheckedLen(line, n)
  {
  }

  lemma HeadStableChecked(line: string, y: string, n: nat)
    requires Ends(line) && n < |line| && BoxFits(line, n) && (y == [] || IsTerminator(y[0]))
    ensures CheckedLen(line + y, n) == CheckedLen(line, n)
  {
    var t := line + y;
    BoxStable(line, y, n);
    if BoxAt(line, n).Some? {
      var a := BoxAt(line, n).value;
      assert t[a + 1] == line[a + 1];
      if a + 2 < |line| {
        assert t[a + 2] == line[a + 2];
      } else if a + 2 < |t| {
        assert t[a + 2] == y[0];
      }
    }
  }

  /** On a standalone line the indent and the head do not depend on what follows the line. */
  lemma HeadStable(head: Head, line: string, y: string)
    requires Standalone(head, line) && (y == [] || IsTerminator(y[0]))
    ensures SpaceRun(line + y) == SpaceRun(line)
    ensures HeadLen(head, line + y, SpaceRun(line)) == HeadLen(head, line, SpaceRun(line))
  {
    RunInLine(line, y, 0);
    assert line[0..] == line && (line + y)[0..] == line + y;
    var n := SpaceRun(line);
    match head
    case Bullet => assert (line + y)[n] == line[n];
    case Number => HeadStableNumber(line, y, n);
    case Unchecked => HeadStableUnchecked(line, y, n);
    case Checked => HeadStableChecked(line, y, n);
  }

  lemma ItemMatchIs(head: Head, style: Style, p: Option<char>, t: string, n: nat, h: Option<nat>)
    requires n == SpaceRun(t) && h == HeadLen(head, t, n)
    ensures ItemMatch(head, style, p, t) == if !AtLineStart(p) || h.None? then None else ItemRest(style, t, n, n + h.value)
  {
  }

  lemma LineItemIs(head: Head, line: string, n: nat, h: Option<nat>)
    requires n == SpaceRun(line) && h == HeadLen(head, line, n)
    ensures LineItem(head, line) == if h.None? then None else LineRest(line, n, n + h.value)
  {
  }

  /** After the head, on a line that ends in something other than whitespace. */
  lemma RestInLine(style: Style, line: string, y: string, n: nat, a: nat)
    requires Ends(line) && (y == [] || IsTerminator(y[0])) && n <= a < |line|
    ensures ItemRest(style, line + y, n, a) ==
      match LineRest(line, n, a)
      case None => None
      case Some((indent, text)) => Some(Match(|line|, ItemOut(style, indent, text)))
  {
    var t := line + y;
    TailInLine(line, y, a);
    var c := Skip(line, a);
    if a < c {
      assert t[..n] == line[..n];
      assert t[c..|line|] == line[c..];
    }
  }

  /** The pass at the start of a standalone line, whatever follows the line. */
  lemma ItemAtStart(head: Head, style: Style, p: Option<char>, line: string, y: string)
    requires Standalone(head, line) && (y == [] || IsTerminator(y[0]))
    ensures ItemMatch(head, style, p, line + y) ==
      if AtLineStart(p) && IsItem(head, line) then Some(Match(|line|, ItemLine(head, style, line))) else None
  {
    HeadStable(head, line, y);
    var n := SpaceRun(line);
    HeadedAtStart(head, style, p, line, y, n, HeadLen(head, line, n));
  }

  lemma HeadedAtStart(head: Head, style: Style, p: Option<char>, line: string, y: string, n: nat, h: Option<nat>)
    requires Ends(line) && (y == [] || IsTerminator(y[0]))
    requires n == SpaceRun(line) == SpaceRun(line + y) && n < |line|
    requires h == HeadLen(head, line, n) == HeadLen(head, line + y, n)
    requires h.Some? ==> n + h.value < |line|
    ensures ItemMatch(head, style, p, line + y) ==
      if AtLineStart(p) && IsItem(head, line) then Some(Match(|line|, ItemLine(head, style, line))) else None
  {
    ItemMatchIs(head, style, p, line + y, n, h);
    LineItemIs(head, line, n, h);
    if h.Some? {
      RestInLine(style, line, y, n, n + h.value);
    }
  }

  lemma ItemConfined(head: Head, style: Style, line: string)
    requires Standalone(head, line)
    ensures Confined(ItemMatcher(head, style), line)
  {
    var f := ItemMatcher(head, style);
    forall p, y | y == [] || IsTerminator(y[0]) ensures StaysOnLine(f, p, line, y) {
      forall i | 0 <= i <= |line|
        ensures f(PrevAt(p, line, i), line[i..] + y) == f(PrevAt(p, line, i), line[i..])
        ensures f(PrevAt(p, line, i), line[i..]).Some? ==> f(PrevAt(p, line, i), line[i..]).value.len <= |line| - i
      {
        if i == 0 {
          assert line[0..] == line && line + [] == line;
          ItemAtStart(head, style, p, line, y);
          ItemAtStart(head, style, p, line, []);
        } else {
          assert !IsTerminator(line[i - 1]);
        }
      }
    }
  }

  /** The pass on a standalone line on its own. */
  lemma {:induction false} ItemPassLine(head: Head, style: Style, line: string)
    requires Standalone(head, line)
    ensures Items(line, head, style) == ItemLine(head, style, line)
  {
    var f := ItemMatcher(head, style);
    assert line + [] == line;
    ItemAtStart(head, style, None, line, []);
    if IsItem(head, line) {
      MatchStep(None, line, [], f, ItemLine(head, style, line));
    } else {
      forall i | 0 <= i < |line| ensures !Consumes(f(PrevAt(None, line, i), line[i..] + []), line[i..] + []) {
        assert line[i..] + [] == line[i..];
        if i > 0 {
          assert !IsTerminator(line[i - 1]);
        } else {
          assert line[0..] == line;
        }
      }
      CopyRun(None, line, [], f);
    }
  }

  /** Text made of standalone lines: the pass converts every line on its own. */
  lemma ItemsByLine(head: Head, style: Style, lines: seq<string>)
    requires |lines| >= 1 && forall i :: 0 <= i < |lines| ==> Standalone(head, lines[i])
    ensures Items(Join(lines, '\n'), head, style) ==
            Join(seq(|lines|, i requires 0 <= i < |lines| => ItemLine(head, style, lines[i])), '\n')
  {
    var f := ItemMatcher(head, style);
    forall i | 0 <= i < |lines| ensures Confined(f, lines[i]) && Replace(lines[i], f) == ItemLine(head, style, lines[i]) {
      ItemConfined(head, style, lines[i]);
      ItemPassLine(head, style, lines[i]);
    }
    ReplaceLines(lines, f);
    assert EachLine(lines, f) == seq(|lines|, i requires 0 <= i < |lines| => ItemLine(head, style, lines[i]));
  }

  /** The parts `LineItem` takes out of an item line. */
  lemma LineItemParts(head: Head, line: string) returns (ind: string, text: string)
    requires IsItem(head, line) && Ends(line)
    ensures LineItem(head, line) == Some((ind, text))
    ensures ind == line[..SpaceRun(line)]
    ensures 0 < |text| && |ind| < |line| - |text| && text == line[|line| - |text|..] && !IsSpace(text[0])
  {
    var n := SpaceRun(line);
    var h := HeadLen(head, line, n);
    LineItemIs(head, line, n, h);
    ind, text := LineRestParts(line, n, n + h.value);
  }

  lemma LineRestParts(line: string, n: nat, a: nat) returns (ind: string, text: string)
    requires n <= a <= |line| && Ends(line) && LineRest(line, n, a).Some?
    ensures LineRest(line, n, a) == Some((ind, text)) && ind == line[..n]
    ensures 0 < |text| && a < |line| - |text| && text == line[|line| - |text|..] && !IsSpace(text[0])
  {
    var c := Skip(line, a);
    assert a < c <= |line|;
    assert line[a..][|line[a..]| - 1] == line[|line| - 1];
    SpaceRunStops(line[a..]);
    assert |line| - |line[c..]| == c;
    ind, text := line[..n], line[c..];
  }

  /** The text of an item is the end of its line, and shares its ending. */
  lemma TextEnds(line: string, text: string)
    requires Ends(line) && 0 < |text| <= |line| && text == line[|line| - |text|..]
    ensures Ends(text) && AllSpace(line[..SpaceRun(line)]) && NoTerminator(line[..SpaceRun(line)])
  {
    assert text[|text| - 1] == line[|line| - 1];
    assert NoTerminator(text) by {
      forall i | 0 <= i < |text| ensures !IsTerminator(text[i]) {
        assert text[i] == line[|line| - |text| + i];
      }
    }
  }

  /** The parts of a bullet line that sits on a line of its own. */
  predicate BulletLayout(ind: string, bullet: char, ws: string, text: string) {
    AllSpace(ind) && NoTerminator(ind) && IsBullet(bullet)
    && ws != [] && AllSpace(ws) && NoTerminator(ws) && Ends(text) && !IsSpace(text[0])
  }

  /** An indent, a bullet and whitespace in front of the item text. */
  lemma BulletLineHead(ind: string, bullet: char, ws: string, text: string)
    requires BulletLayout(ind, bullet, ws, text)
    ensures var l := ind + [bullet] + ws + text;
      SpaceRun(l) == |ind| && |ind| + 1 + |ws| < |l| && l[|ind|] == bullet && l[..|ind|] == ind
      && Skip(l, |ind| + 1) == |ind| + 1 + |ws| && l[|ind| + 1 + |ws|..] == text
  {
    IndentRun(ind, [bullet] + ws + text);
    assert ind + [bullet] + ws + text == ind + ([bullet] + ws + text);
    SkipOver(ind + [bullet], ws, text);
  }

  /** The run of whitespace at the start of a line is its indent. */
  lemma IndentRun(ind: string, rest: string)
    requires AllSpace(ind) && rest != [] && !IsSpace(rest[0])
    ensures SpaceRun(ind + rest) == |ind| && (ind + rest)[..|ind|] == ind && (ind + rest)[|ind|] == rest[0]
  {
    SpaceRunOf(ind, rest);
  }

  /** Whitespace after `pre` is skipped up to what follows it. */
  lemma SkipOver(pre: string, ws: string, text: string)
    requires AllSpace(ws) && text != [] && !IsSpace(text[0])
    ensures var l := pre + ws + text;
      Skip(l, |pre|) == |pre| + |ws| && l[|pre| + |ws|..] == text && l[..|pre|] == pre
  {
    var l := pre + ws + text;
    assert l[|pre|..] == ws + text;
    SpaceRunOf(ws, text);
    assert (ws + text)[|ws|..] == text;
  }

  lemma BulletLineEnds(ind: string, bullet: char, ws: string, text: string)
    requires BulletLayout(ind, bullet, ws, text)
    ensures Ends(ind + [bullet] + ws + text)
  {
    var l := ind + [bullet] + ws + text;
    NoTerminatorAppend(ind, [bullet]);
    NoTerminatorAppend(ind + [bullet], ws);
    NoTerminatorAppend(ind + [bullet] + ws, text);
    assert l[|l| - 1] == text[|text| - 1];
  }

  /** A bullet line is a bullet item of its indent and text, on a line of its own. */
  lemma BulletLine(ind: string, bullet: char, ws: string, text: string)
    requires BulletLayout(ind, bullet, ws, text)
    ensures var l := ind + [bullet] + ws + text;
      LineItem(Bullet, l) == Some((ind, text)) && Standalone(Bullet, l)
  {
    var l := ind + [bullet] + ws + text;
    BulletLineHead(ind, bullet, ws, text);
    BulletLineEnds(ind, bullet, ws, text);
    LineItemIs(Bullet, l, |ind|, Some(1));
  }

  // ---------------------------------------------------------------------
  // One numbered item on a line of its own
  // ---------------------------------------------------------------------

  /**
   * `line.match(/^(\s*)\d+\.\s+(.+)$/)` on one line (no `m` flag, so the
   * content runs to the end of the string): the indent and the content.
   */
  function OrderedItem(line: string): (r: Option<(string, string)>)
    ensures r.Some? ==> r.value.1 != [] && NoTerminator(r.value.1)
    ensures r.Some? ==> AllSpace(r.value.0)
  {
    var n := SpaceRun(line);
    match HeadLen(Number, line, n)
    case None => None
    case Some(h) =>
      match Tail(line, n + h, 1, false)
      case None => None
      case Some(cs) =>
        assert line[cs..] == line[cs..LineEnd(line, cs)];
        Some((line[..n], line[cs..]))
  }
}
