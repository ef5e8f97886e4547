/**
 * WorldAnvil horizontal rules: every line that is only three or more `-`, or
 * three or more `*`, with optional whitespace around them, becomes `[hr]`.
 * The text is split on line feeds, each line is tested on its own, and the
 * lines are joined back.
 */
module HorizontalRules {
  import opened Text

  /** Length of the run of `c` at the start of `s`. */
  function RunOf(s: string, c: char): (n: nat)
    ensures n <= |s| && (forall i :: 0 <= i < n ==> s[i] == c) && (n < |s| ==> s[n] != c)
  {
    if s == [] || s[0] != c then 0 else 1 + RunOf(s[1..], c)
  }

  predicate IsMarker(c: char) {
    c == '-' || c == '*'
  }

  /**
   * `/^\s*(?:-{3,}|\*{3,})\s*$/` on one line. Whitespace and markers never
   * overlap, so the greedy runs decide it: the leading whitespace, then the
   * run of the first marker, then nothing but whitespace.
   */
  predicate IsRule(line: string) {
    var a := SpaceRun(line);
    a < |line| && IsMarker(line[a]) && RunOf(line[a..], line[a]) >= 3 && AllSpace(line[a + RunOf(line[a..], line[a])..])
  }

  /** How a rule line is written. */
  function RuleForm(pre: string, c: char, n: nat, post: string): string {
    pre + Repeat(c, n) + post
  }

  predicate RuleParts(pre: string, c: char, n: nat, post: string) {
    AllSpace(pre) && IsMarker(c) && n >= 3 && AllSpace(post)
  }

  function RuleOrLine(line: string): (r: string)
    ensures IsRule(line) ==> r == "[hr]"
    ensures !IsRule(line) ==> r == line
  {
    if IsRule(line) then "[hr]" else line
  }

  function MapLines(lines: seq<string>): (r: seq<string>)
    ensures |r| == |lines|
    ensures forall i :: 0 <= i < |lines| ==> r[i] == RuleOrLine(lines[i])
  {
    if lines == [] then [] else [RuleOrLine(lines[0])] + MapLines(lines[1..])
  }

  /** `convertHorizontalRules`. */
  function HorizontalRules(text: string): string {
    Join(MapLines(Split(text, '\n')), '\n')
  }

  /** The rule test accepts exactly the lines written as whitespace, three or more of one marker, whitespace. */
  lemma RuleIff(pre: string, c: char, n: nat, post: string)
    requires AllSpace(pre) && AllSpace(post) && IsMarker(c)
    ensures IsRule(RuleForm(pre, c, n, post)) <==> n >= 3
  {
    var line := RuleForm(pre, c, n, post);
    if n > 0 {
      assert line == pre + (Repeat(c, n) + post);
      SpaceRunOf(pre, Repeat(c, n) + post);
      assert line[|pre|..] == Repeat(c, n) + post;
      RunOfRepeat(c, n, post);
      assert line[|pre| + n..] == post;
    } else {
      assert line == pre + post;
      assert AllSpace(line);
      SpaceRunAll(line);
    }
  }

  lemma {:induction false} SpaceRunAll(s: string)
    requires AllSpace(s)
    ensures SpaceRun(s) == |s|
    decreases |s|
  {
    if s != [] {
      SpaceRunAll(s[1..]);
    }
  }

  lemma {:induction false} RunOfRepeat(c: char, n: nat, post: string)
    requires post == [] || post[0] != c
    ensures RunOf(Repeat(c, n) + post, c) == n
    decreases n
  {
    if n > 0 {
      assert (Repeat(c, n) + post)[1..] == Repeat(c, n - 1) + post;
      RunOfRepeat(c, n - 1, post);
    } else {
      assert Repeat(c, n) + post == post;
    }
  }

  /** Conversely, every line the rule test accepts is written that way. */
  lemma RuleShape(line: string)
    requires IsRule(line)
    ensures exists pre, c, n, post :: RuleParts(pre, c, n, post) && line == RuleForm(pre, c, n, post)
  {
    var a := SpaceRun(line);
    var c := line[a];
    var n := RunOf(line[a..], c);
    assert line[a..a + n] == Repeat(c, n);
    assert line == line[..a] + line[a..a + n] + line[a + n..];
    assert RuleParts(line[..a], c, n, line[a + n..]);
  }

  /** No line feed is added or removed, so each line of the result is the converted line of the input. */
  lemma LinesKept(text: string)
    ensures Split(HorizontalRules(text), '\n') == MapLines(Split(text, '\n'))
  {
    var lines := MapLines(Split(text, '\n'));
    forall i | 0 <= i < |lines| ensures '\n' !in lines[i] {
      assert lines[i] == RuleOrLine(Split(text, '\n')[i]);
    }
    SplitJoin(lines, '\n');
  }

  /** The rule keeps the number of line feeds. */
  lemma LineCount(text: string)
    ensures Count(HorizontalRules(text), '\n') == Count(text, '\n')
  {
    LinesKept(text);
    SplitCount(HorizontalRules(text), '\n');
    SplitCount(text, '\n');
  }

  /** The empty text stays empty. */
  lemma EmptyText()
    ensures HorizontalRules("") == ""
  {
    assert Split("", '\n') == [""];
    assert !IsRule("");
  }

  /** Lines that only look like rules stay as they are. */
  lemma NearMisses()
    ensures RuleOrLine("--") == "--" && RuleOrLine("-*-") == "-*-" && RuleOrLine("text ---") == "text ---"
  {
    assert SpaceRun("--") == 0 && RunOf("--", '-') == 2;
    assert SpaceRun("-*-") == 0 && RunOf("-*-", '-') == 1;
    assert SpaceRun("text ---") == 0;
  }

  /** Running the rule twice changes nothing more: `[hr]` is not a rule line. */
  lemma Idempotent(text: string)
    ensures HorizontalRules(HorizontalRules(text)) == HorizontalRules(text)
  {
    var lines := Split(text, '\n');
    LinesKept(text);
    assert !IsRule("[hr]") by {
      assert SpaceRun("[hr]") == 0;
    }
    assert MapLines(MapLines(lines)) == MapLines(lines);
  }
}
