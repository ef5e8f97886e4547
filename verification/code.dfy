/**
 * Fenced code blocks and inline code.
 *
 * A fence is `/```(\w+)?\n([\s\S]*?)```/`: an optional language made of word
 * characters, a line feed, then everything up to the nearest closing fence,
 * line terminators included. Inline code is `/`([^`]+)`/`. Both are global
 * replaces, blocks first.
 */
module Code {
  import opened Wrappers
  import opened Text
  import opened Scanner
  import opened Dialect

  const Fence: string := "```"

  /** A fenced block at the start of some text: its language, its body and its length. */
  datatype Block = Block(lang: string, body: string, len: nat)

  /** How a fenced block is written. */
  function FenceForm(lang: string, body: string): string {
    Fence + lang + "\n" + body + Fence
  }

  predicate AllWord(s: string) {
    forall i :: 0 <= i < |s| ==> IsWordChar(s[i])
  }

  /**
   * No fence starts inside `s`, whatever follows it: `s` holds no "```", and
   * it does not end in a backtick that a following fence would extend.
   */
  predicate NoFenceIn(s: string) {
    (forall j :: 0 <= j < |s| ==> !StartsWith(s[j..], Fence)) && (s == [] || s[|s| - 1] != '`')
  }

  /** Whatever follows `s`, no fence starts at a place inside it. */
  lemma NoFenceWithin(s: string, y: string, j: nat)
    requires NoFenceIn(s) && j < |s|
    ensures !StartsWith((s + y)[j..], Fence)
  {
    var t := (s + y)[j..];
    if j + 3 <= |s| {
      assert t[..3] == s[j..][..3];
    } else if j + 1 == |s| {
      assert t[0] == s[|s| - 1];
    } else {
      assert t[1] == s[|s| - 1];
    }
  }

  /** Text without a backtick holds no fence. */
  lemma TickFreeNoFence(s: string)
    requires '`' !in s
    ensures NoFenceIn(s)
  {
    forall j | 0 <= j < |s| ensures !StartsWith(s[j..], Fence) {
      assert s[j..][0] == s[j];
    }
  }

  /**
   * The block pattern at the start of `t`. The greedy `(\w+)?` takes every
   * word character, and giving some back cannot help since the line feed must
   * follow; the lazy body stops at the first closing fence.
   */
  function BlockAt(t: string): Option<Block> {
    if !StartsWith(t, Fence) then None
    else
      var w := WordRun(t[3..]);
      if |t| <= 3 + w || t[3 + w] != '\n' then None
      else match FindFrom(t, Fence, 4 + w)
        case None => None
        case Some(e) => Some(Block(t[3..3 + w], t[4 + w..e], e + 3))
  }

  /** The tag a block becomes: a language is kept only when asked for and present. */
  function CodeTag(keepLang: bool, lang: string, code: string): string {
    if keepLang && lang != [] then "[code:" + lang + "]" + code + "[/code]"
    else "[code]" + code + "[/code]"
  }

  function BlockMatcher(keepLang: bool): Matcher {
    (prev: Option<char>, t: string) =>
      match BlockAt(t)
      case Some(b) => Some(Match(b.len, CodeTag(keepLang, b.lang, Trim(b.body))))
      case None => None
  }

  /** `/`([^`]+)`/`: a non-empty run without backticks between two backticks. */
  function InlineMatcher(): Matcher {
    (prev: Option<char>, t: string) =>
      if t == [] || t[0] != '`' then None
      else match IndexOf(t[1..], '`')
        case None => None
        case Some(k) => if k == 0 then None else Some(Match(k + 2, "[code]" + t[1..k + 1] + "[/code]"))
  }

  function CodeBlocks(s: string, keepLang: bool): string {
    Replace(s, BlockMatcher(keepLang))
  }

  function InlineCode(s: string): string {
    Replace(s, InlineMatcher())
  }

  /** `convertCode`: blocks, then inline code; worldanvil keeps a block's language. */
  function Code(s: string, fmt: Format): string {
    InlineCode(CodeBlocks(s, fmt == WorldAnvil))
  }

  /** The standard-BBCode code rule: the language is always dropped. */
  function StandardCode(s: string): string {
    InlineCode(CodeBlocks(s, false))
  }

  /** What the block pattern finds is a fence written out at the start of `t`, closed at its first closing fence. */
  lemma BlockAtForm(t: string)
    requires BlockAt(t).Some?
    ensures var b := BlockAt(t).value;
      AllWord(b.lang) && StartsWith(t, FenceForm(b.lang, b.body)) && b.len == |FenceForm(b.lang, b.body)|
      && forall j :: |b.lang| + 4 <= j < |b.lang| + 4 + |b.body| ==> !StartsWith(t[j..], Fence)
  {
    var w := WordRun(t[3..]);
    var e := FindFrom(t, Fence, 4 + w).value;
    assert BlockAt(t).value == Block(t[3..3 + w], t[4 + w..e], e + 3);
    assert AllWord(t[3..3 + w]) by {
      assert t[3..3 + w] == t[3..][..w];
    }
    FenceSlices(t, w, e);
  }

  lemma FenceSlices(t: string, w: nat, e: nat)
    requires StartsWith(t, Fence) && 3 + w < |t| && t[3 + w] == '\n' && 4 + w <= e <= |t| && StartsWith(t[e..], Fence)
    ensures StartsWith(t, FenceForm(t[3..3 + w], t[4 + w..e])) && |FenceForm(t[3..3 + w], t[4 + w..e])| == e + 3
  {
    assert t[..e + 3] == t[..3] + t[3..3 + w] + [t[3 + w]] + t[4 + w..e] + t[e..e + 3];
    assert t[e..e + 3] == t[e..][..3];
  }

  /** The block pattern, once the language run and the closing fence are located. */
  lemma BlockAtIs(t: string, w: nat, e: nat)
    requires StartsWith(t, Fence) && WordRun(t[3..]) == w && 3 + w < |t| && t[3 + w] == '\n'
    requires FindFrom(t, Fence, 4 + w) == Some(e)
    ensures BlockAt(t) == Some(Block(t[3..3 + w], t[4 + w..e], e + 3))
  {
  }

  /**
   * A fence whose body holds no fence of its own is found, with exactly its
   * language and body: the lazy body stops at the fence written after it.
   */
  lemma BlockOf(lang: string, body: string, rest: string)
    requires AllWord(lang) && NoFenceIn(body)
    ensures BlockAt(FenceForm(lang, body) + rest) == Some(Block(lang, body, |FenceForm(lang, body)|))
  {
    var t := FenceForm(lang, body) + rest;
    LangRun(lang, body, rest);
    CloseOf(lang, body, rest);
    BlockSlices(lang, body, rest);
    BlockFrom(t, lang, body, |FenceForm(lang, body)|);
  }

  lemma BlockFrom(t: string, lang: string, body: string, n: nat)
    requires StartsWith(t, Fence) && WordRun(t[3..]) == |lang| && 3 + |lang| < |t| && t[3 + |lang|] == '\n'
    requires FindFrom(t, Fence, 4 + |lang|) == Some(|lang| + 4 + |body|)
    requires |t| >= |lang| + |body| + 7 && t[3..3 + |lang|] == lang && t[|lang| + 4..|lang| + 4 + |body|] == body
    requires n == |lang| + |body| + 7
    ensures BlockAt(t) == Some(Block(lang, body, n))
  {
    BlockAtIs(t, |lang|, |lang| + 4 + |body|);
  }

  /** The converse: a fence found with exactly its own body holds no fence inside that body. */
  lemma BlockOnlyIfNoFence(lang: string, body: string, rest: string)
    requires BlockAt(FenceForm(lang, body) + rest) == Some(Block(lang, body, |FenceForm(lang, body)|))
    ensures NoFenceIn(body)
  {
    var t := FenceForm(lang, body) + rest;
    var x := Fence + lang + "\n";
    BlockAtForm(t);
    assert t == x + body + (Fence + rest);
    NoFenceBefore(x, body, rest);
  }

  lemma NoFenceBefore(x: string, body: string, rest: string)
    requires forall j :: |x| <= j < |x| + |body| ==> !StartsWith((x + body + (Fence + rest))[j..], Fence)
    ensures NoFenceIn(body)
  {
    var t := x + body + (Fence + rest);
    forall j | 0 <= j < |body| ensures !StartsWith(body[j..], Fence) {
      assert !StartsWith(t[|x| + j..], Fence);
      TailAt(x, body, Fence + rest, j);
    }
    if body != [] {
      var k := |x| + |body| - 1;
      assert !StartsWith(t[k..], Fence);
      TailAt(x, body, Fence + rest, |body| - 1);
      assert t[k..] == [body[|body| - 1]] + (Fence + rest);
    }
  }

  lemma TailAt(x: string, body: string, y: string, j: nat)
    requires j < |body|
    ensures (x + body + y)[|x| + j..] == body[j..] + y
  {
  }

  lemma LangRun(lang: string, body: string, rest: string)
    requires AllWord(lang)
    ensures var t := FenceForm(lang, body) + rest;
      StartsWith(t, Fence) && WordRun(t[3..]) == |lang| && 3 + |lang| < |t| && t[3 + |lang|] == '\n'
  {
    var t := FenceForm(lang, body) + rest;
    assert t == Fence + lang + ("\n" + body + Fence + rest);
    Parts(Fence, lang, "\n" + body + Fence + rest);
    WordRunOf(lang, "\n" + body + Fence + rest);
  }

  lemma {:induction false} WordRunOf(w: string, rest: string)
    requires AllWord(w) && (rest == [] || !IsWordChar(rest[0]))
    ensures WordRun(w + rest) == |w|
    decreases |w|
  {
    if w != [] {
      assert (w + rest)[1..] == w[1..] + rest;
      WordRunOf(w[1..], rest);
    }
  }

  /** The first closing fence after the body is the one right after it. */
  lemma CloseOf(lang: string, body: string, rest: string)
    requires NoFenceIn(body)
    ensures FindFrom(FenceForm(lang, body) + rest, Fence, |lang| + 4) == Some(|lang| + 4 + |body|)
  {
    var t := FenceForm(lang, body) + rest;
    var a := |lang| + 4;
    assert t == Fence + lang + "\n" + body + (Fence + rest);
    Parts(Fence + lang + "\n", body, Fence + rest);
    assert StartsWith(t[a + |body|..], Fence);
    forall j | a <= j < a + |body| ensures !StartsWith(t[j..], Fence) {
      assert t[j..] == (body + (Fence + rest))[j - a..];
      NoFenceWithin(body, Fence + rest, j - a);
    }
    FindFromFirst(t, Fence, a, a + |body|);
  }

  /** `FindFrom` returns the first place the pattern starts. */
  lemma {:induction false} FindFromFirst(s: string, p: string, from: nat, k: nat)
    requires from <= k <= |s| && StartsWith(s[k..], p)
    requires forall j :: from <= j < k ==> !StartsWith(s[j..], p)
    ensures FindFrom(s, p, from) == Some(k)
    decreases k - from
  {
    if from < k {
      FindFromFirst(s, p, from + 1, k);
    }
  }

  lemma BlockSlices(lang: string, body: string, rest: string)
    ensures var t := FenceForm(lang, body) + rest;
      |t| >= |lang| + |body| + 7 && t[3..3 + |lang|] == lang && t[|lang| + 4..|lang| + 4 + |body|] == body
  {
    var t := FenceForm(lang, body) + rest;
    assert t == Fence + lang + ("\n" + body + Fence + rest);
    Parts(Fence, lang, "\n" + body + Fence + rest);
    assert t == Fence + lang + "\n" + body + (Fence + rest);
    Parts(Fence + lang + "\n", body, Fence + rest);
  }

  /** A fence becomes its tag with the trimmed body, and scanning goes on after it. */
  lemma BlockTag(keepLang: bool, prev: Option<char>, lang: string, body: string, rest: string)
    requires AllWord(lang) && NoFenceIn(body)
    ensures ReplaceAll(prev, FenceForm(lang, body) + rest, BlockMatcher(keepLang))
         == CodeTag(keepLang, lang, Trim(body)) + ReplaceAll(Some('`'), rest, BlockMatcher(keepLang))
  {
    var x := FenceForm(lang, body);
    BlockOf(lang, body, rest);
    BlockMatchIs(keepLang, prev, x + rest, Block(lang, body, |x|));
    MatchStep(prev, x, rest, BlockMatcher(keepLang), CodeTag(keepLang, lang, Trim(body)));
  }

  lemma BlockMatchIs(keepLang: bool, prev: Option<char>, t: string, b: Block)
    requires BlockAt(t) == Some(b)
    ensures BlockMatcher(keepLang)(prev, t) == Some(Match(b.len, CodeTag(keepLang, b.lang, Trim(b.body))))
  {
  }

  /** An empty block gives an empty code tag. */
  lemma EmptyBlock(keepLang: bool, lang: string)
    requires AllWord(lang) && !(keepLang && lang != [])
    ensures CodeBlocks(FenceForm(lang, []), keepLang) == "[code][/code]"
  {
    var x := FenceForm(lang, []);
    assert CodeBlocks(x, keepLang) == CodeTag(keepLang, lang, Trim([])) by {
      BlockTag(keepLang, None, lang, [], []);
      assert x + [] == x;
    }
    EmptyTag(keepLang, lang);
  }

  lemma EmptyTag(keepLang: bool, lang: string)
    requires !(keepLang && lang != [])
    ensures CodeTag(keepLang, lang, Trim([])) == "[code][/code]"
  {
    TrimNothing();
    var none: string := [];
    assert CodeTag(keepLang, lang, none) == "[code]" + none + "[/code]";
    assert "[code]" + none + "[/code]" == "[code][/code]";
  }

  lemma TrimNothing()
    ensures Trim([]) == []
  {
    assert SpaceRun([]) == 0;
  }

  /** Text without a backtick holds no code and is unchanged. */
  lemma InlineUnchanged(s: string)
    requires Avoids(s, {'`'})
    ensures InlineCode(s) == s
  {
    Unchanged(None, s, InlineMatcher(), {'`'});
  }

  /** No tag a block becomes holds a backtick, when its body holds none. */
  lemma TagWithoutTicks(keepLang: bool, lang: string, code: string)
    requires AllWord(lang) && Avoids(code, {'`'})
    ensures Avoids(CodeTag(keepLang, lang, code), {'`'})
  {
    var r := CodeTag(keepLang, lang, code);
    forall i | 0 <= i < |r| ensures r[i] != '`' {
      if keepLang && lang != [] {
        assert r == "[code:" + lang + "]" + code + "[/code]";
        if 6 <= i < 6 + |lang| { assert r[i] == lang[i - 6]; }
        else if 7 + |lang| <= i < 7 + |lang| + |code| { assert r[i] == code[i - 7 - |lang|]; }
      } else {
        if 6 <= i < 6 + |code| { assert r[i] == code[i - 6]; }
      }
    }
  }

  /** Trimming keeps a run of the body, so it keeps the body free of backticks. */
  lemma TrimAvoids(s: string, xs: set<char>)
    requires Avoids(s, xs)
    ensures Avoids(Trim(s), xs)
  {
    var i, j :| 0 <= i <= j <= |s| && Trim(s) == s[i..j];
    forall k | 0 <= k < |Trim(s)| ensures Trim(s)[k] !in xs {
      assert Trim(s)[k] == s[i + k];
    }
  }

  /**
   * Blocks are rewritten before inline code, and the inline pass then runs
   * over the whole text, the block's tag included.
   */
  lemma FenceThenInline(fmt: Format, lang: string, body: string)
    requires AllWord(lang) && NoFenceIn(body)
    ensures Code(FenceForm(lang, body), fmt) == InlineCode(CodeTag(fmt == WorldAnvil, lang, Trim(body)))
  {
    BlocksOfFence(fmt == WorldAnvil, lang, body);
  }

  /** The block pass over a text that is one fenced block gives that block's tag. */
  lemma BlocksOfFence(keepLang: bool, lang: string, body: string)
    requires AllWord(lang) && NoFenceIn(body)
    ensures CodeBlocks(FenceForm(lang, body), keepLang) == CodeTag(keepLang, lang, Trim(body))
  {
    var x := FenceForm(lang, body);
    BlockTag(keepLang, None, lang, body, []);
    assert x + [] == x;
  }

  /**
   * A block whose body holds no backtick comes out as its code tag: the
   * inline pass finds no backtick left in it, so its fences never become
   * inline code.
   */
  lemma FenceNotInline(fmt: Format, lang: string, body: string)
    requires AllWord(lang) && '`' !in body
    ensures Code(FenceForm(lang, body), fmt) == CodeTag(fmt == WorldAnvil, lang, Trim(body))
  {
    var keep := fmt == WorldAnvil;
    var tag := CodeTag(keep, lang, Trim(body));
    TickFreeNoFence(body);
    FenceThenInline(fmt, lang, body);
    assert InlineCode(tag) == tag by {
      assert Avoids(body, {'`'});
      TrimAvoids(body, {'`'});
      TagWithoutTicks(keep, lang, Trim(body));
      InlineUnchanged(tag);
    }
  }

  /**
   * Inline code inside a block is not protected: the inline pass converts it
   * inside the block's tag, which nests one code tag in another.
   */
  lemma InlineInsideBlock(fmt: Format, c: string)
    requires c != [] && '`' !in c
    ensures Code("```\n`" + c + "`\n```", fmt) == "[code][code]" + c + "[/code][/code]"
  {
    var u := "`" + c + "`";
    var body := u + "\n";
    TicksBody(c);
    assert "```\n`" + c + "`\n```" == FenceForm([], body);
    BlocksOfFence(fmt == WorldAnvil, [], body);
    TrimOf(u, "\n");
    TicksInTag(c);
  }

  lemma TicksBody(c: string)
    requires c != [] && '`' !in c
    ensures NoFenceIn("`" + c + "`" + "\n")
  {
    var body := "`" + c + "`" + "\n";
    assert |body| == |c| + 3 && body[|body| - 1] == '\n';
    forall j | 0 <= j < |body| ensures !StartsWith(body[j..], Fence) {
      if j + 3 <= |body| {
        var k := if j == 0 then 1 else j;
        assert body[k] == c[k - 1];
        assert body[j..][..3][k - j] == body[k];
      }
    }
  }

  lemma TicksInTag(c: string)
    requires c != [] && '`' !in c
    ensures InlineCode("[code]" + ("`" + c + "`") + "[/code]") == "[code][code]" + c + "[/code][/code]"
  {
    var open, close := "[code]", "[/code]";
    assert Avoids(open, {'`'}) && Avoids(close, {'`'});
    assert open + ("`" + c + "`") + close == open + "`" + c + "`" + close;
    InlineSplit(open, c, close);
    InlineUnchanged(close);
    NestedTags(c);
  }

  lemma NestedTags(c: string)
    ensures "[code]" + "[code]" + c + "[/code]" + "[/code]" == "[code][code]" + c + "[/code][/code]"
  {
    assert "[code]" + "[code]" == "[code][code]";
    assert "[/code]" + "[/code]" == "[/code][/code]";
  }

  /**
   * Inline code with a non-empty, backtick-free content becomes
   * `[code]c[/code]`; text before it without backticks is copied and the rest
   * is rewritten on its own.
   */
  lemma InlineSplit(d: string, c: string, rest: string)
    requires c != [] && '`' !in c && Avoids(d, {'`'})
    ensures InlineCode(d + "`" + c + "`" + rest) == d + "[code]" + c + "[/code]" + InlineCode(rest)
  {
    var x := "`" + c + "`";
    assert d + "`" + c + "`" + rest == d + x + rest;
    InlineAt(None, c, rest);
    assert Quiet(None, d, x + rest, InlineMatcher()) by {
      forall i | 0 <= i < |d| ensures !Consumes(InlineMatcher()(PrevAt(None, d, i), d[i..] + (x + rest)), d[i..] + (x + rest)) {
        assert (d[i..] + (x + rest))[0] == d[i];
      }
    }
    assert IgnoresPrev(InlineMatcher());
    SplitAt(InlineMatcher(), d, x, rest, "[code]" + c + "[/code]");
  }

  lemma InlineAt(prev: Option<char>, c: string, rest: string)
    requires c != [] && '`' !in c
    ensures InlineMatcher()(prev, "`" + c + "`" + rest) == Some(Match(|c| + 2, "[code]" + c + "[/code]"))
  {
    var t := "`" + c + "`" + rest;
    assert t == "`" + c + ("`" + rest);
    Parts("`", c, "`" + rest);
    assert c + ("`" + rest) == c + ['`'] + rest;
    IndexOfAfter(c, '`', rest);
  }

  /** Two backticks in a row open no inline code: the content must be non-empty. */
  lemma NoEmptyInline(prev: Option<char>, rest: string)
    ensures InlineMatcher()(prev, "``" + rest).None?
  {
    var t := "``" + rest;
    assert t[1..] == ['`'] + rest;
    assert IndexOf(t[1..], '`') == Some(0);
  }

  lemma BlocksIgnorePrev(keepLang: bool)
    ensures IgnoresPrev(BlockMatcher(keepLang))
  {
  }

  lemma BlockHere(keepLang: bool, lang: string, body: string, rest: string)
    requires AllWord(lang) && NoFenceIn(body)
    ensures BlockMatcher(keepLang)(None, FenceForm(lang, body) + rest)
         == Some(Match(|FenceForm(lang, body)|, CodeTag(keepLang, lang, Trim(body))))
  {
    BlockOf(lang, body, rest);
    BlockMatchIs(keepLang, None, FenceForm(lang, body) + rest, Block(lang, body, |FenceForm(lang, body)|));
  }

  /**
   * Text in which no fence starts is copied, the block after it becomes its
   * tag, and the rest is rewritten on its own: a block closes at its own
   * nearest fence and never swallows a later one.
   */
  lemma BlocksSplit(keepLang: bool, d: string, lang: string, body: string, rest: string)
    requires AllWord(lang) && NoFenceIn(body) && NoFenceIn(d)
    ensures CodeBlocks(d + FenceForm(lang, body) + rest, keepLang)
         == d + CodeTag(keepLang, lang, Trim(body)) + CodeBlocks(rest, keepLang)
  {
    var x := FenceForm(lang, body);
    BlockHere(keepLang, lang, body, rest);
    FenceFreeQuiet(keepLang, d, x + rest);
    BlocksIgnorePrev(keepLang);
    SplitAt(BlockMatcher(keepLang), d, x, rest, CodeTag(keepLang, lang, Trim(body)));
  }

  lemma FenceFreeQuiet(keepLang: bool, d: string, y: string)
    requires NoFenceIn(d)
    ensures Quiet(None, d, y, BlockMatcher(keepLang))
  {
    forall i | 0 <= i < |d| ensures !Consumes(BlockMatcher(keepLang)(PrevAt(None, d, i), d[i..] + y), d[i..] + y) {
      assert d[i..] + y == (d + y)[i..];
      NoFenceWithin(d, y, i);
    }
  }
}
