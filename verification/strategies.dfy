/**
 * The per-construct conversion rules: each one's `convert(text, format)`,
 * the `priority`, `name` and `runBefore` metadata some of them declare, and
 * the left fold that runs a list of rules over a text.
 */
module Strategies {
  import opened Wrappers
  import opened Dialect
  import Headers
  import Inline
  import Media
  import Code
  import Lists
  import StandardLists
  import Checklists
  import Quotes
  import Tables
  import HorizontalRules
  import LineBreaks
  import Dice
  import MonolithicConverter

  /**
   * One value per rule class, named after the class with the `Strategy`
   * suffix dropped. Where two classes share a name, or a class name does not
   * say which file it lives in, the folder is put in front:
   * `StandardImageConversion` and `WorldAnvilImageConversion` are the
   * `ImageConversionStrategy` classes of `standard/` and `worldanvil/`,
   * `StandardCodeConversion` is the `CodeConversionStrategy` of `standard/`,
   * and `WorldAnvilSuperscriptConversion` is the
   * `SuperscriptConversionStrategy` of `worldanvil/`. `UnderlineConversion`
   * is the `WorldAnvilUnderlineConversionStrategy` at the top of
   * `strategies/`, and `ListConversion` is the list rule the strategy
   * converter imports, which no file defines.
   */
  datatype Rule =
    | HeaderConversion
    | StandardHeaderConversion
    | EmphasisConversion
    | ImageConversion
    | StandardImageConversion
    | WorldAnvilImageConversion
    | LinkConversion
    | CodeConversion
    | StandardCodeConversion
    | ListConversion
    | WorldAnvilListConversion
    | StandardListConversion
    | ChecklistConversion
    | StandardChecklistConversion
    | WorldAnvilChecklistConversion
    | QuoteConversion
    | StrikethroughConversion
    | TableConversion
    | WorldAnvilHorizontalRuleConversion
    | StandardHorizontalRuleConversion
    | LineBreakConversion
    | WorldAnvilDiceConversion
    | SuperscriptConversion
    | WorldAnvilSuperscriptConversion
    | SubscriptConversion
    | WorldAnvilSubscriptConversion
    | UnderlineConversion
    | WorldAnvilUnderlineConversion

  /**
   * A rule instance: the class it belongs to and its `convert(text, format)`.
   * Rules whose `convert` takes no format ignore the one they are given.
   */
  datatype Strategy = Strategy(kind: Rule, convert: (string, Format) -> string)

  /**
   * One instance of each rule class. `ListConversionStrategy` stands for the
   * list rule the strategy converter imports, which the list rule file does
   * not define; it is given the list step of the monolithic converter.
   */
  const HeaderConversionStrategy: Strategy :=
    Strategy(HeaderConversion, (text: string, fmt: Format) => Headers.Headers(fmt, text))
  const StandardHeaderConversionStrategy: Strategy :=
    Strategy(StandardHeaderConversion, (text: string, fmt: Format) => Headers.Headers(BBCode, text))
  const EmphasisConversionStrategy: Strategy :=
    Strategy(EmphasisConversion, (text: string, fmt: Format) => Inline.Emphasis(text))
  const ImageConversionStrategy: Strategy :=
    Strategy(ImageConversion, (text: string, fmt: Format) => Media.Images(text, fmt))
  const StandardImageConversionStrategy: Strategy :=
    Strategy(StandardImageConversion, (text: string, fmt: Format) => Media.StandardImages(text))
  const WorldAnvilImageConversionStrategy: Strategy :=
    Strategy(WorldAnvilImageConversion, (text: string, fmt: Format) => Media.WorldAnvilImages(text))
  const LinkConversionStrategy: Strategy :=
    Strategy(LinkConversion, (text: string, fmt: Format) => Media.Links(text))
  const CodeConversionStrategy: Strategy :=
    Strategy(CodeConversion, (text: string, fmt: Format) => Code.Code(text, fmt))
  const StandardCodeConversionStrategy: Strategy :=
    Strategy(StandardCodeConversion, (text: string, fmt: Format) => Code.StandardCode(text))
  const ListConversionStrategy: Strategy :=
    Strategy(ListConversion, (text: string, fmt: Format) => MonolithicConverter.ListStep(fmt, text))
  const WorldAnvilListConversionStrategy: Strategy :=
    Strategy(WorldAnvilListConversion, (text: string, fmt: Format) => Lists.WorldAnvilLists(text))
  const StandardListConversionStrategy: Strategy :=
    Strategy(StandardListConversion, (text: string, fmt: Format) => StandardLists.Traditional(text))
  const ChecklistConversionStrategy: Strategy :=
    Strategy(ChecklistConversion, (text: string, fmt: Format) => Checklists.Checklists(text, Some(fmt)))
  const StandardChecklistConversionStrategy: Strategy :=
    Strategy(StandardChecklistConversion, (text: string, fmt: Format) => Checklists.StandardChecklists(text))
  const WorldAnvilChecklistConversionStrategy: Strategy :=
    Strategy(WorldAnvilChecklistConversion, (text: string, fmt: Format) => Checklists.WorldAnvilChecklists(text, fmt))
  const QuoteConversionStrategy: Strategy :=
    Strategy(QuoteConversion, (text: string, fmt: Format) => Quotes.Quotes(text))
  const StrikethroughConversionStrategy: Strategy :=
    Strategy(StrikethroughConversion, (text: string, fmt: Format) => Inline.Strikethrough(text))
  const TableConversionStrategy: Strategy :=
    Strategy(TableConversion, (text: string, fmt: Format) => Tables.Tables(text))
  const WorldAnvilHorizontalRuleConversionStrategy: Strategy :=
    Strategy(WorldAnvilHorizontalRuleConversion, (text: string, fmt: Format) => HorizontalRules.HorizontalRules(text))
  const StandardHorizontalRuleConversionStrategy: Strategy :=
    Strategy(StandardHorizontalRuleConversion, (text: string, fmt: Format) => text)
  const LineBreakConversionStrategy: Strategy :=
    Strategy(LineBreakConversion, (text: string, fmt: Format) => LineBreaks.LineBreaks(text))
  const WorldAnvilDiceConversionStrategy: Strategy :=
    Strategy(WorldAnvilDiceConversion, (text: string, fmt: Format) => Dice.Dice(text, fmt))
  const SuperscriptConversionStrategy: Strategy :=
    Strategy(SuperscriptConversion, (text: string, fmt: Format) => Inline.Superscript(text, Some(fmt)))
  const WorldAnvilSuperscriptConversionStrategy: Strategy :=
    Strategy(WorldAnvilSuperscriptConversion, (text: string, fmt: Format) => Inline.SupTags(text))
  const SubscriptConversionStrategy: Strategy :=
    Strategy(SubscriptConversion, (text: string, fmt: Format) => Inline.Subscript(text, fmt))
  const WorldAnvilSubscriptConversionStrategy: Strategy :=
    Strategy(WorldAnvilSubscriptConversion, (text: string, fmt: Format) => Inline.SubTags(text))
  const UnderlineConversionStrategy: Strategy :=
    Strategy(UnderlineConversion, (text: string, fmt: Format) => Inline.InsTags(text))
  const WorldAnvilUnderlineConversionStrategy: Strategy :=
    Strategy(WorldAnvilUnderlineConversion, (text: string, fmt: Format) => Inline.InsTags(text))

  /** Every rule class, one instance each. */
  const AllStrategies: seq<Strategy> := [
    HeaderConversionStrategy,
    StandardHeaderConversionStrategy,
    EmphasisConversionStrategy,
    ImageConversionStrategy,
    StandardImageConversionStrategy,
    WorldAnvilImageConversionStrategy,
    LinkConversionStrategy,
    CodeConversionStrategy,
    StandardCodeConversionStrategy,
    ListConversionStrategy,
    WorldAnvilListConversionStrategy,
    StandardListConversionStrategy,
    ChecklistConversionStrategy,
    StandardChecklistConversionStrategy,
    WorldAnvilChecklistConversionStrategy,
    QuoteConversionStrategy,
    StrikethroughConversionStrategy,
    TableConversionStrategy,
    WorldAnvilHorizontalRuleConversionStrategy,
    StandardHorizontalRuleConversionStrategy,
    LineBreakConversionStrategy,
    WorldAnvilDiceConversionStrategy,
    SuperscriptConversionStrategy,
    WorldAnvilSuperscriptConversionStrategy,
    SubscriptConversionStrategy,
    WorldAnvilSubscriptConversionStrategy,
    UnderlineConversionStrategy,
    WorldAnvilUnderlineConversionStrategy
  ]

  /** The rules whose output depends on the format they are given. */
  predicate ReadsFormat(rule: Rule) {
    rule in {HeaderConversion, ImageConversion, CodeConversion, ListConversion, ChecklistConversion,
             WorldAnvilDiceConversion, SuperscriptConversion, SubscriptConversion}
  }

  /** The `priority` field, where the rule declares one. */
  function Priority(rule: Rule): Option<int> {
    match rule
    case HeaderConversion => Some(1)
    case EmphasisConversion => Some(2)
    case QuoteConversion => Some(7)
    case _ => None
  }

  /** The `name` field, where the rule declares one. */
  function Name(rule: Rule): Option<string> {
    match rule
    case HeaderConversion => Some("HeaderConversion")
    case EmphasisConversion => Some("EmphasisConversion")
    case ImageConversion => Some("ImageConversion")
    case QuoteConversion => Some("QuoteConversion")
    case StandardListConversion => Some("StandardListConversion")
    case _ => None
  }

  /** The `runBefore` field: the rules this one must run before. */
  function RunBefore(rule: Rule): seq<Rule> {
    match rule
    case ChecklistConversion => [StandardListConversion, WorldAnvilListConversion]
    case StandardChecklistConversion => [StandardListConversion]
    case WorldAnvilChecklistConversion => [WorldAnvilListConversion]
    case WorldAnvilHorizontalRuleConversion => [EmphasisConversion]
    case StandardHorizontalRuleConversion => [EmphasisConversion]
    case _ => []
  }

  /** The rules the strategy converter lists, in the order it lists them. */
  const DefaultStrategies: seq<Strategy> := [
    HeaderConversionStrategy, EmphasisConversionStrategy, ImageConversionStrategy, LinkConversionStrategy,
    CodeConversionStrategy, ListConversionStrategy, QuoteConversionStrategy, StrikethroughConversionStrategy
  ]

  /** `strategies.reduce((text, strategy) => strategy.convert(text, format), text)`. */
  function Pipeline(strategies: seq<Strategy>, text: string, fmt: Format): string
    decreases |strategies|
  {
    if strategies == [] then text
    else
      var last := strategies[|strategies| - 1];
      last.convert(Pipeline(strategies[..|strategies| - 1], text, fmt), fmt)
  }

  // ----- Properties -----

  /** Running two lists of rules one after the other is running their concatenation. */
  lemma {:induction false} PipelineAppend(a: seq<Strategy>, b: seq<Strategy>, text: string, fmt: Format)
    ensures Pipeline(a + b, text, fmt) == Pipeline(b, Pipeline(a, text, fmt), fmt)
    decreases |b|
  {
    if b == [] {
      assert a + b == a;
    } else {
      var c := b[..|b| - 1];
      assert (a + b)[..|a + b| - 1] == a + c;
      assert (a + b)[|a + b| - 1] == b[|b| - 1];
      PipelineAppend(a, c, text, fmt);
    }
  }

  /** The rules that do not read the format give the same output for both dialects. */
  lemma FormatBlind(i: nat, text: string)
    requires i < |AllStrategies| && !ReadsFormat(AllStrategies[i].kind)
    ensures AllStrategies[i].convert(text, BBCode) == AllStrategies[i].convert(text, WorldAnvil)
  {
  }

  /** The standard copies behave as the dual-dialect rules do for bbcode, whatever format they are given. */
  lemma StandardCopies(text: string, fmt: Format)
    ensures StandardHeaderConversionStrategy.convert(text, fmt) == HeaderConversionStrategy.convert(text, BBCode)
    ensures StandardImageConversionStrategy.convert(text, fmt) == ImageConversionStrategy.convert(text, BBCode)
    ensures StandardCodeConversionStrategy.convert(text, fmt) == CodeConversionStrategy.convert(text, BBCode)
    ensures StandardChecklistConversionStrategy.convert(text, fmt) == ChecklistConversionStrategy.convert(text, BBCode)
    ensures StandardListConversionStrategy.convert(text, fmt) == ListConversionStrategy.convert(text, BBCode)
  {
  }

  /** The World Anvil copies behave as the dual-dialect rules do for worldanvil, whatever format they are given. */
  lemma WorldAnvilCopies(text: string, fmt: Format)
    ensures WorldAnvilImageConversionStrategy.convert(text, fmt) == ImageConversionStrategy.convert(text, WorldAnvil)
    ensures WorldAnvilChecklistConversionStrategy.convert(text, fmt)
         == ChecklistConversionStrategy.convert(text, WorldAnvil)
    ensures WorldAnvilSuperscriptConversionStrategy.convert(text, fmt)
         == SuperscriptConversionStrategy.convert(text, WorldAnvil)
    ensures WorldAnvilSubscriptConversionStrategy.convert(text, fmt)
         == SubscriptConversionStrategy.convert(text, WorldAnvil)
    ensures WorldAnvilListConversionStrategy.convert(text, fmt) == ListConversionStrategy.convert(text, WorldAnvil)
  {
  }

  /** How far down a dependency order a rule may go: rules that must run before others come first. */
  function Rank(rule: Rule): (n: nat)
    ensures n <= 1
  {
    if RunBefore(rule) == [] then 1 else 0
  }

  /** The `runBefore` declarations have no cycle: every declared successor ranks strictly later. */
  lemma RunBeforeAcyclic(rule: Rule, later: Rule)
    requires later in RunBefore(rule)
    ensures Rank(rule) < Rank(later)
  {
  }

  /**
   * The priorities the listed rules declare already increase along the list,
   * so where the sort's comparator is defined it keeps the listed order.
   */
  lemma PrioritiesFollowOrder(i: nat, j: nat)
    requires i < j < |DefaultStrategies|
    requires Priority(DefaultStrategies[i].kind).Some? && Priority(DefaultStrategies[j].kind).Some?
    ensures Priority(DefaultStrategies[i].kind).value < Priority(DefaultStrategies[j].kind).value
  {
  }

  /** Eight rules run in a row are their conversions composed. */
  lemma {:induction false} PipelineOfEight(a: Strategy, b: Strategy, c: Strategy, d: Strategy,
                                           e: Strategy, f: Strategy, g: Strategy, h: Strategy,
                                           text: string, fmt: Format)
    ensures Pipeline([a, b, c, d, e, f, g, h], text, fmt)
         == h.convert(g.convert(f.convert(e.convert(d.convert(c.convert(b.convert(
              a.convert(text, fmt), fmt), fmt), fmt), fmt), fmt), fmt), fmt)
  {
    var r := [a, b, c, d, e, f, g, h];
    assert Pipeline(r[..1], text, fmt) == r[0].convert(text, fmt) by {
      assert r[..1][..0] == [];
    }
    assert Pipeline(r[..2], text, fmt) == r[1].convert(Pipeline(r[..1], text, fmt), fmt) by {
      assert r[..2][..1] == r[..1];
    }
    assert Pipeline(r[..3], text, fmt) == r[2].convert(Pipeline(r[..2], text, fmt), fmt) by {
      assert r[..3][..2] == r[..2];
    }
    assert Pipeline(r[..4], text, fmt) == r[3].convert(Pipeline(r[..3], text, fmt), fmt) by {
      assert r[..4][..3] == r[..3];
    }
    assert Pipeline(r[..5], text, fmt) == r[4].convert(Pipeline(r[..4], text, fmt), fmt) by {
      assert r[..5][..4] == r[..4];
    }
    assert Pipeline(r[..6], text, fmt) == r[5].convert(Pipeline(r[..5], text, fmt), fmt) by {
      assert r[..6][..5] == r[..5];
    }
    assert Pipeline(r[..7], text, fmt) == r[6].convert(Pipeline(r[..6], text, fmt), fmt) by {
      assert r[..7][..6] == r[..6];
    }
    assert Pipeline(r, text, fmt) == r[7].convert(Pipeline(r[..7], text, fmt), fmt) by {
      assert r[..7] == r[..|r| - 1];
    }
  }

  /** The listed rules, run in order, are the eight steps of the monolithic converter. */
  lemma DefaultIsSteps(text: string, fmt: Format)
    ensures Pipeline(DefaultStrategies, text, fmt) == MonolithicConverter.Steps(fmt, text)
  {
    PipelineOfEight(HeaderConversionStrategy, EmphasisConversionStrategy, ImageConversionStrategy,
                    LinkConversionStrategy, CodeConversionStrategy, ListConversionStrategy,
                    QuoteConversionStrategy, StrikethroughConversionStrategy, text, fmt);
  }
}
