# wabbc in Dafny: Markdown to BBCode, generic and World Anvil

This project models the core of wabbc, a converter from GitHub-flavoured
Markdown to two BBCode dialects: generic `bbcode` and the `worldanvil`
dialect. It also proves properties of that model.

Most rewrites the converter performs are a global regular-expression
`replace` over the text. The exceptions are loops over lines or cells: the
World Anvil ordered-list grouping (src/converter.ts:181-224 and
src/strategies/list-strategy.ts:27-69, modelled as loops in `Lists`), the
World Anvil horizontal rule's split, map and join
(src/strategies/worldanvil/horizontal-rule-strategy.ts:20-33, modelled in
`HorizontalRules`). The table rewrite is a `replace` whose callback builds
each table with `for` loops (src/strategies/table-strategy.ts:18-48,
modelled as loops in `Tables`). For the `replace` calls, the model does not use a regular-expression
engine. It writes one matcher per pattern instead (module `Scanner`). A
matcher tries the pattern at the start of the remaining text, given the
character just before it. `Scanner.ReplaceAll` is JavaScript's global
`replace`: it scans left to right, emits the replacement where the pattern
matches, resumes after the match, and otherwise copies the character.

The modules follow the program's structure.

- `Dialect`: the two formats, the two errors (a bad format, empty input), and how the `format` option is read.
- `Text`: character classes, `trim`, `split`/`join` and the small string facts everything else uses.
- `Scanner`, `LineSpans`, `Items`: the global replace, the shared non-greedy one-line span `OPEN(.*?)CLOSE`, and the shared line-item pattern `^(\s*)MARKER\s+(.+)$`.
- One module per construct: `Headers`, `Inline` (emphasis, strikethrough, `<sup>`, `<sub>`, `<ins>`), `Media` (images, links, autolinks), `Code`, `Lists` (World Anvil lists), `StandardLists` (`[list]`/`[*]`), `Checklists`, `Quotes`, `Tables`, `HorizontalRules`, `LineBreaks`, `Dice`.
- `MonolithicConverter`: the class in src/converter.ts.
- `IndexConverter`: the typed entry point src/index.ts.
- `IndexScript`: the untyped entry point src/index.js.
- `Strategies`: the per-construct rule classes under src/strategies/ and their metadata.
- `StrategyConverter`: the strategy-pattern class in src/converter-new.ts.

Loops in the source are methods with loop invariants, proved against a
function that specifies them:
- the header passes from level 6 down to 1;
- the World Anvil ordered-list grouping loop;
- the table callback's `+=` loops;
- the strategy fold.

Classes whose format is fixed at construction are Dafny classes.

Character classes are ASCII:
- whitespace (`\s`, `trim`) is space, tab, line feed, carriage return, vertical tab and form feed;
- the line terminators that `.` refuses and `$` stops before are line feed and carriage return.

## Model

| member | source | states |
|---|---|---|
| Dialect.ParseFormat | src/converter.ts:24-32 | An absent format means `bbcode`. Exactly `bbcode` and `worldanvil` are accepted, and the accepted format's name is the given name. Anything else is the format error. |
| MonolithicConverter.Converted | src/converter.ts:40-72 | `convert` fails exactly on empty input, and then with the input error. Otherwise it returns the eight steps' result trimmed, which has no whitespace at either end. |
| MonolithicConverter.Converter.constructor | src/converter.ts:24-32 | The converter keeps the format it was given. |
| MonolithicConverter.Converter.Convert | src/converter.ts:40-72 | Reassigning `result` through headers, emphasis, images, links, code, lists (World Anvil lists only for worldanvil), quotes and strikethrough, then trimming, gives `Converted`. |
| MonolithicConverter.New | src/converter.ts:24-32 | Construction fails exactly when the format option is rejected, with the format error. Otherwise the new converter holds the parsed format. |
| Headers.ConvertHeaders | src/converter.ts:77-91 | The loop from level 6 down to 1, one global pass per level, computes the header rewrite. |
| Headers.LevelTags | src/strategies/header-strategy.ts:12-21 | Levels 1 to 6 get `[size=28]` … `[size=14]` with `[b]` in bbcode, and `[h1]` … `[h6]` in worldanvil. |
| Headers.HeaderLineOf | src/strategies/header-strategy.ts:12-21 | A line of exactly `level` hashes, whitespace and text becomes that level's tag around the text, in either dialect. |
| Headers.TooManyHashes | src/strategies/header-strategy.ts:13 | A line opening with seven or more hashes is left unchanged. |
| Headers.HeadersByLine | src/strategies/standard/header-strategy.ts:16-22 | In a text of lines the header rewrite converts each line on its own. |
| Headers.HeadersOneLine | src/strategies/header-strategy.ts:10-24 | On a line of its own, the six passes give that line's own level tag around its text, or the line unchanged when it is no header. |
| Headers.HeaderAtStart | src/strategies/header-strategy.ts:13 | A level's pattern matches only at a line start, and only when the line has exactly that many hashes. It then takes the whole line. |
| Headers.Hashes | src/strategies/header-strategy.ts:13 | Counts exactly the leading `#` run. |
| Inline.EmphasisBold | src/strategies/emphasis-strategy.ts:12 | `**x**` becomes `[b]x[/b]`. |
| Inline.EmphasisBoldUnderscore | src/strategies/emphasis-strategy.ts:13 | `__x__` becomes `[b]x[/b]`. |
| Inline.EmphasisItalic | src/strategies/emphasis-strategy.ts:16 | `*x*` becomes `[i]x[/i]`, after the bold passes have left it alone. |
| Inline.EmphasisItalicUnderscore | src/strategies/emphasis-strategy.ts:17 | `_x_` becomes `[i]x[/i]`. |
| Inline.DoubledQuiet | src/strategies/emphasis-strategy.ts:12-13 | A bold pass leaves a span delimited by a single `*` or `_` untouched. |
| Inline.DoubledQuietThen | src/strategies/emphasis-strategy.ts:12-13 | That single-delimiter span is copied and the bold pass carries on with the text after it. |
| Inline.EmphasisAfterPlain | src/strategies/emphasis-strategy.ts:10-19 | Text free of `*` and `_` before the rest is copied, and the rest is converted on its own. |
| Inline.EmphasisBoldThen | src/strategies/emphasis-strategy.ts:12 | `**x**` followed by more text becomes `[b]x[/b]`, then the conversion of that text. |
| Inline.EmphasisBoldUnderscoreThen | src/strategies/emphasis-strategy.ts:13 | `__x__` followed by more text becomes `[b]x[/b]`, then the conversion of that text. |
| Inline.EmphasisItalicThen | src/strategies/emphasis-strategy.ts:16 | `*x*` followed by text not opening with `*` becomes `[i]x[/i]`, then the conversion of that text. |
| Inline.EmphasisItalicUnderscoreThen | src/strategies/emphasis-strategy.ts:17 | `_x_` followed by text not opening with `*` or `_` becomes `[i]x[/i]`, then the conversion of that text. |
| Inline.EmphasisMixed | src/strategies/emphasis-strategy.ts:12-17 | `**a** and *b*` on one line becomes `[b]a[/b] and [i]b[/i]`: bold and italic spans on one line convert separately. |
| Inline.EmphasisLines | src/strategies/emphasis-strategy.ts:12-17 | Emphasis splits over a line terminator: no span crosses a line. |
| Inline.EmphasisPlain | src/strategies/emphasis-strategy.ts:10-19 | Text with no `*` and no `_` is unchanged. |
| Inline.StrikethroughOf | src/strategies/strikethrough-strategy.ts:9 | `~~x~~` becomes `[s]x[/s]`. |
| Inline.StrikethroughTwice | src/strategies/strikethrough-strategy.ts:9 | Two segments on one line convert separately: the span is non-greedy. |
| Inline.StrikethroughLines | src/strategies/strikethrough-strategy.ts:9 | Strikethrough splits over a line terminator. |
| Inline.StrikethroughUnpaired | src/strategies/strikethrough-strategy.ts:9 | An unpaired `~~` is unchanged. |
| Inline.SuperscriptOf | src/strategies/superscript-strategy.ts:8-15 | For worldanvil `<sup>x</sup>` becomes `[sup]x[/sup]`. For bbcode, and when no format is given, it is unchanged. |
| Inline.SubscriptOf | src/strategies/subscript-strategy.ts:8-15 | For worldanvil `<sub>x</sub>` becomes `[sub]x[/sub]`. For bbcode it is unchanged. |
| Inline.UnderlineOf | src/strategies/underline-strategy.ts:7-11 | `<ins>x</ins>` becomes `[u]x[/u]`. |
| Inline.TagsCaseSensitive | src/strategies/worldanvil/superscript-strategy.ts:9 | `<SUP>`, `<SUB>` and `<INS>` do not match. |
| LineSpans.SpanAt | src/strategies/emphasis-strategy.ts:12 | The lazy `(.*?)` closes at the first place the closing delimiter follows without a line terminator in between, or nowhere. |
| LineSpans.SpanOf | src/strategies/worldanvil/underline-strategy.ts:9 | A span is replaced by its tags around the copied content, and the scan resumes after it. |
| LineSpans.SpansLines | src/strategies/worldanvil/subscript-strategy.ts:9 | Every span rewrite splits over a line terminator. |
| LineSpans.SpanBeforeBreak | src/strategies/emphasis-strategy.ts:12-17 | Whatever follows a line terminator does not change where a span closes. |
| LineSpans.SpanLineLocal | src/strategies/strikethrough-strategy.ts:9 | A span match never reaches past the end of its line. |
| LineSpans.SpansUnchanged | src/strategies/worldanvil/subscript-strategy.ts:9 | A text without the opening delimiter's first character is unchanged. |
| LineSpans.SpansAfterPlain | src/strategies/strikethrough-strategy.ts:9 | Text without the opening delimiter's first character is copied, and the rest is converted on its own. |
| LineSpans.SpansAfterSpan | src/strategies/emphasis-strategy.ts:12 | A span followed by more text becomes its tags around the content, then the conversion of that text. |
| Media.ImageOf | src/strategies/image-strategy.ts:9-18 | `![alt](url)` becomes the dialect's image tag (`[img]url[/img]` or `[img:alt]url[/img]`), and the scan resumes after it. |
| Media.ImagesSplit | src/strategies/image-strategy.ts:12-14 | Text free of `!` before an image is copied, the image is converted and the rest converted on its own. |
| Media.ImagesUnchanged | src/strategies/worldanvil/image-strategy.ts:9 | Text without `!` is unchanged. |
| Media.ImageNeedsBang | src/strategies/standard/image-strategy.ts:9 | `[t](u)` without `!` is not an image. |
| Media.NoEmptyUrl | src/strategies/image-strategy.ts:12 | An empty url is not matched. |
| Media.LinkOf | src/strategies/link-strategy.ts:9 | `[t](u)` not preceded by `!`, with non-empty text, becomes `[url=u]t[/url]`. |
| Media.LinkSkipsImage | src/strategies/link-strategy.ts:9 | After a `!` the `[` does not start a link. The scan moves on inside. |
| Media.NoEmptyLinkText | src/strategies/link-strategy.ts:9 | `[](u)` is not a link. |
| Media.AutoLinkOf | src/strategies/link-strategy.ts:12 | `<http://…>` and `<https://…>` become `[url]…[/url]`. |
| Media.AutoLinkScheme | src/strategies/link-strategy.ts:12 | No other scheme is an autolink. |
| Media.SchemeLen | src/strategies/link-strategy.ts:12 | Recognises exactly the two schemes. |
| Media.ImageBeforeLink | src/converter.ts:53-57 | The link pass never opens a link at the `[` of `![alt](url)`. The `![` is copied. |
| Code.BlockOf | src/strategies/code-strategy.ts:9 | A fence with a word language and a body in which no fence starts (no ` ``` ` inside, no backtick at its end) is matched with exactly that language and body: the lazy body stops at the fence written after it. |
| Code.BlockOnlyIfNoFence | src/strategies/code-strategy.ts:9 | Conversely, a fence matched with exactly its body has no fence starting inside that body. |
| Code.FenceThenInline | src/strategies/code-strategy.ts:8-19 | A fenced block in which no fence starts becomes `[code:lang]` only for worldanvil with a language, otherwise `[code]`, around the trimmed body; the inline pass then runs over that tag. |
| Code.FenceNotInline | src/strategies/code-strategy.ts:8-19 | When the body holds no backtick, the inline pass leaves that tag as it is: the result is the tag. |
| Code.InlineInsideBlock | src/strategies/code-strategy.ts:9-19 | Inline code inside a block is converted inside the block's tag: a block holding `` `c` `` becomes `[code][code]c[/code][/code]`. |
| Code.TagWithoutTicks | src/strategies/code-strategy.ts:11-15 | A tag built around backtick-free code with a word language holds no backtick. |
| Code.EmptyBlock | src/strategies/code-strategy.ts:9-16 | An empty block gives `[code][/code]`. |
| Code.BlocksSplit | src/strategies/standard/code-strategy.ts:9-12 | Text in which no fence starts is copied, a block after it closes at its own nearest fence, and the rest is converted on its own. |
| Code.InlineAt | src/strategies/code-strategy.ts:19 | `` `x` `` with non-empty, backtick-free x becomes `[code]x[/code]`. |
| Code.InlineSplit | src/strategies/code-strategy.ts:19 | Inline code converts once per segment. |
| Code.NoEmptyInline | src/strategies/code-strategy.ts:19 | ` `` ` does not open inline code. |
| Code.InlineUnchanged | src/strategies/code-strategy.ts:19 | Text without backticks is unchanged by the inline pass. |
| Lists.EmitLine | src/strategies/list-strategy.ts:35-60 | One loop iteration pushes the lines `Emit` specifies and moves to the next open/indent state. A closed list has an empty indent. |
| Lists.GroupOrdered | src/strategies/list-strategy.ts:27-69 | The line loop with the open flag and current indent produces the grouped lines `OlGroups`. |
| Lists.ConvertOrderedLists | src/converter.ts:181-224 | The ordered-list loop gives the grouped lines of the numbered items: the same grouping as the strategy's loop. |
| Lists.ConvertWorldAnvilLists | src/converter.ts:168-176 | Ordered grouping first, then the dash rewrite. |
| Lists.GroupsAreBlocks | src/strategies/list-strategy.ts:34-66 | The output is each maximal run of equal-indent ordered items as `[ol]`, one `  [li]…[/li]` per item and `[/ol]`, with other lines copied in order. |
| Lists.BlocksCover | src/strategies/list-strategy.ts:34-61 | The blocks are exactly the input lines in order. |
| Lists.BlocksWellFormed | src/strategies/list-strategy.ts:41-49 | Every block holds items of one indent. Two adjacent item blocks differ in indent, so an indent change opens a new list. |
| Lists.OpenRun | src/strategies/list-strategy.ts:41-66 | An open list absorbs the following run at its indent, then closes. |
| Lists.OlBalanced | src/strategies/list-strategy.ts:64-66 | `[ol]` and `[/ol]` are each added once per item block, so they stay balanced. |
| Lists.TagsCounted | src/strategies/list-strategy.ts:44-66 | The tag counts of the output are those of the input plus the number of item blocks. |
| Lists.MadeLinesKept | src/strategies/list-strategy.ts:15-19 | `[ol]`, `[/ol]` and `  [li]…[/li]` lines are left alone by the dash rewrite. |
| Lists.WorldAnvilListsByLine | src/strategies/list-strategy.ts:14-22 | World Anvil lists are the ordered grouping, then the dash rewrite of each resulting line. |
| Lists.DashLevel | src/strategies/list-strategy.ts:74-82 | An unordered item indented by k spaces gets ⌊k/2⌋+1 dashes. |
| Lists.BlankLineSwallowed | src/strategies/list-strategy.ts:76 | `\s*` reaches back across a blank line, which the item then absorbs. |
| Lists.RunLen | src/strategies/list-strategy.ts:41 | The run at one indent is maximal. |
| Items.ItemsByLine | src/strategies/standard/list-strategy.ts:18-21 | A line-item pass rewrites each line on its own. |
| Items.BulletLine | src/strategies/standard/list-strategy.ts:18 | An indent, a bullet, whitespace and text is an item whose indent and text are captured. |
| Items.OrderedItem | src/strategies/list-strategy.ts:36 | A numbered line yields an indent of whitespace and non-empty one-line content. |
| StandardLists.StarOfBullet | src/strategies/standard/list-strategy.ts:18 | A bullet item becomes `indent[*] text`, and the numbered pass leaves it alone. |
| StandardLists.StarOfNumber | src/strategies/standard/list-strategy.ts:21 | A numbered item becomes `indent[*] text`. |
| StandardLists.StarShape | src/strategies/standard/list-strategy.ts:18-21 | An `indent[*] text` line is matched by neither item pass again. |
| StandardLists.WrapWhole | src/strategies/standard/list-strategy.ts:24-26 | A run of `[*]` lines is wrapped as one block. |
| StandardLists.WrapLeavesPlain | src/strategies/standard/list-strategy.ts:24 | Text without `[` is not wrapped. |
| StandardLists.TraditionalBlock | src/strategies/standard/list-strategy.ts:16-29 | A run of item lines becomes `[*]` lines with their indent kept, wrapped in `[list]\n…\n[/list]\n`. |
| StandardLists.TraditionalFlat | src/strategies/standard/list-strategy.ts:24-26 | For an unindented first item the wrapped block is exactly `[list]\n` + items + `\n[/list]\n`. |
| StandardLists.StarRunStops | src/strategies/standard/list-strategy.ts:24 | The repeated item group takes every `[*]` line and the line feed after the last one, and stops before a line that opens no item. |
| StandardLists.WrapAfterLine | src/strategies/standard/list-strategy.ts:24-26 | After a line of text, the `\n` alternative wraps the following `[*]` lines, keeps the line feed before them, and the text after the list is converted on its own. |
| StandardLists.WrapLastAfterLine | src/strategies/standard/list-strategy.ts:24-26 | A list that ends the text after a line of text is wrapped, and the line before it is kept. |
| StandardLists.TraditionalAfterLine | src/strategies/standard/list-strategy.ts:16-29 | A paragraph line, then list lines, then other lines: the paragraph is kept, the list becomes one `[list]` block, and the lines after it are converted on their own. |
| Checklists.ConvertsEmptyBox | src/strategies/checklist-strategy.ts:33-54 | `[ ]`, `[]` or a box of whitespace after a bullet becomes `indent- [ ] text` (bbcode) or `indent- [] text` (worldanvil). |
| Checklists.ConvertsTickedBox | src/strategies/checklist-strategy.ts:38-51 | `[x]`/`[X]` becomes `indent- [X] text` (bbcode) or `indent- [c] text` (worldanvil). |
| Checklists.KeepsOtherBox | src/strategies/checklist-strategy.ts:35-51 | Any other box is left unchanged. |
| Checklists.ChecklistsByLine | src/strategies/standard/checklist-strategy.ts:24-32 | Both passes act line by line. |
| Checklists.ChecklistsIdempotent | src/strategies/checklist-strategy.ts:22-54 | Running the rule on its own output changes nothing. |
| Checklists.CheckLineStable | src/strategies/worldanvil/checklist-strategy.ts:24-32 | A converted line either re-matches to itself or matches neither pattern. |
| Checklists.CheckedOut | src/strategies/worldanvil/checklist-strategy.ts:29 | `- [c] text` is matched by neither pass. `- [X] text` is matched by the ticked pass only. |
| Checklists.UncheckedOut | src/strategies/worldanvil/checklist-strategy.ts:26 | A converted empty box is matched by the empty-box pass to itself and not by the ticked pass. |
| Checklists.TickInner | src/strategies/checklist-strategy.ts:38-51 | The ticked mark is `x`/`X` exactly for bbcode. |
| Quotes.QuoteLineOf | src/strategies/quote-strategy.ts:12 | `>`, optional whitespace and text becomes `[quote]text[/quote]`. |
| Quotes.QuoteAtStart | src/strategies/quote-strategy.ts:12 | The quote pattern matches only at a line start and takes the whole line. |
| Quotes.QuotesByLine | src/strategies/quote-strategy.ts:12 | The per-line pass converts each line on its own. |
| Quotes.MergeQuoted | src/strategies/quote-strategy.ts:15 | Adjacent quoted lines merge into one block joined by line feeds. |
| Quotes.MergeBlock | src/strategies/quote-strategy.ts:15 | The merge pass removes each `[/quote]\n[quote]` seam of a run of quoted lines, leaving one closing tag. |
| Quotes.QuoteBlock | src/strategies/quote-strategy.ts:10-17 | Consecutive `>` lines become a single `[quote]…[/quote]`. |
| Quotes.MergeApart | src/strategies/quote-strategy.ts:15 | Unless a line feed sits exactly at a `[/quote]\n[quote]` seam, the merge pass converts the text on either side of it separately. |
| Quotes.QuotesApart | src/strategies/quote-strategy.ts:10-17 | Two runs of lines convert separately unless the first ends in a quote and the second starts with one. |
| Quotes.QuotesKeptApart | src/strategies/quote-strategy.ts:10-17 | An unquoted line between two runs keeps their quotes apart: each run converts as if it stood alone. |
| Tables.ParseRow | src/strategies/table-strategy.ts:54-58 | The cell count is the number of inner pipes plus one. |
| Tables.CellsOfRow | src/strategies/table-strategy.ts:54-58 | For `|inner|` the cells are the trimmed pieces of `inner` split at every pipe. |
| Tables.CellsTrimmed | src/strategies/table-strategy.ts:57 | Every cell is trimmed. |
| Tables.BlankCell | src/strategies/table-strategy.ts:57 | A blank row is one empty cell. |
| Tables.AppendRow | src/strategies/table-strategy.ts:24-28 | The cell loop appends `[tr]\n`, one cell's markup per cell, then `[/tr]\n`. |
| Tables.AppendBody | src/strategies/table-strategy.ts:32-44 | The row loop appends each kept row's markup. |
| Tables.ConvertTable | src/strategies/table-strategy.ts:18-48 | The callback's `+=` loops build `[table]\n`, the `[th]` header row, a `[td]` row per kept body line and `[/table]\n`, which is `TableMarkup` of the captured header and body. |
| Tables.Skipped | src/strategies/table-strategy.ts:34 | A blank or pipe-less body line contributes nothing. |
| Tables.HeaderOf | src/strategies/table-strategy.ts:16 | `|header|` and a line feed are matched as the header row. |
| Tables.SeparatorOf | src/strategies/table-strategy.ts:16 | A separator row is matched up to its own line end. |
| Tables.TableAtOf | src/strategies/table-strategy.ts:16 | The pattern matches a well-formed table in full, and nothing after it. |
| Tables.TableConverts | src/strategies/table-strategy.ts:14-48 | A table at a line start becomes `[table]\n`, the `[th]` header row, one `[td]` row per body row and `[/table]\n`. The text after it is converted on its own. |
| Tables.BodyMarkup | src/strategies/table-strategy.ts:32-44 | Trimming and splitting the captured body gives one `[tr]` per body row. |
| Tables.TableShape | src/strategies/table-strategy.ts:16 | Any match opens with a pipe-delimited header row on one line. A row starting with a pipe follows on the next line, and the body starts at a line start. The match's markup is that of the header and body it spans. |
| Tables.NoTable | src/strategies/table-strategy.ts:16 | A text where no line starts with a pipe is unchanged. |
| HorizontalRules.RuleIff | src/strategies/worldanvil/horizontal-rule-strategy.ts:26 | Whitespace around a run of one marker (`-` or `*`) is a rule exactly when the run has 3 or more. |
| HorizontalRules.RuleShape | src/strategies/worldanvil/horizontal-rule-strategy.ts:26 | Every rule line has that shape. |
| HorizontalRules.RuleOrLine | src/strategies/worldanvil/horizontal-rule-strategy.ts:23-30 | A rule line becomes `[hr]`. Any other line is kept. |
| HorizontalRules.MapLines | src/strategies/worldanvil/horizontal-rule-strategy.ts:23-30 | The mapped lines are as many as the input lines, each a rule replaced by `[hr]` or the line itself. |
| HorizontalRules.LinesKept | src/strategies/worldanvil/horizontal-rule-strategy.ts:20-33 | The output's lines are the input's lines, each mapped. |
| HorizontalRules.LineCount | src/strategies/worldanvil/horizontal-rule-strategy.ts:22-32 | The number of lines is preserved. |
| HorizontalRules.EmptyText | src/strategies/worldanvil/horizontal-rule-strategy.ts:22-32 | The empty text maps to itself. |
| HorizontalRules.NearMisses | src/strategies/worldanvil/horizontal-rule-strategy.ts:26-29 | `--`, `-*-` and `text ---` are kept. |
| HorizontalRules.Idempotent | src/strategies/worldanvil/horizontal-rule-strategy.ts:20-33 | Converting twice equals converting once. |
| LineBreaks.BackslashBreak | src/strategies/worldanvil/line-break-strategy.ts:12 | A backslash before `\n` or `\r\n` becomes `[br]`. |
| LineBreaks.SpaceBreak | src/strategies/worldanvil/line-break-strategy.ts:15 | Two spaces before `\n` or `\r\n` become `[br]`. |
| LineBreaks.BreakOf | src/strategies/worldanvil/line-break-strategy.ts:12-15 | The break pattern takes its mark and the line ending together and gives `[br]`. |
| LineBreaks.Unchanged | src/strategies/worldanvil/line-break-strategy.ts:10-18 | A text whose line ends carry neither mark is unchanged. |
| Dice.Dice | src/strategies/worldanvil/dice-strategy.ts:8-15 | Any format but worldanvil returns the text unchanged. |
| Dice.DiceStep | src/strategies/worldanvil/dice-strategy.ts:23-25 | `NdM`, `NdM+K` and `NdM-K` followed by a word boundary become `[dice]…[/dice]`. |
| Dice.DiceSplit | src/strategies/worldanvil/dice-strategy.ts:20-26 | Text before the notation is copied and the rest converted on its own. |
| Dice.DiceShape | src/strategies/worldanvil/dice-strategy.ts:23 | Every match has a boundary on both sides and the `NdM[±K]` shape. |
| Dice.DiceOf | src/strategies/worldanvil/dice-strategy.ts:23 | The pattern takes exactly the whole `NdM[±K]` notation when a boundary precedes and follows it. |
| Dice.GluedUnchanged | src/strategies/worldanvil/dice-strategy.ts:23 | Dice text inside an identifier is not converted. |
| Dice.NoMatchAfterStart | src/strategies/worldanvil/dice-strategy.ts:23 | A text where no match starts at its beginning, and every later digit continues a word, is unchanged. |
| Dice.Incomplete | src/strategies/worldanvil/dice-strategy.ts:23 | `d6`, `3d`, `36` and `3da` are not converted. |
| Text.Trim | src/converter.ts:71 | The result has no whitespace at either end and is the input minus whitespace runs at its ends. |
| Text.TrimTwice | src/converter.ts:71 | Trimming a trimmed text changes nothing. |
| Text.JoinSplit | src/strategies/worldanvil/horizontal-rule-strategy.ts:22-32 | Joining the split of a text gives the text back. |
| Text.SplitJoin | src/strategies/list-strategy.ts:29-68 | Splitting a join of separator-free lines gives the lines back. |
| Text.SplitCount | src/strategies/table-strategy.ts:57 | A split has one piece more than the separator count. |
| Text.JoinAppend | src/strategies/worldanvil/horizontal-rule-strategy.ts:22-32 | Joining two non-empty lists of lines is joining each and putting the separator between. |
| Text.TrimAppendSpace | src/strategies/standard/list-strategy.ts:25 | Trailing whitespace does not change a trim. |
| Strategies.FormatBlind | src/strategies/link-strategy.ts:7 | Every rule that does not read its format gives the same output for both dialects. |
| Strategies.StandardCopies | src/strategies/standard/header-strategy.ts:6-9 | The standard header, image, code, checklist and list rules act as the dual-dialect rules do for bbcode, whatever format they get. |
| Strategies.WorldAnvilCopies | src/strategies/worldanvil/image-strategy.ts:6-9 | The World Anvil image, checklist, superscript, subscript and list rules act as the dual-dialect rules do for worldanvil, whatever format they get. |
| Strategies.RunBeforeAcyclic | src/strategies/checklist-strategy.ts:20 | Every rule named in a `runBefore` list declares no `runBefore` of its own, so it ranks strictly after the rule that names it. |
| Strategies.PrioritiesFollowOrder | src/strategies/header-strategy.ts:7 | The declared priorities increase along the converter's rule list. |
| Strategies.PipelineAppend | src/converter-new.ts:69-72 | Folding a concatenation of rule lists is folding one list after the other. |
| Strategies.PipelineOfEight | src/converter-new.ts:69-72 | Folding eight rules is their conversions composed in list order. |
| Strategies.DefaultIsSteps | src/converter-new.ts:45-54 | The listed rules, folded, are the monolithic converter's eight steps. |
| IndexConverter.Converted | src/index.ts:40-72 | Fails exactly on empty input, with the input error. Otherwise it gives the trimmed steps, whose list step is always `[list]`/`[*]`. |
| IndexConverter.ConvertedWith | src/index.ts:204-207 | The format error comes first, otherwise it is `convert` of the parsed format. |
| IndexConverter.Converter.constructor | src/index.ts:24-32 | The converter keeps the format it was given. |
| IndexConverter.Converter.Convert | src/index.ts:40-72 | The step-by-step reassignment gives `Converted`. |
| IndexConverter.Converter.ConvertHeaders | src/index.ts:77-91 | The header loop under the converter's format. |
| IndexConverter.Converter.ConvertEmphasis | src/index.ts:96-106 | Emphasis. The format is not consulted. |
| IndexConverter.Converter.ConvertImages | src/index.ts:124-133 | Images under the converter's format. |
| IndexConverter.Converter.ConvertLinks | src/index.ts:111-119 | Links and autolinks. |
| IndexConverter.Converter.ConvertCode | src/index.ts:138-152 | Code blocks under the converter's format, then inline code. |
| IndexConverter.Converter.ConvertLists | src/index.ts:157-170 | `[list]`/`[*]` lists for both formats. |
| IndexConverter.Converter.ConvertQuotes | src/index.ts:175-183 | Quotes, merged. |
| IndexConverter.Converter.ConvertStrikethrough | src/index.ts:188-193 | Strikethrough. |
| IndexConverter.New | src/index.ts:24-32 | Fails exactly when the format is rejected. Otherwise the converter holds the parsed format. |
| IndexConverter.ConvertMarkdownToBBCode | src/index.ts:204-207 | Equals `new Converter(options).convert(markdown)`, errors included. |
| IndexConverter.DeprecatedHeaders | src/index.ts:214-217 | The header step under the given format. |
| IndexConverter.DeprecatedEmphasis | src/index.ts:223-226 | The emphasis step. |
| IndexConverter.DeprecatedLinks | src/index.ts:232-235 | The link step. |
| IndexConverter.DeprecatedImages | src/index.ts:241-244 | The image step under the given format. |
| IndexConverter.DeprecatedCode | src/index.ts:250-253 | The code step under the given format. |
| IndexConverter.DeprecatedLists | src/index.ts:259-262 | The list step, `[list]`/`[*]` for either format. |
| IndexConverter.DeprecatedQuotes | src/index.ts:268-271 | The quote step. |
| IndexConverter.DeprecatedStrikethrough | src/index.ts:277-280 | The strikethrough step. |
| IndexConverter.AgreesForBBCode | src/index.ts:157-170 | For bbcode this converter and src/converter.ts agree on every input. |
| IndexConverter.StepsAreRules | src/index.ts:45-69 | The steps are the header, emphasis, image, link, code, standard list, quote and strikethrough rules folded in that order. |
| IndexScript.StepFormat | src/index.js:56-69 | A step function treats only `worldanvil` as World Anvil. This agrees with the format option wherever that is accepted. |
| IndexScript.ConvertedWith | src/index.js:13-50 | Empty input gives the input error, whatever the format. A non-empty input with a rejected format gives the format error. A success is trimmed. |
| IndexScript.ConvertMarkdownToBBCode | src/index.js:13-50 | The checks and step-by-step reassignment give `ConvertedWith`. |
| IndexScript.ConvertHeaders | src/index.js:56-69 | The header loop under the format string. |
| IndexScript.ConvertEmphasis | src/index.js:75-84 | Emphasis. The format is not consulted. |
| IndexScript.ConvertLinks | src/index.js:90-97 | Links and autolinks. |
| IndexScript.ConvertImages | src/index.js:103-111 | Images. The alt text is kept only for `worldanvil`. |
| IndexScript.ConvertCode | src/index.js:117-130 | Code. The language is kept only for `worldanvil`. |
| IndexScript.ConvertLists | src/index.js:136-148 | `[list]`/`[*]` lists for any format. |
| IndexScript.ConvertQuotes | src/index.js:154-161 | Quotes, merged. |
| IndexScript.ConvertStrikethrough | src/index.js:167-171 | Strikethrough. |
| IndexScript.ErrorOrder | src/index.js:16-22 | On empty input with a bad format the script reports the input and src/index.ts the format. On every other input the two agree. |
| StrategyConverter.Converted | src/converter-new.ts:63-75 | Fails exactly on empty input, with the input error. Otherwise it gives the trimmed fold of the rules. |
| StrategyConverter.Converter.constructor | src/converter-new.ts:35-55 | The converter keeps the format and a fresh array holding the listed rules in order. |
| StrategyConverter.Converter.Convert | src/converter-new.ts:63-75 | The loop over the rule array gives `Converted`. With the listed rules this equals src/converter.ts's `convert`. |
| StrategyConverter.Converter.GetStrategies | src/converter-new.ts:80-82 | A fresh array with the same rules, so changing it leaves the converter's own list alone. |
| StrategyConverter.New | src/converter-new.ts:35-42 | Fails exactly when the format is rejected. Otherwise the converter holds the parsed format and the listed rules. |
| StrategyConverter.DefaultConverts | src/converter-new.ts:45-75 | The strategy converter and the monolithic converter agree on every input and format. |

## Left out

- StandardLists.TraditionalAfterLine: stated for lines that are neither blank nor end in a bare marker. A blank line next to an item is reached by the item pattern's leading `\s*`; `StandardLists.WrapAfterLine` covers the wrapping pass alone without that condition on the text after the list.
- Unicode: `\s`, `.` and `trim` are modelled on ASCII whitespace. Line feed and carriage return are the only line terminators; U+2028 and U+2029 are not.
- Runtime type checks (`typeof markdown !== 'string'`, a non-string passed as any) have no counterpart: inputs are typed, and only the empty-string rejection is modelled. Errors are `Result` values, not exceptions.
- StrategyConverter.Converter.constructor: the `.sort((a, b) => a.priority - b.priority)` call is modelled as keeping the listed order. Most rules declare no `priority`, so the comparator returns NaN, and the engine's sort is then implementation-defined. The priorities that are declared already increase along the list (`Strategies.PrioritiesFollowOrder`).
- src/converter-new.ts:12 imports `ListConversionStrategy`, which src/strategies/list-strategy.ts does not export, so the file does not type-check. Compiled without type checks, `new ListConversionStrategy()` in the constructor throws a `TypeError`, and no converter of that file can be built. The `StrategyConverter.*` members and `StrategyConverter.DefaultConverts` describe the converter repaired at that one slot, which is modelled as src/converter.ts's list step: World Anvil lists for worldanvil, `[list]`/`[*]` otherwise.
- src/strategies/standard/horizontal-rule-strategy.ts is the identity with a `runBefore` declaration. It appears only as an identity rule and its metadata.
- src/strategy-chain-factory.ts and src/strategies/conversion-strategy.ts are not part of this model. The first is a per-format table sorted by an undefined comparator, and the second an interface; the rule datatype `Strategies.Strategy` plays its part.
- The dependency resolver that some tests describe does not exist in the source. Only the `runBefore` data is modelled (`Strategies.RunBefore`, `Strategies.RunBeforeAcyclic`).
- Where tests disagree with the code, the model follows the code:
  - dice: `[dice]…[/dice]`, worldanvil only, not `[roll:…]`;
  - line breaks: the format is ignored;
  - underline: no format gating;
  - superscript: the omitted format means bbcode;
  - emphasis: priority 2.
- Tables.TableAtOf: stated for tables whose first body row holds a character other than `-`, `:`, `|` and whitespace. Otherwise the separator pattern `[-\s|:]+` may run on into that row, and the captured body changes. Such inputs still go through `Tables.Tables`; only this lemma does not cover them.
- Tables.TableConverts: stated under the same condition as `Tables.TableAtOf`.
- Headers.HeadersByLine, Quotes.QuotesByLine, Checklists.ChecklistsByLine, Items.ItemsByLine, Lists.WorldAnvilListsByLine: stated for lines on which a pattern's `\s` cannot run on into the next line. Such a line has no terminator, is not blank, does not end in a bare marker (`#` run, `>`, bullet) followed by whitespace and, for list items, does not end in whitespace. `Lists.BlankLineSwallowed` shows what happens otherwise.
- Lists.DashLevel: stated for content that does not end in whitespace, the list-item condition of the line-by-line lemmas above. A single line whose content ends in whitespace converts the same way; the lemma does not cover it.
- Inline code inside a fenced block is converted inside the block's tag, as the two global replaces do one after the other (`Code.InlineInsideBlock`); the model keeps that nesting.
- src/main.ts (re-exports), the example scripts and the build and test configuration do no conversion and are not part of this model.
