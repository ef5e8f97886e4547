/**
 * The typed entry module: a second copy of the monolithic converter whose
 * list step has no World Anvil branch, the one-call conversion function,
 * and the deprecated single-step wrappers.
 */
module IndexConverter {
  import opened Wrappers
  import opened Text
  import opened Dialect
  import Headers
  import Inline
  import Media
  import Code
  import StandardLists
  import Quotes
  import Strategies
  import MonolithicConverter

  /**
   * The eight steps in the monolithic converter's order; lists always
   * become `[list]` and `[*]`, whatever the format.
   */
  function Steps(fmt: Format, s: string): string {
    var headers := Headers.Headers(fmt, s);
    var emphasis := Inline.Emphasis(headers);
    var images := Media.Images(emphasis, fmt);
    var links := Media.Links(images);
    var code := Code.Code(links, fmt);
    var lists := StandardLists.Traditional(code);
    var quotes := Quotes.Quotes(lists);
    Inline.Strikethrough(quotes)
  }

  /** What `convert` returns: the input error for empty input, otherwise the trimmed steps. */
  function Converted(fmt: Format, markdown: string): (r: Result<string, ConvertError>)
    ensures r.Failure? <==> markdown == []
    ensures r.Failure? ==> r.error == InvalidInput
    ensures r.Success? ==> Trim(r.value) == r.value && Trim(Steps(fmt, markdown)) == r.value
  {
    if markdown == [] then Failure(InvalidInput)
    else
      TrimTwice(Steps(fmt, markdown));
      Success(Trim(Steps(fmt, markdown)))
  }

  /**
   * What `convertMarkdownToBBCode(markdown, options)` returns: the format is
   * checked when the converter is made, so its error comes first.
   */
  function ConvertedWith(markdown: string, format: Option<string>): (r: Result<string, ConvertError>)
    ensures ParseFormat(format).Failure? ==> r == Failure(InvalidFormat)
    ensures ParseFormat(format).Success? ==> r == Converted(ParseFormat(format).value, markdown)
  {
    match ParseFormat(format)
    case Failure(e) => Failure(e)
    case Success(f) => Converted(f, markdown)
  }

  class Converter {
    const format: Format

    constructor(format: Format)
      ensures this.format == format
    {
      this.format := format;
    }

    /** `convert`: the result is reassigned by each step in turn. */
    method Convert(markdown: string) returns (r: Result<string, ConvertError>)
      ensures r == Converted(format, markdown)
    {
      if markdown == [] {
        return Failure(InvalidInput);
      }
      var result := markdown;
      result := ConvertHeaders(result);
      result := ConvertEmphasis(result);
      result := ConvertImages(result);
      result := ConvertLinks(result);
      result := ConvertCode(result);
      result := ConvertLists(result);
      result := ConvertQuotes(result);
      result := ConvertStrikethrough(result);
      TrimTwice(result);
      return Success(Trim(result));
    }

    /** `convertHeaders`: levels six down to one, each a pass over the whole text. */
    method ConvertHeaders(text: string) returns (r: string)
      ensures r == Headers.Headers(format, text)
    {
      r := Headers.ConvertHeaders(format, text);
    }

    method ConvertEmphasis(text: string) returns (r: string)
      ensures r == Inline.Emphasis(text)
    {
      r := Inline.Emphasis(text);
    }

    method ConvertImages(text: string) returns (r: string)
      ensures r == Media.Images(text, format)
    {
      r := Media.Images(text, format);
    }

    method ConvertLinks(text: string) returns (r: string)
      ensures r == Media.Links(text)
    {
      r := Media.Links(text);
    }

    method ConvertCode(text: string) returns (r: string)
      ensures r == Code.Code(text, format)
    {
      r := Code.Code(text, format);
    }

    /** `convertLists`: the format is not consulted. */
    method ConvertLists(text: string) returns (r: string)
      ensures r == StandardLists.Traditional(text)
    {
      r := StandardLists.Traditional(text);
    }

    method ConvertQuotes(text: string) returns (r: string)
      ensures r == Quotes.Quotes(text)
    {
      r := Quotes.Quotes(text);
    }

    method ConvertStrikethrough(text: string) returns (r: string)
      ensures r == Inline.Strikethrough(text)
    {
      r := Inline.Strikethrough(text);
    }
  }

  /** `new Converter(options)`: the format error for an unknown name. */
  method New(format: Option<string>) returns (r: Result<Converter, ConvertError>)
    ensures r.Failure? <==> ParseFormat(format).Failure?
    ensures r.Failure? ==> r.error == InvalidFormat
    ensures r.Success? ==> fresh(r.value) && r.value.format == ParseFormat(format).value
  {
    match ParseFormat(format)
    case Failure(e) =>
      return Failure(e);
    case Success(f) =>
      var c := new Converter(f);
      return Success(c);
  }

  /** `convertMarkdownToBBCode`: make a converter, then convert. */
  method ConvertMarkdownToBBCode(markdown: string, format: Option<string>) returns (r: Result<string, ConvertError>)
    ensures r == ConvertedWith(markdown, format)
  {
    var c := New(format);
    match c
    case Failure(e) =>
      return Failure(e);
    case Success(converter) =>
      r := converter.Convert(markdown);
  }

  // ----- The deprecated single-step wrappers: a converter for `format`, then one step -----

  method DeprecatedHeaders(text: string, format: Format) returns (r: string)
    ensures r == Headers.Headers(format, text)
  {
    var c := new Converter(format);
    r := c.ConvertHeaders(text);
  }

  method DeprecatedEmphasis(text: string, format: Format) returns (r: string)
    ensures r == Inline.Emphasis(text)
  {
    var c := new Converter(format);
    r := c.ConvertEmphasis(text);
  }

  method DeprecatedLinks(text: string, format: Format) returns (r: string)
    ensures r == Media.Links(text)
  {
    var c := new Converter(format);
    r := c.ConvertLinks(text);
  }

  method DeprecatedImages(text: string, format: Format) returns (r: string)
    ensures r == Media.Images(text, format)
  {
    var c := new Converter(format);
    r := c.ConvertImages(text);
  }

  method DeprecatedCode(text: string, format: Format) returns (r: string)
    ensures r == Code.Code(text, format)
  {
    var c := new Converter(format);
    r := c.ConvertCode(text);
  }

  method DeprecatedLists(text: string, format: Format) returns (r: string)
    ensures r == StandardLists.Traditional(text)
  {
    var c := new Converter(format);
    r := c.ConvertLists(text);
  }

  method DeprecatedQuotes(text: string, format: Format) returns (r: string)
    ensures r == Quotes.Quotes(text)
  {
    var c := new Converter(format);
    r := c.ConvertQuotes(text);
  }

  method DeprecatedStrikethrough(text: string, format: Format) returns (r: string)
    ensures r == Inline.Strikethrough(text)
  {
    var c := new Converter(format);
    r := c.ConvertStrikethrough(text);
  }

  // ----- Properties -----

  /** For bbcode this converter and the monolithic one agree on every input. */
  lemma AgreesForBBCode(markdown: string)
    ensures Converted(BBCode, markdown) == MonolithicConverter.Converted(BBCode, markdown)
  {
  }

  /**
   * The steps are the strategy rules for headers, emphasis, images, links,
   * code, standard lists, quotes and strikethrough, run in that order.
   */
  lemma StepsAreRules(fmt: Format, s: string)
    ensures Steps(fmt, s) == Strategies.Pipeline(
      [Strategies.HeaderConversionStrategy, Strategies.EmphasisConversionStrategy,
       Strategies.ImageConversionStrategy, Strategies.LinkConversionStrategy,
       Strategies.CodeConversionStrategy, Strategies.StandardListConversionStrategy,
       Strategies.QuoteConversionStrategy, Strategies.StrikethroughConversionStrategy], s, fmt)
  {
    Strategies.PipelineOfEight(
      Strategies.HeaderConversionStrategy, Strategies.EmphasisConversionStrategy,
      Strategies.ImageConversionStrategy, Strategies.LinkConversionStrategy,
      Strategies.CodeConversionStrategy, Strategies.StandardListConversionStrategy,
      Strategies.QuoteConversionStrategy, Strategies.StrikethroughConversionStrategy, s, fmt);
  }
}
