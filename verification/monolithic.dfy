/**
 * The monolithic converter: a format fixed when the converter is made, and a
 * `convert` that rejects empty input, runs eight steps in a fixed order and
 * trims the result.
 */
module MonolithicConverter {
  import opened Wrappers
  import opened Text
  import opened Dialect
  import Headers
  import Inline
  import Media
  import Code
  import Lists
  import StandardLists
  import Quotes

  /** `convertLists`: World Anvil lists for worldanvil, `[list]` and `[*]` lists otherwise. */
  function ListStep(fmt: Format, s: string): string {
    if fmt == WorldAnvil then Lists.WorldAnvilLists(s) else StandardLists.Traditional(s)
  }

  /**
   * The eight steps, in order: headers, emphasis, images, links, code,
   * lists, quotes, strikethrough.
   */
  function Steps(fmt: Format, s: string): string {
    var headers := Headers.Headers(fmt, s);
    var emphasis := Inline.Emphasis(headers);
    var images := Media.Images(emphasis, fmt);
    var links := Media.Links(images);
    var code := Code.Code(links, fmt);
    var lists := ListStep(fmt, code);
    var quotes := Quotes.Quotes(lists);
    Inline.Strikethrough(quotes)
  }

  /**
   * What `convert` returns: the input error for empty input, before any
   * step runs; otherwise the steps' result with no whitespace at either end.
   */
  function Converted(fmt: Format, markdown: string): (r: Result<string, ConvertError>)
    ensures r.Failure? <==> markdown == []
    ensures r.Failure? ==> r.error == InvalidInput
    ensures r.Success? ==> Trim(r.value) == r.value && Trim(Steps(fmt, markdown)) == r.value
  {
    if markdown == [] then Failure(InvalidInput)
    else
      TrimTwice(Steps(fmt, markdown));
      Success(Trim(Steps(fmt, markdown)))
  }

  class Converter {
    const format: Format

    constructor(format: Format)
      ensures this.format == format
    {
      this.format := format;
    }

    /** `convert`: the result is reassigned by each step in turn. */
    method Convert(markdown: string) returns (r: Result<string, ConvertError>)
      ensures r == Converted(format, markdown)
    {
      if markdown == [] {
        return Failure(InvalidInput);
      }
      var result := markdown;
      result := Headers.ConvertHeaders(format, result);
      result := Inline.Emphasis(result);
      result := Media.Images(result, format);
      result := Media.Links(result);
      result := Code.Code(result, format);
      if format == WorldAnvil {
        result := Lists.ConvertWorldAnvilLists(result);
      } else {
        result := StandardLists.Traditional(result);
      }
      result := Quotes.Quotes(result);
      result := Inline.Strikethrough(result);
      TrimTwice(result);
      return Success(Trim(result));
    }
  }

  /**
   * `new Converter(options)`: an absent format means bbcode, and any other
   * name than bbcode or worldanvil is refused with the format error.
   */
  method New(format: Option<string>) returns (r: Result<Converter, ConvertError>)
    ensures r.Failure? <==> ParseFormat(format).Failure?
    ensures r.Failure? ==> r.error == InvalidFormat
    ensures r.Success? ==> fresh(r.value) && r.value.format == ParseFormat(format).value
  {
    match ParseFormat(format)
    case Failure(e) =>
      return Failure(e);
    case Success(f) =>
      var c := new Converter(f);
      return Success(c);
  }
}
