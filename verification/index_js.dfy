/**
 * The untyped entry script: one conversion function that checks its input
 * before its format, and step functions that take the format as a plain
 * string.
 */
module IndexScript {
  import opened Wrappers
  import opened Text
  import opened Dialect
  import Headers
  import Inline
  import Media
  import Code
  import StandardLists
  import Quotes
  import IndexConverter

  /**
   * How a step reads its `format` string: only `worldanvil` selects the
   * World Anvil output; any other string behaves as bbcode.
   */
  function StepFormat(format: string): (f: Format)
    ensures f == WorldAnvil <==> format == "worldanvil"
    ensures ParseFormat(Some(format)).Success? ==> f == ParseFormat(Some(format)).value
  {
    if format == "worldanvil" then WorldAnvil else BBCode
  }

  /**
   * What `convertMarkdownToBBCode(markdown, options)` returns: the input
   * error for empty input, then the format error, then the trimmed steps.
   */
  function ConvertedWith(markdown: string, format: Option<string>): (r: Result<string, ConvertError>)
    ensures markdown == [] ==> r == Failure(InvalidInput)
    ensures markdown != [] && ParseFormat(format).Failure? ==> r == Failure(InvalidFormat)
    ensures r.Success? ==> Trim(r.value) == r.value
  {
    if markdown == [] then Failure(InvalidInput)
    else
      match ParseFormat(format)
      case Failure(e) => Failure(e)
      case Success(f) =>
        TrimTwice(IndexConverter.Steps(f, markdown));
        Success(Trim(IndexConverter.Steps(f, markdown)))
  }

  /** `convertHeaders(text, format)`: levels six down to one, each a pass over the whole text. */
  method ConvertHeaders(text: string, format: string) returns (r: string)
    ensures r == Headers.Headers(StepFormat(format), text)
  {
    r := Headers.ConvertHeaders(StepFormat(format), text);
  }

  /** `convertEmphasis(text, format)`: the format is not consulted. */
  method ConvertEmphasis(text: string, format: string) returns (r: string)
    ensures r == Inline.Emphasis(text)
  {
    r := Inline.Emphasis(text);
  }

  /** `convertLinks(text, format)`: the format is not consulted. */
  method ConvertLinks(text: string, format: string) returns (r: string)
    ensures r == Media.Links(text)
  {
    r := Media.Links(text);
  }

  /** `convertImages(text, format)`: the alt text is kept only for `worldanvil`. */
  method ConvertImages(text: string, format: string) returns (r: string)
    ensures r == Media.Images(text, StepFormat(format))
  {
    r := Media.Images(text, StepFormat(format));
  }

  /** `convertCode(text, format)`: a fence's language is kept only for `worldanvil`. */
  method ConvertCode(text: string, format: string) returns (r: string)
    ensures r == Code.Code(text, StepFormat(format))
  {
    r := Code.Code(text, StepFormat(format));
  }

  /** `convertLists(text, format)`: always `[list]` and `[*]`, the format is not consulted. */
  method ConvertLists(text: string, format: string) returns (r: string)
    ensures r == StandardLists.Traditional(text)
  {
    r := StandardLists.Traditional(text);
  }

  /** `convertQuotes(text, format)`: the format is not consulted. */
  method ConvertQuotes(text: string, format: string) returns (r: string)
    ensures r == Quotes.Quotes(text)
  {
    r := Quotes.Quotes(text);
  }

  /** `convertStrikethrough(text, format)`: the format is not consulted. */
  method ConvertStrikethrough(text: string, format: string) returns (r: string)
    ensures r == Inline.Strikethrough(text)
  {
    r := Inline.Strikethrough(text);
  }

  /** `convertMarkdownToBBCode`: checks, then reassigns `result` step by step and trims it. */
  method ConvertMarkdownToBBCode(markdown: string, format: Option<string>) returns (r: Result<string, ConvertError>)
    ensures r == ConvertedWith(markdown, format)
  {
    var name := if format.Some? then format.value else "bbcode";
    if markdown == [] {
      return Failure(InvalidInput);
    }
    if name != "bbcode" && name != "worldanvil" {
      return Failure(InvalidFormat);
    }
    var result := markdown;
    result := ConvertHeaders(result, name);
    result := ConvertEmphasis(result, name);
    result := ConvertImages(result, name);
    result := ConvertLinks(result, name);
    result := ConvertCode(result, name);
    result := ConvertLists(result, name);
    result := ConvertQuotes(result, name);
    result := ConvertStrikethrough(result, name);
    TrimTwice(result);
    return Success(Trim(result));
  }

  // ----- Properties -----

  /**
   * The script and the typed entry point give the same answer on every input
   * except empty input with an unknown format, where the script reports the
   * input and the typed entry point the format.
   */
  lemma ErrorOrder(markdown: string, format: Option<string>)
    ensures markdown == [] && ParseFormat(format).Failure? ==>
      ConvertedWith(markdown, format) == Failure(InvalidInput)
      && IndexConverter.ConvertedWith(markdown, format) == Failure(InvalidFormat)
    ensures !(markdown == [] && ParseFormat(format).Failure?) ==>
      ConvertedWith(markdown, format) == IndexConverter.ConvertedWith(markdown, format)
  {
  }
}
