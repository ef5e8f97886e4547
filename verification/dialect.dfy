/** The two BBCode dialects the converter targets, and the errors it raises. */
module Dialect {
  import opened Wrappers

  datatype Format = BBCode | WorldAnvil

  /** The two errors the converters throw: a bad `format` option, and empty input. */
  datatype ConvertError = InvalidFormat | InvalidInput

  function FormatName(f: Format): string {
    match f
    case BBCode => "bbcode"
    case WorldAnvil => "worldanvil"
  }

  /**
   * The `format` option: absent means `bbcode`; any name other than
   * `bbcode` and `worldanvil` is rejected.
   */
  function ParseFormat(name: Option<string>): (r: Result<Format, ConvertError>)
    ensures name.None? ==> r == Success(BBCode)
    ensures name.Some? ==> (r.Success? <==> name.value == "bbcode" || name.value == "worldanvil")
    ensures name.Some? && r.Success? ==> FormatName(r.value) == name.value
    ensures r.Failure? ==> r.error == InvalidFormat
  {
    match name
    case None => Success(BBCode)
    case Some(n) =>
      if n == "bbcode" then Success(BBCode)
      else if n == "worldanvil" then Success(WorldAnvil)
      else Failure(InvalidFormat)
  }

  /** A `format` parameter with a default value, as in `format = 'bbcode'`. */
  function OrDefault(fmt: Option<Format>, default: Format): Format {
    if fmt.Some? then fmt.value else default
  }
}
