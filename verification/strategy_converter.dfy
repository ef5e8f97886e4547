/**
 * The strategy-pattern converter: a format and a list of rule instances
 * fixed when the converter is made, and a `convert` that rejects empty
 * input, folds the rules over the text in list order and trims the result.
 */
module StrategyConverter {
  import opened Wrappers
  import opened Text
  import opened Dialect
  import opened Strategies
  import MonolithicConverter

  /** What `convert` returns for a list of rules. */
  function Converted(fmt: Format, rules: seq<Strategy>, markdown: string): (r: Result<string, ConvertError>)
    ensures r.Failure? <==> markdown == []
    ensures r.Failure? ==> r.error == InvalidInput
    ensures r.Success? ==> Trim(r.value) == r.value && Trim(Pipeline(rules, markdown, fmt)) == r.value
  {
    if markdown == [] then Failure(InvalidInput)
    else
      TrimTwice(Pipeline(rules, markdown, fmt));
      Success(Trim(Pipeline(rules, markdown, fmt)))
  }

  class Converter {
    const format: Format
    const strategies: array<Strategy>

    /** The converter still holds the rules it was made with. */
    ghost predicate Valid()
      reads strategies
    {
      strategies[..] == DefaultStrategies
    }

    /**
     * `new Converter(options)` once the format is known: the eight rules in
     * the listed order, which the priority sort keeps.
     */
    constructor(format: Format)
      ensures this.format == format && fresh(strategies) && Valid()
    {
      this.format := format;
      strategies := new Strategy[|DefaultStrategies|](i requires 0 <= i < |DefaultStrategies| => DefaultStrategies[i]);
    }

    /** `convert`: each rule in turn rewrites the text, then the result is trimmed. */
    method Convert(markdown: string) returns (r: Result<string, ConvertError>)
      ensures r == Converted(format, strategies[..], markdown)
      ensures Valid() ==> r == MonolithicConverter.Converted(format, markdown)
    {
      if markdown == [] {
        return Failure(InvalidInput);
      }
      var text := markdown;
      for i := 0 to strategies.Length
        invariant text == Pipeline(strategies[..i], markdown, format)
      {
        assert strategies[..i + 1][..i] == strategies[..i];
        text := strategies[i].convert(text, format);
      }
      assert strategies[..strategies.Length] == strategies[..];
      TrimTwice(text);
      r := Success(Trim(text));
      DefaultConverts(format, markdown);
    }

    /** `getStrategies`: a new array holding the same rules. */
    method GetStrategies() returns (r: array<Strategy>)
      ensures fresh(r) && r[..] == strategies[..]
    {
      r := new Strategy[strategies.Length](i requires 0 <= i < strategies.Length reads strategies => strategies[i]);
    }
  }

  /** `new Converter(options)`: an absent format means bbcode; an unknown name is refused. */
  method New(format: Option<string>) returns (r: Result<Converter, ConvertError>)
    ensures r.Failure? <==> ParseFormat(format).Failure?
    ensures r.Failure? ==> r.error == InvalidFormat
    ensures r.Success? ==> fresh(r.value) && r.value.format == ParseFormat(format).value && r.value.Valid()
  {
    match ParseFormat(format)
    case Failure(e) =>
      return Failure(e);
    case Success(f) =>
      var c := new Converter(f);
      return Success(c);
  }

  // ----- Properties -----

  /** With the listed rules, this converter and the monolithic one agree on every input. */
  lemma DefaultConverts(fmt: Format, markdown: string)
    ensures Converted(fmt, DefaultStrategies, markdown) == MonolithicConverter.Converted(fmt, markdown)
  {
    DefaultIsSteps(markdown, fmt);
  }
}
