/**
 * The result and error model shared by every parser: the error codes, one
 * parsed argument, what a parser step returns, and the parsed command line.
 */
module Arguments {
  import opened Wrappers
  import opened Tokens

  /**
   * The parsing error codes. The enumeration in the repository declares the
   * first four and the number parser also reports FLOAT_REJECTED, so it is
   * the fifth code here.
   */
  datatype ParsingError = Missing | SyntaxError | OutOfRange | FloatRejected | ValueNotListed
  {
    /** The string value each enumeration member stands for. */
    function Code(): (c: string)
      ensures |c| > 0
    {
      match this
      case Missing => "MISSING"
      case SyntaxError => "SYNTAX_ERROR"
      case OutOfRange => "OUT_OF_RANGE"
      case FloatRejected => "FLOAT_REJECTED"
      case ValueNotListed => "VALUE_NOT_LISTED"
    }
  }

  /** Distinct error codes have distinct string values. */
  lemma CodesDistinct(a: ParsingError, b: ParsingError)
    requires a != b
    ensures a.Code() != b.Code()
  {
  }

  /** The values the built-in parsers produce: a number or a string. */
  datatype Value = Num(n: real) | Str(s: string)

  /**
   * One parsed argument: the converted value, the raw text it came from and
   * the error, each possibly absent. Being a datatype, it never changes after
   * construction, as the readonly fields of the source promise.
   */
  datatype ParsedArgument = ParsedArgument(value: Option<Value>, raw: Option<string>, error: Option<ParsingError>)
  {
    /** Success and failure exclude each other: there is a value exactly when there is no error. */
    predicate WellFormed()
    {
      value.Some? <==> error.None?
    }

    /** `ParsedArgument.error(e, raw)`: no value, the error `e`, and `raw` kept as given. */
    static function Error(e: ParsingError, raw: Option<string>): (a: ParsedArgument)
      ensures a.value.None? && a.error == Some(e) && a.raw == raw
      ensures a.WellFormed()
    {
      ParsedArgument(None, raw, Some(e))
    }
  }

  /** What one parser step returns: its argument and the tokens it did not consume. */
  datatype ParserResult = ParserResult(result: ParsedArgument, unconsumed: seq<Token>)

  /** The whole parsed line: its first token, the line verbatim, and one argument per step. */
  datatype ParsedCommand = ParsedCommand(command: string, raw: string, args: seq<ParsedArgument>)
}
