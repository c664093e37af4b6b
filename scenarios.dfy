/**
 * Worked examples of the parsers and the pipeline on concrete command lines.
 * The converter `Plus` is the runtime's unary `+` restricted to the strings
 * these examples produce; every other string converts to NaN.
 */
module Scenarios {
  import opened Wrappers
  import opened Tokens
  import opened Arguments
  import opened ParsersCfg
  import Parsers
  import Builder

  /** Unary `+` on the prefixes that occur below. */
  function Plus(s: string): Option<real>
  {
    if s == "0" then Some(0.0)
    else if s == "0x10" then Some(16.0)
    else if s == "1" then Some(1.0)
    else if s == "1000" then Some(1000.0)
    else if s == "-1" then Some(-1.0)
    else if s == "-1000" then Some(-1000.0)
    else None
  }

  /** A non-strict number configuration with no bounds, no default and no flags. */
  const plain := NumberCfg(None, None, None, false, false, false, None)

  /** The line "0 x 10" and its tokens. */
  const hexLine := "0 x 10"
  const hexTokens := [Token("0", 0, 1), Token("x", 2, 3), Token("10", 4, 6)]

  /**
   * As written, the failing window "0x" after a valid index 0 does not stop
   * the growth, so the parser reads across it and returns the value of
   * "0x10", consuming the whole line.
   */
  lemma TruthyZeroReadsAcrossFailure()
    ensures Parsers.NumberSpec(hexLine, hexTokens, plain, Plus)
         == ParserResult(ParsedArgument(Some(Num(16.0)), Some("0 x 10"), None), [])
  {
    var ts := hexTokens;
    Parsers.JoinedStep(ts, 0);
    assert Parsers.Joined(ts, 1) == "0";
    Parsers.JoinedStep(ts, 1);
    assert Parsers.Joined(ts, 2) == "0x";
    Parsers.JoinedStep(ts, 2);
    assert Parsers.Joined(ts, 3) == "0x10";
    assert Parsers.Grow(Plus, ts, 2, Some(0), Some(0.0)) == (Some(2), Some(16.0));
    assert Parsers.Grow(Plus, ts, 1, Some(0), Some(0.0)) == (Some(2), Some(16.0));
    assert Parsers.Grow(Plus, ts, 0, None, None) == (Some(2), Some(16.0));
    assert Span(hexLine, ts[0], ts[2]) == "0 x 10";
  }

  /** Corrected, the growth stops at the first failing window: "0" is the number and "x 10" is left. */
  lemma CorrectedStopsAtFailure()
    ensures Parsers.NumberFixedSpec(hexLine, hexTokens, plain, Plus)
         == ParserResult(ParsedArgument(Some(Num(0.0)), Some("0"), None), hexTokens[1..])
  {
    var ts := hexTokens;
    Parsers.JoinedStep(ts, 0);
    assert Parsers.Joined(ts, 1) == "0";
    Parsers.JoinedStep(ts, 1);
    assert Parsers.Joined(ts, 2) == "0x";
    assert Parsers.GrowFixed(Plus, ts, 1, Some(0), Some(0.0)) == (Some(0), Some(0.0));
    assert Parsers.GrowFixed(Plus, ts, 0, None, None) == (Some(0), Some(0.0));
    assert Span(hexLine, ts[0], ts[0]) == "0";
  }

  /**
   * "0 foo bar" as written: the failing windows after index 0 do not stop the
   * growth, but none converts, so the parser still reads 0 from the first token.
   */
  lemma ZeroBeforeWordsAsWritten()
    ensures var ts := [Token("0", 0, 1), Token("foo", 2, 5), Token("bar", 6, 9)];
      Parsers.NumberSpec("0 foo bar", ts, plain, Plus)
        == ParserResult(ParsedArgument(Some(Num(0.0)), Some("0"), None), ts[1..])
  {
    var ts := [Token("0", 0, 1), Token("foo", 2, 5), Token("bar", 6, 9)];
    Parsers.JoinedStep(ts, 0);
    assert Parsers.Joined(ts, 1) == "0";
    Parsers.JoinedStep(ts, 1);
    assert Parsers.Joined(ts, 2) == "0foo";
    Parsers.JoinedStep(ts, 2);
    assert Parsers.Joined(ts, 3) == "0foobar";
    assert Parsers.Grow(Plus, ts, 2, Some(0), Some(0.0)) == (Some(0), Some(0.0));
    assert Parsers.Grow(Plus, ts, 1, Some(0), Some(0.0)) == (Some(0), Some(0.0));
    assert Parsers.Grow(Plus, ts, 0, None, None) == (Some(0), Some(0.0));
    assert Span("0 foo bar", ts[0], ts[0]) == "0";
  }

  /** "1 000 foo bar" reads 1000 from the first two tokens and leaves "foo bar", as written and corrected. */
  lemma GroupedThousands()
    ensures var ts := [Token("1", 0, 1), Token("000", 2, 5), Token("foo", 6, 9), Token("bar", 10, 13)];
      Parsers.NumberSpec("1 000 foo bar", ts, plain, Plus)
        == ParserResult(ParsedArgument(Some(Num(1000.0)), Some("1 000"), None), ts[2..])
    ensures var ts := [Token("1", 0, 1), Token("000", 2, 5), Token("foo", 6, 9), Token("bar", 10, 13)];
      Parsers.NumberFixedSpec("1 000 foo bar", ts, plain, Plus)
        == ParserResult(ParsedArgument(Some(Num(1000.0)), Some("1 000"), None), ts[2..])
  {
    var ts := [Token("1", 0, 1), Token("000", 2, 5), Token("foo", 6, 9), Token("bar", 10, 13)];
    Parsers.JoinedStep(ts, 0);
    assert Parsers.Joined(ts, 1) == "1";
    Parsers.JoinedStep(ts, 1);
    assert Parsers.Joined(ts, 2) == "1000";
    Parsers.JoinedStep(ts, 2);
    assert Parsers.Joined(ts, 3) == "1000foo";
    assert Parsers.GrowFixed(Plus, ts, 2, Some(1), Some(1000.0)) == (Some(1), Some(1000.0));
    assert Parsers.GrowFixed(Plus, ts, 1, Some(0), Some(1.0)) == (Some(1), Some(1000.0));
    assert Parsers.GrowFixed(Plus, ts, 0, None, None) == (Some(1), Some(1000.0));
    assert Parsers.Grow(Plus, ts, 2, Some(1), Some(1000.0)) == (Some(1), Some(1000.0));
    assert Parsers.Grow(Plus, ts, 1, Some(0), Some(1.0)) == (Some(1), Some(1000.0));
    assert Parsers.Grow(Plus, ts, 0, None, None) == (Some(1), Some(1000.0));
    assert Span("1 000 foo bar", ts[0], ts[1]) == "1 000";
  }

  /** "- 1 000" starts with a failing window, then reads -1000 over the whole line, as written and corrected. */
  lemma SignedGroupedThousands()
    ensures var ts := [Token("-", 0, 1), Token("1", 2, 3), Token("000", 4, 7)];
      Parsers.NumberSpec("- 1 000", ts, plain, Plus)
        == ParserResult(ParsedArgument(Some(Num(-1000.0)), Some("- 1 000"), None), [])
    ensures var ts := [Token("-", 0, 1), Token("1", 2, 3), Token("000", 4, 7)];
      Parsers.NumberFixedSpec("- 1 000", ts, plain, Plus)
        == ParserResult(ParsedArgument(Some(Num(-1000.0)), Some("- 1 000"), None), [])
  {
    var ts := [Token("-", 0, 1), Token("1", 2, 3), Token("000", 4, 7)];
    Parsers.JoinedStep(ts, 0);
    assert Parsers.Joined(ts, 1) == "-";
    Parsers.JoinedStep(ts, 1);
    assert Parsers.Joined(ts, 2) == "-1";
    Parsers.JoinedStep(ts, 2);
    assert Parsers.Joined(ts, 3) == "-1000";
    assert Parsers.GrowFixed(Plus, ts, 2, Some(1), Some(-1.0)) == (Some(2), Some(-1000.0));
    assert Parsers.GrowFixed(Plus, ts, 1, None, None) == (Some(2), Some(-1000.0));
    assert Parsers.GrowFixed(Plus, ts, 0, None, None) == (Some(2), Some(-1000.0));
    assert Span("- 1 000", ts[0], ts[2]) == "- 1 000";
    Parsers.FixedAgreesUnlessFirstTokenConverts("- 1 000", ts, plain, Plus);
  }

  /** A converter of the caller's that evaluates "12-3" as a difference. */
  function Evaluating(s: string): Option<real>
  {
    if s == "1" then Some(1.0)
    else if s == "12" then Some(12.0)
    else if s == "12-3" then Some(9.0)
    else None
  }

  /**
   * As written, a failing window after a change of value at a non-zero index
   * stops the growth: "1 2 - 3" reads 12 and leaves "- 3", although "12-3"
   * would convert again.
   */
  lemma StopsAtFailureAfterChange()
    ensures var ts := [Token("1", 0, 1), Token("2", 2, 3), Token("-", 4, 5), Token("3", 6, 7)];
      Parsers.NumberSpec("1 2 - 3", ts, plain.(parser := Some(Evaluating)), Plus)
        == ParserResult(ParsedArgument(Some(Num(12.0)), Some("1 2"), None), ts[2..])
  {
    var ts := [Token("1", 0, 1), Token("2", 2, 3), Token("-", 4, 5), Token("3", 6, 7)];
    Parsers.JoinedStep(ts, 0);
    assert Parsers.Joined(ts, 1) == "1";
    Parsers.JoinedStep(ts, 1);
    assert Parsers.Joined(ts, 2) == "12";
    Parsers.JoinedStep(ts, 2);
    assert Parsers.Joined(ts, 3) == "12-";
    assert Parsers.Grow(Evaluating, ts, 2, Some(1), Some(12.0)) == (Some(1), Some(12.0));
    assert Parsers.Grow(Evaluating, ts, 1, Some(0), Some(1.0)) == (Some(1), Some(12.0));
    assert Parsers.Grow(Evaluating, ts, 0, None, None) == (Some(1), Some(12.0));
    assert Span("1 2 - 3", ts[0], ts[1]) == "1 2";
  }

  /** The line "/c 0 x 10" and its tokens, the command first. */
  const cmdLine := "/c 0 x 10"
  const cmdTokens := [Token("/c", 0, 2), Token("0", 3, 4), Token("x", 5, 6), Token("10", 7, 9)]

  /** Both number parsers on the arguments of "/c 0 x 10". */
  lemma NumbersAfterCommand()
    ensures Parsers.NumberSpec(cmdLine, cmdTokens[1..], plain, Plus)
         == ParserResult(ParsedArgument(Some(Num(16.0)), Some("0 x 10"), None), [])
    ensures Parsers.NumberFixedSpec(cmdLine, cmdTokens[1..], plain, Plus)
         == ParserResult(ParsedArgument(Some(Num(0.0)), Some("0"), None), cmdTokens[2..])
  {
    var ts := cmdTokens[1..];
    assert ts == [Token("0", 3, 4), Token("x", 5, 6), Token("10", 7, 9)];
    Parsers.JoinedStep(ts, 0);
    assert Parsers.Joined(ts, 1) == "0";
    Parsers.JoinedStep(ts, 1);
    assert Parsers.Joined(ts, 2) == "0x";
    Parsers.JoinedStep(ts, 2);
    assert Parsers.Joined(ts, 3) == "0x10";
    assert Parsers.Grow(Plus, ts, 2, Some(0), Some(0.0)) == (Some(2), Some(16.0));
    assert Parsers.Grow(Plus, ts, 1, Some(0), Some(0.0)) == (Some(2), Some(16.0));
    assert Parsers.Grow(Plus, ts, 0, None, None) == (Some(2), Some(16.0));
    assert Parsers.GrowFixed(Plus, ts, 1, Some(0), Some(0.0)) == (Some(0), Some(0.0));
    assert Parsers.GrowFixed(Plus, ts, 0, None, None) == (Some(0), Some(0.0));
    assert Span(cmdLine, ts[0], ts[2]) == "0 x 10";
    assert Span(cmdLine, ts[0], ts[0]) == "0";
    assert ts[3..] == [] && ts[1..] == cmdTokens[2..];
  }

  /**
   * The builder's pipeline, a number step then a string step, on "/c 0 x 10":
   * the number step reads 16 across "0x" and the string step finds nothing.
   */
  lemma PipelineAsWrittenOverZeroIndex()
    ensures Builder.ParseSpec([Builder.NumberStep(plain, Builder.AsWritten), Builder.StringStep(BasicCfg(None))], cmdLine, cmdTokens, Plus)
         == ParsedCommand("/c", cmdLine, [ParsedArgument(Some(Num(16.0)), Some("0 x 10"), None),
                                          ParsedArgument(None, None, Some(Missing))])
  {
    NumbersAfterCommand();
    var steps := [Builder.NumberStep(plain, Builder.AsWritten), Builder.StringStep(BasicCfg(None))];
    assert steps[1..] == [Builder.StringStep(BasicCfg(None))];
    assert Builder.Fold(steps[1..], cmdLine, [], Plus) == [ParsedArgument(None, None, Some(Missing))];
  }

  /** The same pipeline with the corrected number step reads 0, and the string step gets "x". */
  lemma PipelineCorrectedOverZeroIndex()
    ensures Builder.ParseSpec([Builder.NumberStep(plain, Builder.ZeroIndexFixed), Builder.StringStep(BasicCfg(None))], cmdLine, cmdTokens, Plus)
         == ParsedCommand("/c", cmdLine, [ParsedArgument(Some(Num(0.0)), Some("0"), None),
                                          ParsedArgument(Some(Str("x")), Some("x"), None)])
  {
    NumbersAfterCommand();
    var steps := [Builder.NumberStep(plain, Builder.ZeroIndexFixed), Builder.StringStep(BasicCfg(None))];
    assert steps[1..] == [Builder.StringStep(BasicCfg(None))];
    assert Builder.Fold(steps[1..], cmdLine, cmdTokens[2..], Plus) == [ParsedArgument(Some(Str("x")), Some("x"), None)];
  }

  /** The range check sees the unrounded value: 0.5 passes a maximum of 0.5 and is then rounded to 1. */
  lemma RangeCheckPrecedesRounding()
    ensures Parsers.Validate(Some(0.5), "0.5", [], NumberCfg(None, None, Some(0.5), true, false, false, None))
         == ParserResult(ParsedArgument(Some(Num(1.0)), Some("0.5"), None), [])
  {
    Parsers.RoundIsNearestInteger(0.5);
  }
}
