/**
 * The argument-parser builder. It keeps an append-only list of configured
 * parser steps and an optional error handler; compiling it snapshots the
 * steps into a parser that folds the shrinking token list through them, and
 * the middleware built from it decides which handler a parsed line goes to.
 */
module Builder {
  import opened Wrappers
  import opened Tokens
  import opened Arguments
  import opened ParsersCfg
  import Parsers

  /** Which number parser a number step runs: the source's, or the one with the zero-index test corrected. */
  datatype NumberVariant = AsWritten | ZeroIndexFixed

  /**
   * One configured step of the pipeline; a custom step is any function from
   * tokens to a parser result. The builder's number steps run the parser as
   * written.
   */
  datatype Step =
    | NumberStep(numberCfg: NumberCfg, variant: NumberVariant)
    | StringStep(stringCfg: BasicCfg<string>)
    | OneOfStep(oneOfCfg: OneOfCfg)
    | RestStep
    | CustomStep(run: seq<Token> -> ParserResult)
  {
    /** A step built from one of the library's own parsers. */
    predicate BuiltIn()
    {
      !CustomStep?
    }
  }

  /** What a step returns on the tokens it is given. */
  function Apply(step: Step, line: string, ts: seq<Token>, plus: Converter): (r: ParserResult)
    ensures step.BuiltIn() ==> IsSuffix(r.unconsumed, ts) && r.result.WellFormed()
  {
    match step
    case NumberStep(cfg, AsWritten) => Parsers.NumberSpec(line, ts, cfg, plus)
    case NumberStep(cfg, ZeroIndexFixed) => Parsers.NumberFixedSpec(line, ts, cfg, plus)
    case StringStep(cfg) => Parsers.String(ts, cfg)
    case OneOfStep(cfg) => Parsers.OneOf(ts, cfg)
    case RestStep => Parsers.Rest(line, ts)
    case CustomStep(run) => run(ts)
  }

  /** Runs one step, calling the imperative number parsers for number steps. */
  method RunStep(step: Step, line: string, ts: seq<Token>, plus: Converter) returns (r: ParserResult)
    ensures r == Apply(step, line, ts, plus)
  {
    match step
    case NumberStep(cfg, AsWritten) =>
      r := Parsers.Number(line, ts, cfg, plus);
    case NumberStep(cfg, ZeroIndexFixed) =>
      r := Parsers.NumberFixed(line, ts, cfg, plus);
    case StringStep(cfg) =>
      r := Parsers.String(ts, cfg);
    case OneOfStep(cfg) =>
      r := Parsers.OneOf(ts, cfg);
    case RestStep =>
      r := Parsers.Rest(line, ts);
    case CustomStep(run) =>
      r := run(ts);
  }

  /** The arguments the steps produce, each step fed what the previous one left. */
  function Fold(steps: seq<Step>, line: string, ts: seq<Token>, plus: Converter): (args: seq<ParsedArgument>)
    ensures |args| == |steps|
    decreases |steps|
  {
    if |steps| == 0 then []
    else
      var r := Apply(steps[0], line, ts, plus);
      [r.result] + Fold(steps[1..], line, r.unconsumed, plus)
  }

  /** The tokens each step receives: the first the given ones, every later one what its predecessor left. */
  function Inputs(steps: seq<Step>, line: string, ts: seq<Token>, plus: Converter): (ins: seq<seq<Token>>)
    ensures |ins| == |steps|
    decreases |steps|
  {
    if |steps| == 0 then []
    else [ts] + Inputs(steps[1..], line, Apply(steps[0], line, ts, plus).unconsumed, plus)
  }

  /** Argument `i` is step `i`'s result on its input, and each input after the first is the previous step's leftover. */
  lemma {:induction false} StepsChain(steps: seq<Step>, line: string, ts: seq<Token>, plus: Converter)
    ensures var ins := Inputs(steps, line, ts, plus);
      && (|steps| > 0 ==> ins[0] == ts)
      && (forall i :: 0 <= i < |steps| ==> Fold(steps, line, ts, plus)[i] == Apply(steps[i], line, ins[i], plus).result)
      && (forall i :: 0 <= i < |steps| - 1 ==> ins[i + 1] == Apply(steps[i], line, ins[i], plus).unconsumed)
    decreases |steps|
  {
    if |steps| > 0 {
      var r := Apply(steps[0], line, ts, plus);
      StepsChain(steps[1..], line, r.unconsumed, plus);
      var ins := Inputs(steps, line, ts, plus);
      var tail := Inputs(steps[1..], line, r.unconsumed, plus);
      assert ins[1..] == tail;
      forall i | 0 < i < |steps|
        ensures Fold(steps, line, ts, plus)[i] == Apply(steps[i], line, ins[i], plus).result
      {
        assert Fold(steps, line, ts, plus)[i] == Fold(steps[1..], line, r.unconsumed, plus)[i - 1];
        assert steps[1..][i - 1] == steps[i];
      }
      forall i | 0 < i < |steps| - 1
        ensures ins[i + 1] == Apply(steps[i], line, ins[i], plus).unconsumed
      {
        assert steps[1..][i - 1] == steps[i];
        assert ins[i] == tail[i - 1] && ins[i + 1] == tail[i];
      }
    }
  }

  /**
   * Built-in steps never hand back a token already consumed: each step's
   * input is a suffix of every earlier step's input and of the tokens given.
   */
  lemma {:induction false} BuiltInStepsOnlyShrink(steps: seq<Step>, line: string, ts: seq<Token>, plus: Converter)
    requires forall i :: 0 <= i < |steps| ==> steps[i].BuiltIn()
    ensures forall i :: 0 <= i < |steps| ==> IsSuffix(Inputs(steps, line, ts, plus)[i], ts)
    ensures forall i, j :: 0 <= i <= j < |steps| ==>
              IsSuffix(Inputs(steps, line, ts, plus)[j], Inputs(steps, line, ts, plus)[i])
    decreases |steps|
  {
    if |steps| > 0 {
      var r := Apply(steps[0], line, ts, plus);
      BuiltInStepsOnlyShrink(steps[1..], line, r.unconsumed, plus);
      var ins := Inputs(steps, line, ts, plus);
      var tail := Inputs(steps[1..], line, r.unconsumed, plus);
      assert ins[1..] == tail;
      assert forall k :: 0 <= k < |tail| ==> IsSuffix(tail[k], r.unconsumed);
      assert ts[|ts| - |ts|..] == ts;
      assert steps[0].BuiltIn();
      assert IsSuffix(r.unconsumed, ts);
      forall i | 0 < i < |steps|
        ensures IsSuffix(ins[i], ts)
      {
        assert ins[i] == tail[i - 1];
        assert IsSuffix(tail[i - 1], r.unconsumed);
        SuffixTransitive(ins[i], r.unconsumed, ts);
      }
      forall i, j | 0 <= i <= j < |steps|
        ensures IsSuffix(ins[j], ins[i])
      {
        if i == 0 {
        } else {
          assert ins[i] == tail[i - 1] && ins[j] == tail[j - 1];
          assert IsSuffix(tail[j - 1], tail[i - 1]);
        }
      }
    }
  }

  /** The parsed line: its first token as the command, the line verbatim, the steps folded over the rest. */
  function ParseSpec(steps: seq<Step>, message: string, tokens: seq<Token>, plus: Converter): ParsedCommand
  {
    var command := if |tokens| == 0 then "" else tokens[0].token;
    var remaining := if |tokens| == 0 then [] else tokens[1..];
    ParsedCommand(command, message, Fold(steps, message, remaining, plus))
  }

  /**
   * The compiled parser yields one argument per step, in step order; the
   * first step is fed the tokens after the command and every later step what
   * its predecessor left.
   */
  lemma OneArgumentPerStep(steps: seq<Step>, message: string, tokens: seq<Token>, plus: Converter)
    ensures var cmd := ParseSpec(steps, message, tokens, plus);
      var ins := Inputs(steps, message, if |tokens| == 0 then [] else tokens[1..], plus);
      && cmd.raw == message
      && cmd.command == (if |tokens| == 0 then "" else tokens[0].token)
      && |cmd.args| == |steps|
      && (|steps| > 0 ==> ins[0] == (if |tokens| == 0 then [] else tokens[1..]))
      && (forall i :: 0 <= i < |steps| ==> cmd.args[i] == Apply(steps[i], message, ins[i], plus).result)
      && (forall i :: 0 <= i < |steps| - 1 ==> ins[i + 1] == Apply(steps[i], message, ins[i], plus).unconsumed)
  {
    StepsChain(steps, message, if |tokens| == 0 then [] else tokens[1..], plus);
  }

  /**
   * Once built-in steps have used up the tokens, every later step sees an
   * empty list and gives its own empty-input answer.
   */
  lemma StepsAfterExhaustionSeeNothing(steps: seq<Step>, line: string, ts: seq<Token>, plus: Converter, i: nat, j: nat)
    requires forall k :: 0 <= k < |steps| ==> steps[k].BuiltIn()
    requires i <= j < |steps| && Inputs(steps, line, ts, plus)[i] == []
    ensures Inputs(steps, line, ts, plus)[j] == []
    ensures Fold(steps, line, ts, plus)[j] == Apply(steps[j], line, [], plus).result
  {
    BuiltInStepsOnlyShrink(steps, line, ts, plus);
    StepsChain(steps, line, ts, plus);
  }

  /** A compiled parser: a snapshot of the builder's steps. */
  datatype ArgParser = ArgParser(steps: seq<Step>)
  {
    /** Parses one line, given the tokens the tokenizer cut from it. */
    method Run(message: string, tokens: seq<Token>, plus: Converter) returns (cmd: ParsedCommand)
      ensures cmd == ParseSpec(steps, message, tokens, plus)
    {
      var remaining := tokens;
      var command := "";
      if |remaining| > 0 {
        command := remaining[0].token;
        remaining := remaining[1..];
      }
      ghost var afterCommand := remaining;
      var args: seq<ParsedArgument> := [];
      var i := 0;
      while i < |steps|
        invariant i <= |steps|
        invariant args + Fold(steps[i..], message, remaining, plus) == Fold(steps, message, afterCommand, plus)
      {
        var result := RunStep(steps[i], message, remaining, plus);
        assert steps[i..][1..] == steps[i + 1..];
        args := args + [result.result];
        remaining := result.unconsumed;
        i := i + 1;
      }
      assert args == Fold(steps, message, afterCommand, plus);
      cmd := ParsedCommand(command, message, args);
    }
  }

  /** A handler the middleware may call; only its identity matters here. */
  datatype Handler = CallsNext | UserHandler(id: nat)

  /** The argument of `onError`: one of the two default actions or a handler of the caller's. */
  datatype OnErrorArg = Ignore | CallNext | HandlerFn(id: nat)

  /** Where the middleware sends a parsed line. */
  datatype Dispatch = ToErrorHandler(errorHandler: Handler) | ToHandler(handlerId: nat)

  /** `args.find(i => !!i.error)`, as the index of the first argument with an error. */
  function FirstError(args: seq<ParsedArgument>): (r: Option<nat>)
    ensures r.Some? ==> r.value < |args| && args[r.value].error.Some? &&
                        forall j :: 0 <= j < r.value ==> args[j].error.None?
    ensures r.None? ==> forall j :: 0 <= j < |args| ==> args[j].error.None?
    decreases |args|
  {
    if |args| == 0 then None
    else if args[0].error.Some? then Some(0)
    else
      var f := FirstError(args[1..]);
      if f.Some? then Some(f.value + 1) else None
  }

  /** The middleware: the handler, the error handler captured when it was built, and the parser. */
  datatype Middleware = Middleware(handler: nat, errHandler: Option<Handler>, parser: ArgParser)
  {
    /** The error handler is called exactly when one is configured and some argument has an error. */
    function Decide(cmd: ParsedCommand): (d: Dispatch)
      ensures d.ToErrorHandler? <==>
                errHandler.Some? && exists i :: 0 <= i < |cmd.args| && cmd.args[i].error.Some?
      ensures d.ToErrorHandler? ==> d.errorHandler == errHandler.value
      ensures d.ToHandler? ==> d.handlerId == handler
    {
      if errHandler.Some? && FirstError(cmd.args).Some? then ToErrorHandler(errHandler.value)
      else ToHandler(handler)
    }

    /** Parses the message and picks the handler for it. */
    method Handle(message: string, tokens: seq<Token>, plus: Converter) returns (d: Dispatch)
      ensures d == Decide(ParseSpec(parser.steps, message, tokens, plus))
    {
      var parsedCmd := parser.Run(message, tokens, plus);
      if errHandler.Some? {
        var found := FirstError(parsedCmd.args);
        if found.Some? {
          return ToErrorHandler(errHandler.value);
        }
      }
      return ToHandler(handler);
    }
  }

  /** The fluent builder: each adder appends one step and hands back the same builder. */
  class ArgParserBuilder {
    var steps: seq<Step>
    var onErrorHandler: Option<Handler>

    constructor ()
      ensures steps == [] && onErrorHandler.None?
    {
      steps := [];
      onErrorHandler := None;
    }

    /** Adds a number step once its configuration passes validation; a rejected configuration adds nothing. */
    method Number(cfg: NumberCfg) returns (r: Result<ArgParserBuilder, string>)
      modifies this
      ensures onErrorHandler == old(onErrorHandler)
      ensures ValidateNumberCfg(cfg).Pass? ==> r == Success(this) && steps == old(steps) + [NumberStep(cfg, AsWritten)]
      ensures ValidateNumberCfg(cfg).Fail? ==> r == Failure(ValidateNumberCfg(cfg).error) && steps == old(steps)
    {
      var check := ValidateNumberCfg(cfg);
      if check.Fail? {
        return Failure(check.error);
      }
      steps := steps + [NumberStep(cfg, AsWritten)];
      return Success(this);
    }

    method String(cfg: BasicCfg<string>) returns (b: ArgParserBuilder)
      modifies this
      ensures b == this && steps == old(steps) + [StringStep(cfg)] && onErrorHandler == old(onErrorHandler)
    {
      steps := steps + [StringStep(cfg)];
      return this;
    }

    /** Adds a one-of step once its configuration passes validation; a rejected configuration adds nothing. */
    method OneOf(cfg: OneOfCfg) returns (r: Result<ArgParserBuilder, string>)
      modifies this
      ensures onErrorHandler == old(onErrorHandler)
      ensures ValidateOneOfCfg(cfg).Pass? ==> r == Success(this) && steps == old(steps) + [OneOfStep(cfg)]
      ensures ValidateOneOfCfg(cfg).Fail? ==> r == Failure(ValidateOneOfCfg(cfg).error) && steps == old(steps)
    {
      var check := ValidateOneOfCfg(cfg);
      if check.Fail? {
        return Failure(check.error);
      }
      steps := steps + [OneOfStep(cfg)];
      return Success(this);
    }

    method Rest() returns (b: ArgParserBuilder)
      modifies this
      ensures b == this && steps == old(steps) + [RestStep] && onErrorHandler == old(onErrorHandler)
    {
      steps := steps + [RestStep];
      return this;
    }

    method Custom(run: seq<Token> -> ParserResult) returns (b: ArgParserBuilder)
      modifies this
      ensures b == this && steps == old(steps) + [CustomStep(run)] && onErrorHandler == old(onErrorHandler)
    {
      steps := steps + [CustomStep(run)];
      return this;
    }

    /** IGNORE clears the error handler, CALL_NEXT installs one that only calls `next`, a function is stored. */
    method OnError(arg: OnErrorArg) returns (b: ArgParserBuilder)
      modifies this
      ensures b == this && steps == old(steps)
      ensures onErrorHandler == match arg
        case Ignore => None
        case CallNext => Some(CallsNext)
        case HandlerFn(id) => Some(UserHandler(id))
    {
      b := this;
      match arg
      case Ignore =>
        onErrorHandler := None;
      case CallNext =>
        onErrorHandler := Some(CallsNext);
      case HandlerFn(id) =>
        onErrorHandler := Some(UserHandler(id));
    }

    /** Compiles the current steps; the parser keeps its own copy of them. */
    method ToParser() returns (p: ArgParser)
      ensures p.steps == steps
    {
      var stepsCopy := steps;
      return ArgParser(stepsCopy);
    }

    /** Captures the current error handler and, unless one is given, a freshly compiled parser. */
    method ToMiddleware(handler: nat, parser: Option<ArgParser>) returns (m: Middleware)
      ensures m.handler == handler && m.errHandler == onErrorHandler
      ensures m.parser == if parser.Some? then parser.value else ArgParser(steps)
    {
      var p: ArgParser;
      if parser.Some? {
        p := parser.value;
      } else {
        p := ToParser();
      }
      var errHandler := onErrorHandler;
      return Middleware(handler, errHandler, p);
    }
  }

  /**
   * A client of the builder: a rejected number configuration adds no step, a
   * compiled parser is not affected by steps added later, and compiling the
   * same steps twice gives the same parser.
   */
  method BuildAndCompile() returns (rejected: bool, first: ArgParser, again: ArgParser, extended: ArgParser)
    ensures rejected
    ensures first.steps == [StringStep(BasicCfg(None))]
    ensures again == first
    ensures extended.steps == first.steps + [RestStep]
  {
    var b := new ArgParserBuilder();
    var bad := b.Number(NumberCfg(None, Some(10.0), Some(5.0), false, false, false, None));
    rejected := bad.Failure?;
    var _ := b.String(BasicCfg(None));
    first := b.ToParser();
    again := b.ToParser();
    var _ := b.Rest();
    extended := b.ToParser();
  }
}
