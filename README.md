# telegraf-command-arg-parser, modelled in Dafny

This project models the argument-parsing engine of telegraf-command-arg-parser.
The library cuts a bot command line such as `/add 1 000 apples` into
whitespace-delimited tokens. It then runs a pipeline of configured steps over
those tokens. Each step is a per-type parser: number, string, one-of, rest, or
a custom function. A step consumes a prefix of the tokens it is given and
returns one parsed argument together with the tokens it left. The result is a
parsed command: the command word, the raw line, and one argument per step.

The model has six modules:

- `Tokens`: tokens with their offsets in the original line, and JavaScript's
  `substring` and `join`.
- `Arguments`: the error codes, `ParsedArgument`, `ParserResult` and
  `ParsedCommand`.
- `ParsersCfg`: the configuration records and their two validators, which
  return an `Outcome` instead of throwing.
- `Parsers`: the four parsers. The number parser's window growth is an
  imperative loop (`GrowWindow`), proved against the recursive specification
  `Grow`.
- `Builder`: the builder class with its `steps` and `onErrorHandler` fields
  and its fluent adders. Also the compiled parser, whose loop folds the
  tokens through the steps, and the middleware's choice of handler.
- `Scenarios`: concrete command lines worked through the number parser.

The tokenizer is not part of the model. The compiled parser takes the message
together with the tokens cut from it. The number converter is a function
`string -> Option<real>`; `None` stands for NaN. The runtime's default
converter `(i) => +i` is a parameter, `plus`, threaded through the calls.

Where the code and its documentation disagree, the model follows the code:

- `src/common/parsers-cfg.ts:92` documents `caseSensitive: true` as "ignore
  case". The code at `src/common/parsers.ts:149-154` treats true, and an
  absent value, as exact matching.
- The comment at `src/middleware-with-args/arg-parser-builder.ts:83` gives the
  default as `false`.
- `FLOAT_REJECTED` is returned at `src/common/parsers.ts:106` but is missing
  from the enum in `src/common/parsing-errors.ts:4-28`. The model adds it as
  a fifth error code.

The number parser exists twice. `Parsers.Number` and `Parsers.NumberSpec`
follow the code as written. `Parsers.NumberFixed` and
`Parsers.NumberFixedSpec` carry the corrected zero-index test described
under "## Findings". A pipeline number step records which of the two it
runs (`Builder.NumberVariant`). The builder's `number` adder appends steps
that run the parser as written, as the library does. A step with the
corrected variant shows what the pipeline gives once the zero-index test is
fixed.

## Model

| member | source | states |
|---|---|---|
| Arguments.CodesDistinct | src/common/parsing-errors.ts:4-28 | distinct error codes have distinct string values |
| Arguments.ParsedArgument.Error | src/common/parsed-argument.ts:27-29 | the error factory gives no value, the given error, and the given raw text (absent included); the result is well formed |
| Tokens.SpanIsSlice | src/common/parsers.ts:97 | on tokens cut from the line, the span from the first token to token k is the exact slice of the line between them, and starts with the first token's text |
| Tokens.JoinRebuildsSingleSpaced | src/common/parsers.ts:172-173 | on a single-spaced line, joining the token texts with one space rebuilds the original text from the first token on |
| ParsersCfg.ValidateNumberCfg | src/common/parsers-cfg.ts:68-78 | accepts exactly when the bounds are ordered (min == max allowed) and a present default lies in [min, max]; a rejection carries one of the three source messages; "min can not be greater than max!" exactly when both bounds are present and min > max |
| ParsersCfg.ValidateNumberIgnoresFlags | src/common/parsers-cfg.ts:68-78 | round, rejectFloats, strict and the converter never change the verdict |
| ParsersCfg.UnconstrainedNumberCfgAccepted | src/common/parsers-cfg.ts:68-78 | a configuration with no bounds and no default is always accepted |
| ParsersCfg.ValidateOneOfCfg | src/common/parsers-cfg.ts:103-108 | accepts exactly when the default is absent, empty, or listed in a present accepted list; a rejection carries the message naming the default |
| Parsers.Ok | src/common/parsers.ts:19-21 | a success has the value, no error, the raw text and remainder given, and is well formed |
| Parsers.Err | src/common/parsers.ts:29-31 | a failure is the error factory's argument with the remainder given |
| Parsers.Empty | src/common/parsers.ts:43-49 | on empty input: the default with no error, or MISSING; never raw text; nothing left over |
| Parsers.RoundIsNearestInteger | src/common/parsers.ts:108-110 | rounding gives an integer within one half of its argument, and leaves integers alone |
| Parsers.JoinedStep | src/common/parsers.ts:67 | the joined text of no tokens is empty, and growing the window by one token appends exactly that token's text |
| Parsers.Grow | src/common/parsers.ts:62-84 | as-written growth keeps the last valid index and value present together, and the index within the tokens |
| Parsers.GrowFixed | src/common/parsers.ts:62-84 | the same for the corrected growth |
| Parsers.GrowWindow | src/common/parsers.ts:62-84 | the growth loop computes the as-written growth from window 0 |
| Parsers.GrowWindowFixed | src/common/parsers.ts:62-84 | the growth loop computes the corrected growth from window 0 |
| Parsers.BoundaryUnique | src/common/parsers.ts:64-84 | a token list has at most one as-written boundary: a window k that changes the value held (converts, and to something other than the last value converted before it), that no earlier stop cut off (no failure after a change at a non-zero index before k), and after which no window the growth reaches changes the value again (windows up to the first failure, or every window when k is 0) |
| Parsers.FixedBoundaryUnique | src/common/parsers.ts:64-84 | a token list has at most one corrected boundary: a change of value reached through an unbroken run of converting windows, with no later change before the first failure |
| Parsers.GrowPostDeterminesResult | src/common/parsers.ts:64-84 | at most one (index, value) pair with both present or both absent meets the as-written growth's postcondition, so that postcondition fixes what the growth returns |
| Parsers.GrowFixedPostDeterminesResult | src/common/parsers.ts:64-84 | the same for the corrected growth |
| Parsers.GrowMeetsPost | src/common/parsers.ts:64-84 | from any state meeting the loop invariant, the as-written growth returns no index exactly when no prefix converts; otherwise it returns the as-written boundary k and the value of prefix k |
| Parsers.GrowFromStart | src/common/parsers.ts:62-94 | the same from the initial state of the loop |
| Parsers.GrowFixedMeetsPost | src/common/parsers.ts:64-84 | from any state meeting the loop invariant, the corrected growth returns no index exactly when no prefix converts; otherwise it returns the corrected boundary k and the value of prefix k |
| Parsers.GrowFixedFromStart | src/common/parsers.ts:62-94 | the same from the initial state of the loop |
| Parsers.Validate | src/common/parsers.ts:99-112 | SYNTAX_ERROR exactly when the value is NaN; OUT_OF_RANGE exactly when it lies outside the inclusive bounds; FLOAT_REJECTED exactly when it is in range, rejectFloats is set and it is not integral; no error exactly when none of these holds, and then success with the value, rounded when round is set; every outcome keeps the raw text and the remainder |
| Parsers.Conclude | src/common/parsers.ts:97-112 | the remainder is everything after the last consumed token |
| Parsers.NumberSpec | src/common/parsers.ts:39-113 | the as-written number parser's result is well formed, leaves a suffix of its input, and consumes at least one token of a non-empty input |
| Parsers.NumberFixedSpec | src/common/parsers.ts:39-113 | the same for the corrected number parser |
| Parsers.Finish | src/common/parsers.ts:97-112 | the validation step computes the outcome for the number and boundary found |
| Parsers.Number | src/common/parsers.ts:39-113 | the imperative number parser computes the as-written specification |
| Parsers.NumberFixed | src/common/parsers.ts:39-113 | the imperative number parser computes the corrected specification |
| Parsers.NumberEmptyInput | src/common/parsers.ts:43-49 | on empty input both number parsers return the default with no error and no raw text, or MISSING, and leave nothing |
| Parsers.ValidatedDefaultWithinBounds | src/common/parsers-cfg.ts:72-77 | when validation passes, the default the number parser returns on empty input lies within [min, max] |
| Parsers.StrictConsumesOneToken | src/common/parsers.ts:57-60 | strict mode converts the first token alone and consumes exactly it; SYNTAX_ERROR exactly when that conversion fails; on tokens cut from the line, the raw text is that token |
| Parsers.NonStrictConsumesToBoundary | src/common/parsers.ts:62-97 | non-strict mode consumes up to boundary k; on tokens cut from the line, the raw text is the line slice of those tokens. With no converting prefix: SYNTAX_ERROR on the first token alone. Otherwise: k is the as-written boundary, the only one, and the outcome is the validation of prefix k's value |
| Parsers.FixedAgreesUnlessFirstTokenConverts | src/common/parsers.ts:81 | the corrected and as-written number parsers agree on empty input, in strict mode, and whenever the first token alone does not convert |
| Parsers.GrowsAgree | src/common/parsers.ts:64-84 | the two window growths agree from any state whose valid index is absent or non-zero |
| Parsers.FixedNeverSkipsFailure | src/common/parsers.ts:80-82 | the corrected parser stops at the corrected boundary k, the only one, and validates prefix k's value; it never takes its number across a failing window: every prefix converts from the first converting one up to k |
| Parsers.RejectFloatsBeforeRound | src/common/parsers.ts:105-110 | under rejectFloats a success is an integral number returned unchanged, whatever round says |
| Parsers.RoundedValueWithinIntegerBounds | src/common/parsers.ts:102-110 | with integral bounds, a successful (possibly rounded) value lies within them |
| Parsers.String | src/common/parsers.ts:120-131 | on empty input: the default or MISSING; otherwise consumes exactly the first token, whose text is both value and raw, with no error |
| Parsers.Lower | src/common/parsers.ts:156 | lower-casing keeps the length |
| Parsers.FirstMatch | src/common/parsers.ts:156 | finds the first accepted entry equal to the token under lower-casing, or none when no entry matches |
| Parsers.OneOf | src/common/parsers.ts:139-163 | on empty input: the default or MISSING; otherwise consumes exactly one token, keeps it as raw, and any error is VALUE_NOT_LISTED |
| Parsers.OneOfExactMembership | src/common/parsers.ts:153-154 | case-sensitive mode succeeds exactly when the token is non-empty and listed, and returns the token |
| Parsers.OneOfCanonicalForm | src/common/parsers.ts:155-160 | case-insensitive mode succeeds exactly when the token is non-empty and matches some entry under lower-casing, and returns the first such entry as accepted |
| Parsers.Rest | src/common/parsers.ts:171-178 | never an error, never a remainder, always a string value and raw text; the value starts with the first token's text; on tokens cut from the line, the raw text is the line from the first token on |
| Parsers.RestOfNothing | src/common/parsers.ts:171-178 | on empty input the value and the raw text are both empty |
| Parsers.RestOfSingleSpacedLine | src/common/parsers.ts:172-173 | on a single-spaced line the value and the raw text are both the original text from the first token on |
| Builder.Apply | src/middleware-with-args/arg-parser-builder.ts:65-109 | a built-in step's argument is well formed and its remainder is a suffix of its input; an as-written number step gives the as-written number parser's result, a corrected one the corrected parser's |
| Builder.RunStep | src/middleware-with-args/arg-parser-builder.ts:143 | running a step computes what the step specifies, the number parser of the step's variant included |
| Builder.Fold | src/middleware-with-args/arg-parser-builder.ts:141-146 | the fold yields exactly one argument per step |
| Builder.Inputs | src/middleware-with-args/arg-parser-builder.ts:141-146 | there is one input per step |
| Builder.StepsChain | src/middleware-with-args/arg-parser-builder.ts:141-146 | argument i is step i's result on its input; the first step gets the tokens given; each later step gets its predecessor's remainder |
| Builder.BuiltInStepsOnlyShrink | src/middleware-with-args/arg-parser-builder.ts:141-146 | with built-in steps, each step's input is a suffix of every earlier step's input and of the tokens given |
| Builder.OneArgumentPerStep | src/middleware-with-args/arg-parser-builder.ts:136-148 | the parsed command's command is the first token's text or ""; raw is the message; there is one argument per step, in order, chained through the remainders starting after the command |
| Builder.StepsAfterExhaustionSeeNothing | src/middleware-with-args/arg-parser-builder.ts:141-146 | once built-in steps have used up the tokens, every later step gets an empty list and gives its empty-input answer |
| Builder.ArgParser.Run | src/middleware-with-args/arg-parser-builder.ts:135-149 | the compiled parser's loop computes the specified parsed command |
| Builder.FirstError | src/middleware-with-args/arg-parser-builder.ts:173 | finds the first argument with an error, or none when no argument has one |
| Builder.Middleware.Decide | src/middleware-with-args/arg-parser-builder.ts:172-177 | the error handler is chosen exactly when one is configured and some argument has an error; otherwise the handler |
| Builder.Middleware.Handle | src/middleware-with-args/arg-parser-builder.ts:169-178 | the middleware parses the message and takes that decision |
| Builder.ArgParserBuilder.constructor | src/middleware-with-args/arg-parser-builder.ts:52-58 | a new builder has no steps and no error handler |
| Builder.ArgParserBuilder.Number | src/middleware-with-args/arg-parser-builder.ts:65-69 | validates first: on success appends one number step that runs the parser as written and returns the same builder; on failure returns the message and adds nothing |
| Builder.ArgParserBuilder.String | src/middleware-with-args/arg-parser-builder.ts:75-78 | appends one string step and returns the same builder |
| Builder.ArgParserBuilder.OneOf | src/middleware-with-args/arg-parser-builder.ts:86-90 | validates first: on success appends one one-of step and returns the same builder; on failure returns the message and adds nothing |
| Builder.ArgParserBuilder.Rest | src/middleware-with-args/arg-parser-builder.ts:96-99 | appends one rest step and returns the same builder |
| Builder.ArgParserBuilder.Custom | src/middleware-with-args/arg-parser-builder.ts:106-109 | appends the custom step and returns the same builder |
| Builder.ArgParserBuilder.OnError | src/middleware-with-args/arg-parser-builder.ts:117-126 | IGNORE clears the error handler; CALL_NEXT installs the handler that calls next; a function is stored; the steps are unchanged |
| Builder.ArgParserBuilder.ToParser | src/middleware-with-args/arg-parser-builder.ts:133-134 | the parser holds a copy of the current steps |
| Builder.ArgParserBuilder.ToMiddleware | src/middleware-with-args/arg-parser-builder.ts:163-167 | the middleware keeps the handler, the error handler configured at this moment, and the parser given or a fresh one |
| Builder.BuildAndCompile | src/middleware-with-args/arg-parser-builder.ts:133-134 | a rejected number configuration adds no step; steps added after compiling do not reach the compiled parser; compiling the same steps twice gives the same parser |
| Scenarios.TruthyZeroReadsAcrossFailure | src/common/parsers.ts:80-82 | as written, "0 x 10" reads across the failing window "0x" and returns 16, consuming the whole line |
| Scenarios.CorrectedStopsAtFailure | src/common/parsers.ts:80-82 | corrected, "0 x 10" returns 0 and leaves "x 10" |
| Scenarios.ZeroBeforeWordsAsWritten | test/common/parsers.test.ts:191-200 | as written, "0 foo bar" returns 0 with raw "0" and leaves "foo bar" |
| Scenarios.GroupedThousands | test/common/parsers.test.ts:136-145 | both number parsers read "1 000 foo bar" as 1000 with raw "1 000" and leave "foo bar" |
| Scenarios.SignedGroupedThousands | test/common/parsers.test.ts:126-134 | both number parsers read "- 1 000" as -1000 with raw "- 1 000" and leave nothing |
| Scenarios.StopsAtFailureAfterChange | src/common/parsers.ts:80-82 | as written, with a converter that evaluates "12-3", "1 2 - 3" stops at the failing window "12-" after the change at index 1: it returns 12 with raw "1 2" and leaves "- 3", although the later window "12-3" would convert |
| Scenarios.NumbersAfterCommand | src/common/parsers.ts:62-97 | on the arguments "0 x 10" of "/c 0 x 10", the as-written parser returns 16 over all three tokens and the corrected one returns 0 and leaves "x 10" |
| Scenarios.PipelineAsWrittenOverZeroIndex | src/middleware-with-args/arg-parser-builder.ts:65-69 | the builder's number step followed by a string step parses "/c 0 x 10" into 16 with raw "0 x 10", then MISSING for the string |
| Scenarios.PipelineCorrectedOverZeroIndex | src/middleware-with-args/arg-parser-builder.ts:136-148 | with the corrected number step, the same pipeline parses "/c 0 x 10" into 0 with raw "0", then the string "x" |
| Scenarios.RangeCheckPrecedesRounding | src/common/parsers.ts:102-110 | with max 0.5 and round set, 0.5 passes the range check and then comes out as 1 |

## Left out

- The tokenizer (`PowerSplit.splitWithIndexes` with `/\s/gu`): the compiled parser receives the tokens together with the message. The tokens are `Token(text, start, end)`, and `PowerSplit.substring` is modelled as JavaScript's `substring` over the line.
- The Telegraf plumbing of `toMiddleware`: the context, `next`, promises, reading `ctx.message?.text`, and calling handlers. Handlers are identities. `Middleware.Decide` returns which one is called.
- `src/middleware-with-args/arg-parser-decorator.ts`, which is framework wiring with no logic of its own.
- `src/middleware-with-args/number-parser-cfg.ts`, a duplicate interface without behaviour that the builder does not use.
- JavaScript numbers: IEEE doubles, NaN as a value, `-0` and `===` on floats. Numbers are exact reals, and a failed conversion is `None`.
- The default converter `(i) => +i`: it is the parameter `plus`. The scenarios supply `+` on the strings they need.
- Unicode `toLowerCase`: lower-casing is ASCII only.
- Builder.ArgParserBuilder.Custom: a custom step is a function from tokens to a result. It cannot see the line, and nothing constrains what it returns, so the shrinking and well-formedness lemmas cover built-in steps only.
- Builder.ArgParserBuilder.Number, Builder.ArgParserBuilder.OneOf: a validation failure is returned as `Failure(message)` instead of being thrown.
- Parsers.Grow, Parsers.GrowFixed: the contracts on these functions state only their shape. What the growth computes from the start is stated by `Parsers.GrowFromStart` and `Parsers.GrowFixedFromStart`; with `Parsers.GrowPostDeterminesResult` and `Parsers.GrowFixedPostDeterminesResult` those postconditions determine the result.
- Parsers.Rest: the full contents of the value and the raw text are stated only for an empty list and for single-spaced lines. On a line with runs of whitespace the contract states only that the value starts with the first token's text and that the raw text is the line from the first token on.
- The configuration objects are stored by reference at `src/middleware-with-args/arg-parser-builder.ts:67` and `:88`. Changing a configuration after adding its step changes that step and bypasses the validation done when it was added. The model stores configurations as values, so a step's configuration is the one validated.

## Findings

| source | as written | input that shows it | evidently intended | confidence | as-written member | corrected member |
|---|---|---|---|---|---|---|
| src/common/parsers.ts:81 | `if (lastValidIndex) break;` tests the index for truthiness, so a valid number found at index 0 does not stop the growth at the next failing window | the line "0 x 10" in non-strict mode with the `+` converter: "0" reads 0, "0x" is NaN, "0x10" reads 16; the parser returns 16 and consumes all three tokens | an explicit presence test (`lastValidIndex !== undefined`) stops at "0x", returning 0 and leaving "x 10"; the corrected parser never takes its number across a failing window (Parsers.FixedNeverSkipsFailure) | not executed | Scenarios.TruthyZeroReadsAcrossFailure | Parsers.NumberFixedSpec |
