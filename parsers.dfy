/**
 * The per-type argument parsers. Each takes the remaining tokens of the
 * line, consumes a prefix of them and returns one parsed argument together
 * with the tokens it left. The original line is passed alongside the tokens
 * so that the consumed text can be cut out of it verbatim.
 */
module Parsers {
  import opened Wrappers
  import opened Tokens
  import opened Arguments
  import opened ParsersCfg

  /** `Parsers.result`: a successful argument and the remaining tokens. */
  function Ok(value: Value, raw: Option<string>, unconsumed: seq<Token>): (r: ParserResult)
    ensures r.result.value == Some(value) && r.result.error.None? && r.result.WellFormed()
    ensures r.result.raw == raw && r.unconsumed == unconsumed
  {
    ParserResult(ParsedArgument(Some(value), raw, None), unconsumed)
  }

  /** `Parsers.error`: a failed argument and the remaining tokens. */
  function Err(e: ParsingError, raw: Option<string>, unconsumed: seq<Token>): (r: ParserResult)
    ensures r.result == ParsedArgument.Error(e, raw) && r.unconsumed == unconsumed
  {
    ParserResult(ParsedArgument.Error(e, raw), unconsumed)
  }

  /** The answer of number, string and one-of to an empty token list. */
  function Empty(default: Option<Value>): (r: ParserResult)
    ensures r.unconsumed == [] && r.result.raw.None? && r.result.WellFormed()
    ensures default.Some? ==> r.result.value == default && r.result.error.None?
    ensures default.None? ==> r.result.error == Some(Missing)
  {
    if default.Some? then Ok(default.value, None, []) else Err(Missing, None, [])
  }

  // ---------------------------------------------------------------------------
  // Number parser
  // ---------------------------------------------------------------------------

  /** `Number.isInteger` on an exact real. */
  predicate IsInteger(x: real)
  {
    x == x.Floor as real
  }

  /** `Math.round`: the nearest integer, halves rounded up. */
  function Round(x: real): real
  {
    (x + 0.5).Floor as real
  }

  /** `Round` yields the integer nearest to its argument, and leaves integers alone. */
  lemma RoundIsNearestInteger(x: real)
    ensures IsInteger(Round(x))
    ensures Round(x) - 0.5 <= x < Round(x) + 0.5
    ensures IsInteger(x) ==> Round(x) == x
  {
    var f := (x + 0.5).Floor;
    FloorOfInteger(f);
    if IsInteger(x) {
      FloorOfInteger(x.Floor);
      HalfAboveInteger(x.Floor);
    }
  }

  lemma FloorOfInteger(f: int)
    ensures (f as real).Floor == f
  {
  }

  lemma HalfAboveInteger(n: int)
    ensures (n as real + 0.5).Floor == n
  {
  }

  /** The configured converter, or the runtime's `+i` when none is configured. */
  function ConverterOf(cfg: NumberCfg, plus: Converter): Converter
  {
    if cfg.parser.Some? then cfg.parser.value else plus
  }

  /** The texts of the first `n` tokens, concatenated with no separator. */
  function Joined(ts: seq<Token>, n: nat): string
    requires n <= |ts|
  {
    Join(Texts(ts[..n]), "")
  }

  /** Growing the window by one token appends that token's text to the joined text. */
  lemma JoinedStep(ts: seq<Token>, n: nat)
    requires n < |ts|
    ensures Joined(ts, 0) == ""
    ensures Joined(ts, n + 1) == Joined(ts, n) + ts[n].token
  {
    assert Texts(ts[..n + 1]) == Texts(ts[..n]) + [ts[n].token];
    JoinEmptySeparator(Texts(ts[..n]), ts[n].token);
  }

  /** The conversion of the first `c + 1` tokens joined together. */
  function Prefix(conv: Converter, ts: seq<Token>, c: nat): Option<real>
    requires c < |ts|
  {
    conv(Joined(ts, c + 1))
  }

  /**
   * The non-strict window growth of the source, from window `c` on, with the
   * last valid index and value found so far. A prefix that converts to the
   * value already held is skipped; a prefix that does not convert stops the
   * growth only when the last valid index is truthy, that is present and not 0.
   */
  function Grow(conv: Converter, ts: seq<Token>, c: nat, idx: Option<nat>, val: Option<real>): (g: (Option<nat>, Option<real>))
    requires c <= |ts|
    requires idx.Some? <==> val.Some?
    requires idx.Some? ==> idx.value < c
    ensures g.0.Some? <==> g.1.Some?
    ensures g.0.Some? ==> g.0.value < |ts|
    decreases |ts| - c
  {
    if c == |ts| then (idx, val)
    else
      var p := Prefix(conv, ts, c);
      if p.Some? then
        if p == val then Grow(conv, ts, c + 1, idx, val) else Grow(conv, ts, c + 1, Some(c), p)
      else if idx.Some? && idx.value != 0 then (idx, val)
      else Grow(conv, ts, c + 1, idx, val)
  }

  /** The same growth with an explicit presence test: any valid index found stops it at a failing prefix. */
  function GrowFixed(conv: Converter, ts: seq<Token>, c: nat, idx: Option<nat>, val: Option<real>): (g: (Option<nat>, Option<real>))
    requires c <= |ts|
    requires idx.Some? <==> val.Some?
    requires idx.Some? ==> idx.value < c
    ensures g.0.Some? <==> g.1.Some?
    ensures g.0.Some? ==> g.0.value < |ts|
    decreases |ts| - c
  {
    if c == |ts| then (idx, val)
    else
      var p := Prefix(conv, ts, c);
      if p.Some? then
        if p == val then GrowFixed(conv, ts, c + 1, idx, val) else GrowFixed(conv, ts, c + 1, Some(c), p)
      else if idx.Some? then (idx, val)
      else GrowFixed(conv, ts, c + 1, idx, val)
  }

  /** The number and the last consumed index after growth: the first token alone when nothing converted. */
  function Settle(g: (Option<nat>, Option<real>)): (Option<real>, nat)
    requires g.0.Some? <==> g.1.Some?
  {
    if g.0.Some? then (g.1, g.0.value) else (None, 0)
  }

  /**
   * The validation of the converted number, in the source's order: not a
   * number, out of range, float rejected, then rounding. Every outcome keeps
   * the consumed text and the same remaining tokens.
   */
  function Validate(parsed: Option<real>, raw: string, rest: seq<Token>, cfg: NumberCfg): (r: ParserResult)
    ensures r.unconsumed == rest && r.result.raw == Some(raw) && r.result.WellFormed()
    ensures r.result.error == Some(SyntaxError) <==> parsed.None?
    ensures r.result.error == Some(OutOfRange) <==>
              parsed.Some? && !InRange(parsed.value, cfg.min, cfg.max)
    ensures r.result.error == Some(FloatRejected) <==>
              parsed.Some? && InRange(parsed.value, cfg.min, cfg.max) && cfg.rejectFloats && !IsInteger(parsed.value)
    ensures r.result.error.None? <==>
              parsed.Some? && InRange(parsed.value, cfg.min, cfg.max) && !(cfg.rejectFloats && !IsInteger(parsed.value))
    ensures r.result.error.None? ==>
              parsed.Some? && r.result.value == Some(Num(if cfg.round then Round(parsed.value) else parsed.value))
  {
    if parsed.None? then Err(SyntaxError, Some(raw), rest)
    else if !InRange(parsed.value, cfg.min, cfg.max) then Err(OutOfRange, Some(raw), rest)
    else if cfg.rejectFloats && !IsInteger(parsed.value) then Err(FloatRejected, Some(raw), rest)
    else Ok(Num(if cfg.round then Round(parsed.value) else parsed.value), Some(raw), rest)
  }

  /** The configured number default as a parsed value. */
  function NumberDefault(cfg: NumberCfg): Option<Value>
  {
    if cfg.default.Some? then Some(Num(cfg.default.value)) else None
  }

  /** The outcome once the number and the last consumed index `s` are known. */
  function Conclude(line: string, ts: seq<Token>, cfg: NumberCfg, s: (Option<real>, nat)): (r: ParserResult)
    requires s.1 < |ts|
    ensures r.unconsumed == ts[s.1 + 1..]
  {
    Validate(s.0, Span(line, ts[0], ts[s.1]), ts[s.1 + 1..], cfg)
  }

  /** `Parsers.number` as written: strict single-token conversion or non-strict growth, then validation. */
  function NumberSpec(line: string, ts: seq<Token>, cfg: NumberCfg, plus: Converter): (r: ParserResult)
    ensures r.result.WellFormed() && IsSuffix(r.unconsumed, ts)
    ensures |ts| > 0 ==> |r.unconsumed| < |ts|
  {
    if |ts| == 0 then Empty(NumberDefault(cfg))
    else
      var conv := ConverterOf(cfg, plus);
      Conclude(line, ts, cfg, if cfg.strict then (conv(ts[0].token), 0) else Settle(Grow(conv, ts, 0, None, None)))
  }

  /** `Parsers.number` with the zero-index check corrected (see `GrowFixed`). */
  function NumberFixedSpec(line: string, ts: seq<Token>, cfg: NumberCfg, plus: Converter): (r: ParserResult)
    ensures r.result.WellFormed() && IsSuffix(r.unconsumed, ts)
    ensures |ts| > 0 ==> |r.unconsumed| < |ts|
  {
    if |ts| == 0 then Empty(NumberDefault(cfg))
    else
      var conv := ConverterOf(cfg, plus);
      Conclude(line, ts, cfg, if cfg.strict then (conv(ts[0].token), 0) else Settle(GrowFixed(conv, ts, 0, None, None)))
  }

  /** The growth loop of `Parsers.number`, as written. */
  method GrowWindow(conv: Converter, tokens: seq<Token>) returns (lastValidIndex: Option<nat>, lastValidValue: Option<real>)
    ensures (lastValidIndex, lastValidValue) == Grow(conv, tokens, 0, None, None)
  {
    lastValidIndex, lastValidValue := None, None;
    var c := 0;
    while c < |tokens|
      invariant c <= |tokens|
      invariant lastValidIndex.Some? <==> lastValidValue.Some?
      invariant lastValidIndex.Some? ==> lastValidIndex.value < c
      invariant Grow(conv, tokens, c, lastValidIndex, lastValidValue) == Grow(conv, tokens, 0, None, None)
    {
      var parsed := conv(Joined(tokens, c + 1));
      if parsed.Some? {
        if parsed != lastValidValue {
          lastValidIndex, lastValidValue := Some(c), parsed;
        }
      } else if lastValidIndex.Some? && lastValidIndex.value != 0 {
        return;
      }
      c := c + 1;
    }
  }

  /** The growth loop with the presence test in place of the truthiness test. */
  method GrowWindowFixed(conv: Converter, tokens: seq<Token>) returns (lastValidIndex: Option<nat>, lastValidValue: Option<real>)
    ensures (lastValidIndex, lastValidValue) == GrowFixed(conv, tokens, 0, None, None)
  {
    lastValidIndex, lastValidValue := None, None;
    var c := 0;
    while c < |tokens|
      invariant c <= |tokens|
      invariant lastValidIndex.Some? <==> lastValidValue.Some?
      invariant lastValidIndex.Some? ==> lastValidIndex.value < c
      invariant GrowFixed(conv, tokens, c, lastValidIndex, lastValidValue) == GrowFixed(conv, tokens, 0, None, None)
    {
      var parsed := conv(Joined(tokens, c + 1));
      if parsed.Some? {
        if parsed != lastValidValue {
          lastValidIndex, lastValidValue := Some(c), parsed;
        }
      } else if lastValidIndex.Some? {
        return;
      }
      c := c + 1;
    }
  }

  /** Validation of the consumed number, as the tail of `Parsers.number` does it. */
  method Finish(line: string, tokens: seq<Token>, cfg: NumberCfg, parsedNumber: Option<real>, consumedUntil: nat)
    returns (r: ParserResult)
    requires consumedUntil < |tokens|
    ensures r == Conclude(line, tokens, cfg, (parsedNumber, consumedUntil))
  {
    var consumedString := Span(line, tokens[0], tokens[consumedUntil]);
    var unconsumed := tokens[consumedUntil + 1..];
    if parsedNumber.None? {
      return Err(SyntaxError, Some(consumedString), unconsumed);
    }
    var n := parsedNumber.value;
    if (cfg.min.Some? && n < cfg.min.value) || (cfg.max.Some? && n > cfg.max.value) {
      return Err(OutOfRange, Some(consumedString), unconsumed);
    }
    if cfg.rejectFloats && !IsInteger(n) {
      return Err(FloatRejected, Some(consumedString), unconsumed);
    }
    if cfg.round {
      n := Round(n);
    }
    return Ok(Num(n), Some(consumedString), unconsumed);
  }

  /** `Parsers.number`, as written. */
  method Number(line: string, tokens: seq<Token>, cfg: NumberCfg, plus: Converter) returns (r: ParserResult)
    ensures r == NumberSpec(line, tokens, cfg, plus)
  {
    if |tokens| == 0 {
      if cfg.default.Some? {
        return Ok(Num(cfg.default.value), None, []);
      }
      return Err(Missing, None, []);
    }
    var parser := ConverterOf(cfg, plus);
    var parsedNumber: Option<real>;
    var consumedUntil: nat;
    if cfg.strict {
      parsedNumber, consumedUntil := parser(tokens[0].token), 0;
    } else {
      var lastValidIndex, lastValidValue := GrowWindow(parser, tokens);
      if lastValidIndex.Some? {
        parsedNumber, consumedUntil := lastValidValue, lastValidIndex.value;
      } else {
        parsedNumber, consumedUntil := None, 0;
      }
    }
    r := Finish(line, tokens, cfg, parsedNumber, consumedUntil);
  }

  /** `Parsers.number` with the zero-index check corrected; the pipeline runs this one. */
  method NumberFixed(line: string, tokens: seq<Token>, cfg: NumberCfg, plus: Converter) returns (r: ParserResult)
    ensures r == NumberFixedSpec(line, tokens, cfg, plus)
  {
    if |tokens| == 0 {
      if cfg.default.Some? {
        return Ok(Num(cfg.default.value), None, []);
      }
      return Err(Missing, None, []);
    }
    var parser := ConverterOf(cfg, plus);
    var parsedNumber: Option<real>;
    var consumedUntil: nat;
    if cfg.strict {
      parsedNumber, consumedUntil := parser(tokens[0].token), 0;
    } else {
      var lastValidIndex, lastValidValue := GrowWindowFixed(parser, tokens);
      if lastValidIndex.Some? {
        parsedNumber, consumedUntil := lastValidValue, lastValidIndex.value;
      } else {
        parsedNumber, consumedUntil := None, 0;
      }
    }
    r := Finish(line, tokens, cfg, parsedNumber, consumedUntil);
  }

  // ---------------------------------------------------------------------------
  // What the growth computes
  // ---------------------------------------------------------------------------

  /** No prefix of the first `c` converts. */
  ghost predicate NoneConverts(conv: Converter, ts: seq<Token>, c: nat)
    requires c <= |ts|
  {
    forall j :: 0 <= j < c ==> Prefix(conv, ts, j).None?
  }

  /** Every window strictly between `i` and `c` converts. */
  ghost predicate AllConvertBetween(conv: Converter, ts: seq<Token>, i: nat, c: nat)
    requires c <= |ts|
  {
    forall m :: i < m < c ==> Prefix(conv, ts, m).Some?
  }

  /** The value of the last window before `c` that converts; none when no window before `c` converts. */
  ghost function LastValueBefore(conv: Converter, ts: seq<Token>, c: nat): Option<real>
    requires c <= |ts|
  {
    if c == 0 then None
    else if Prefix(conv, ts, c - 1).Some? then Prefix(conv, ts, c - 1)
    else LastValueBefore(conv, ts, c - 1)
  }

  /** Window `c` converts, and to a value other than the last one converted before it. */
  ghost predicate ChangePoint(conv: Converter, ts: seq<Token>, c: nat)
    requires c < |ts|
  {
    Prefix(conv, ts, c).Some? && Prefix(conv, ts, c) != LastValueBefore(conv, ts, c)
  }

  /**
   * The as-written growth was not stopped before window `k`: no window before
   * `k` failed after a change of value at a non-zero index.
   */
  ghost predicate NotStoppedBefore(conv: Converter, ts: seq<Token>, k: nat)
    requires k < |ts|
  {
    forall i, m :: 0 < i < m < k && ChangePoint(conv, ts, i) ==> Prefix(conv, ts, m).Some?
  }

  /**
   * Between the first prefix that converts and the boundary `k`, no prefix
   * fails: the number is taken from one unbroken run of valid windows.
   */
  ghost predicate NoFailureSkipped(conv: Converter, ts: seq<Token>, k: nat)
    requires k < |ts|
  {
    forall i, j :: 0 <= i < j <= k && Prefix(conv, ts, i).Some? ==> Prefix(conv, ts, j).Some?
  }

  /**
   * Window `k` is where the as-written growth ends: it is a change of value,
   * the growth was not stopped before it, and no later window the growth
   * reaches changes the value again. After a boundary at a non-zero index the
   * growth reaches windows up to the first failure; after a boundary at index
   * 0 it reaches every window, because index 0 does not stop it.
   */
  ghost predicate Boundary(conv: Converter, ts: seq<Token>, k: nat)
    requires k < |ts|
  {
    && ChangePoint(conv, ts, k)
    && NotStoppedBefore(conv, ts, k)
    && (forall j :: k < j < |ts| && (k == 0 || AllConvertBetween(conv, ts, k, j)) ==> !ChangePoint(conv, ts, j))
  }

  /**
   * Window `k` is where the corrected growth ends: a change of value, reached
   * through one unbroken run of converting windows, with no later change of
   * value before the first failure.
   */
  ghost predicate FixedBoundary(conv: Converter, ts: seq<Token>, k: nat)
    requires k < |ts|
  {
    && ChangePoint(conv, ts, k)
    && NoFailureSkipped(conv, ts, k)
    && (forall j :: k < j < |ts| && AllConvertBetween(conv, ts, k, j) ==> !ChangePoint(conv, ts, j))
  }

  /** A line has at most one as-written boundary. */
  lemma BoundaryUnique(conv: Converter, ts: seq<Token>, k1: nat, k2: nat)
    requires k1 < |ts| && k2 < |ts|
    requires Boundary(conv, ts, k1) && Boundary(conv, ts, k2)
    ensures k1 == k2
  {
  }

  /** A line has at most one corrected boundary. */
  lemma FixedBoundaryUnique(conv: Converter, ts: seq<Token>, k1: nat, k2: nat)
    requires k1 < |ts| && k2 < |ts|
    requires FixedBoundary(conv, ts, k1) && FixedBoundary(conv, ts, k2)
    ensures k1 == k2
  {
    if k1 < k2 {
      assert AllConvertBetween(conv, ts, k1, k2);
    } else if k2 < k1 {
      assert AllConvertBetween(conv, ts, k2, k1);
    }
  }

  /**
   * The loop state of the as-written growth after `c` windows: the value held
   * is the last converted one, and the valid index is the last boundary
   * candidate seen, with no change of value since and, when it is non-zero,
   * no failure since.
   */
  ghost predicate GrowInv(conv: Converter, ts: seq<Token>, c: nat, idx: Option<nat>, val: Option<real>)
    requires c <= |ts|
  {
    && (idx.Some? <==> val.Some?)
    && (idx.None? ==> NoneConverts(conv, ts, c))
    && LastValueBefore(conv, ts, c) == val
    && (idx.Some? ==>
          && idx.value < c
          && ChangePoint(conv, ts, idx.value)
          && Prefix(conv, ts, idx.value) == val
          && NotStoppedBefore(conv, ts, idx.value)
          && (forall j :: idx.value < j < c ==> !ChangePoint(conv, ts, j))
          && (idx.value > 0 ==> AllConvertBetween(conv, ts, idx.value, c)))
  }

  /** What the as-written growth returns: nothing exactly when no prefix converts, otherwise the boundary and its value. */
  ghost predicate GrowPost(conv: Converter, ts: seq<Token>, g: (Option<nat>, Option<real>))
  {
    && (g.0.None? <==> NoneConverts(conv, ts, |ts|))
    && (g.0.Some? ==> g.0.value < |ts| && Boundary(conv, ts, g.0.value) && g.1 == Prefix(conv, ts, g.0.value))
  }

  /** `GrowPost` holds of exactly one result, so it determines what the growth computes. */
  lemma GrowPostDeterminesResult(conv: Converter, ts: seq<Token>, g1: (Option<nat>, Option<real>), g2: (Option<nat>, Option<real>))
    requires GrowPost(conv, ts, g1) && GrowPost(conv, ts, g2)
    requires (g1.0.Some? <==> g1.1.Some?) && (g2.0.Some? <==> g2.1.Some?)
    ensures g1 == g2
  {
    if g1.0.Some? && g2.0.Some? {
      BoundaryUnique(conv, ts, g1.0.value, g2.0.value);
    }
  }

  lemma {:induction false} GrowMeetsPost(conv: Converter, ts: seq<Token>, c: nat, idx: Option<nat>, val: Option<real>)
    requires c <= |ts| && (idx.Some? ==> idx.value < c)
    requires GrowInv(conv, ts, c, idx, val)
    ensures GrowPost(conv, ts, Grow(conv, ts, c, idx, val))
    decreases |ts| - c
  {
    if c == |ts| {
      if idx.Some? {
        assert Prefix(conv, ts, idx.value).Some?;
      }
    } else {
      var p := Prefix(conv, ts, c);
      if p.Some? {
        if p == val {
          assert !ChangePoint(conv, ts, c);
          GrowMeetsPost(conv, ts, c + 1, idx, val);
        } else {
          assert NotStoppedBefore(conv, ts, c) by {
            forall i, m | 0 < i < m < c && ChangePoint(conv, ts, i)
              ensures Prefix(conv, ts, m).Some?
            {
            }
          }
          GrowMeetsPost(conv, ts, c + 1, Some(c), p);
        }
      } else if idx.Some? && idx.value != 0 {
        var k := idx.value;
        forall j | k < j < |ts| && AllConvertBetween(conv, ts, k, j)
          ensures !ChangePoint(conv, ts, j)
        {
        }
      } else {
        GrowMeetsPost(conv, ts, c + 1, idx, val);
      }
    }
  }

  /** The as-written growth, started as the source starts it, meets `GrowPost`. */
  lemma GrowFromStart(conv: Converter, ts: seq<Token>)
    ensures GrowPost(conv, ts, Grow(conv, ts, 0, None, None))
  {
    GrowMeetsPost(conv, ts, 0, None, None);
  }

  /** The loop state of the corrected growth: as `GrowInv`, with no failure tolerated after a valid index. */
  ghost predicate GrowFixedInv(conv: Converter, ts: seq<Token>, c: nat, idx: Option<nat>, val: Option<real>)
    requires c <= |ts|
  {
    && (idx.Some? <==> val.Some?)
    && (idx.None? ==> NoneConverts(conv, ts, c))
    && LastValueBefore(conv, ts, c) == val
    && (idx.Some? ==>
          && idx.value < c
          && ChangePoint(conv, ts, idx.value)
          && Prefix(conv, ts, idx.value) == val
          && NoFailureSkipped(conv, ts, idx.value)
          && (forall j :: idx.value < j < c ==> !ChangePoint(conv, ts, j))
          && AllConvertBetween(conv, ts, idx.value, c))
  }

  /** What the corrected growth returns: nothing exactly when no prefix converts, otherwise the corrected boundary and its value. */
  ghost predicate GrowFixedPost(conv: Converter, ts: seq<Token>, g: (Option<nat>, Option<real>))
  {
    && (g.0.None? <==> NoneConverts(conv, ts, |ts|))
    && (g.0.Some? ==> g.0.value < |ts| && FixedBoundary(conv, ts, g.0.value) && g.1 == Prefix(conv, ts, g.0.value))
  }

  /** `GrowFixedPost` holds of exactly one result. */
  lemma GrowFixedPostDeterminesResult(conv: Converter, ts: seq<Token>, g1: (Option<nat>, Option<real>), g2: (Option<nat>, Option<real>))
    requires GrowFixedPost(conv, ts, g1) && GrowFixedPost(conv, ts, g2)
    requires (g1.0.Some? <==> g1.1.Some?) && (g2.0.Some? <==> g2.1.Some?)
    ensures g1 == g2
  {
    if g1.0.Some? && g2.0.Some? {
      FixedBoundaryUnique(conv, ts, g1.0.value, g2.0.value);
    }
  }

  lemma {:induction false} GrowFixedMeetsPost(conv: Converter, ts: seq<Token>, c: nat, idx: Option<nat>, val: Option<real>)
    requires c <= |ts| && (idx.Some? ==> idx.value < c)
    requires GrowFixedInv(conv, ts, c, idx, val)
    ensures GrowFixedPost(conv, ts, GrowFixed(conv, ts, c, idx, val))
    decreases |ts| - c
  {
    if c == |ts| {
      if idx.Some? {
        assert Prefix(conv, ts, idx.value).Some?;
      }
    } else {
      var p := Prefix(conv, ts, c);
      if p.Some? {
        if p == val {
          assert !ChangePoint(conv, ts, c);
          GrowFixedMeetsPost(conv, ts, c + 1, idx, val);
        } else {
          assert NoFailureSkipped(conv, ts, c) by {
            forall i, j | 0 <= i < j <= c && Prefix(conv, ts, i).Some?
              ensures Prefix(conv, ts, j).Some?
            {
              if idx.Some? && j <= idx.value {
                assert NoFailureSkipped(conv, ts, idx.value);
              }
            }
          }
          GrowFixedMeetsPost(conv, ts, c + 1, Some(c), p);
        }
      } else if idx.Some? {
        var k := idx.value;
        forall j | k < j < |ts| && AllConvertBetween(conv, ts, k, j)
          ensures !ChangePoint(conv, ts, j)
        {
        }
      } else {
        GrowFixedMeetsPost(conv, ts, c + 1, idx, val);
      }
    }
  }

  /** The corrected growth, started as the source starts it, meets `GrowFixedPost`. */
  lemma GrowFixedFromStart(conv: Converter, ts: seq<Token>)
    ensures GrowFixedPost(conv, ts, GrowFixed(conv, ts, 0, None, None))
  {
    GrowFixedMeetsPost(conv, ts, 0, None, None);
  }

  // ---------------------------------------------------------------------------
  // Properties of the number parser
  // ---------------------------------------------------------------------------

  /** The answer to an empty token list: the default with no raw text, or MISSING; nothing left over. */
  ghost predicate AnswersEmptyInput(r: ParserResult, default: Option<Value>)
  {
    && r.unconsumed == [] && r.result.raw.None?
    && (default.Some? ==> r.result.value == default && r.result.error.None?)
    && (default.None? ==> r.result.value.None? && r.result.error == Some(Missing))
  }

  lemma NumberEmptyInput(line: string, cfg: NumberCfg, plus: Converter)
    ensures AnswersEmptyInput(NumberSpec(line, [], cfg, plus), NumberDefault(cfg))
    ensures AnswersEmptyInput(NumberFixedSpec(line, [], cfg, plus), NumberDefault(cfg))
  {
  }

  /** A validated configuration's default lies within its bounds, and is what an empty input yields. */
  lemma ValidatedDefaultWithinBounds(line: string, cfg: NumberCfg, plus: Converter)
    requires ValidateNumberCfg(cfg).Pass? && cfg.default.Some?
    ensures NumberSpec(line, [], cfg, plus).result == ParsedArgument(Some(Num(cfg.default.value)), None, None)
    ensures InRange(cfg.default.value, cfg.min, cfg.max)
  {
  }

  /** Strict mode converts the first token alone and consumes exactly it. */
  lemma StrictConsumesOneToken(line: string, ts: seq<Token>, cfg: NumberCfg, plus: Converter)
    requires cfg.strict && |ts| > 0
    ensures var r := NumberSpec(line, ts, cfg, plus);
      && r == Validate(ConverterOf(cfg, plus)(ts[0].token), Span(line, ts[0], ts[0]), ts[1..], cfg)
      && (r.result.error == Some(SyntaxError) <==> ConverterOf(cfg, plus)(ts[0].token).None?)
      && (Valid(line, ts) ==> r.result.raw == Some(ts[0].token))
  {
    if Valid(line, ts) {
      SpanIsSlice(line, ts, 0);
    }
  }

  /**
   * Non-strict mode consumes the tokens up to the boundary `k` of the
   * growth, which `BoundaryUnique` shows is the only one: the raw text is the
   * original span of those tokens and the validation acts on the value of
   * that prefix. When no prefix converts it reports SYNTAX_ERROR on the first
   * token alone.
   */
  lemma NonStrictConsumesToBoundary(line: string, ts: seq<Token>, cfg: NumberCfg, plus: Converter)
    requires !cfg.strict && |ts| > 0
    ensures var conv := ConverterOf(cfg, plus);
      var r := NumberSpec(line, ts, cfg, plus);
      var k := |ts| - |r.unconsumed| - 1;
      && 0 <= k < |ts| && r.unconsumed == ts[k + 1..]
      && (Valid(line, ts) ==> r.result.raw == Some(line[ts[0].start..ts[k].end]))
      && (NoneConverts(conv, ts, |ts|) ==>
            k == 0 && r == Validate(None, Span(line, ts[0], ts[0]), ts[1..], cfg))
      && (!NoneConverts(conv, ts, |ts|) ==>
            && Boundary(conv, ts, k)
            && r == Validate(Prefix(conv, ts, k), Span(line, ts[0], ts[k]), ts[k + 1..], cfg))
  {
    var conv := ConverterOf(cfg, plus);
    GrowFromStart(conv, ts);
    var r := NumberSpec(line, ts, cfg, plus);
    var k := |ts| - |r.unconsumed| - 1;
    if Valid(line, ts) {
      SpanIsSlice(line, ts, k);
    }
  }

  /** The corrected parser agrees with the as-written one unless the first token alone converts. */
  lemma FixedAgreesUnlessFirstTokenConverts(line: string, ts: seq<Token>, cfg: NumberCfg, plus: Converter)
    requires |ts| == 0 || cfg.strict || Prefix(ConverterOf(cfg, plus), ts, 0).None?
    ensures NumberFixedSpec(line, ts, cfg, plus) == NumberSpec(line, ts, cfg, plus)
  {
    if |ts| > 0 && !cfg.strict {
      GrowsAgree(ConverterOf(cfg, plus), ts, 0, None, None);
    }
  }

  lemma {:induction false} GrowsAgree(conv: Converter, ts: seq<Token>, c: nat, idx: Option<nat>, val: Option<real>)
    requires c <= |ts| && (idx.Some? <==> val.Some?) && (idx.Some? ==> 0 < idx.value < c)
    requires c == 0 && |ts| > 0 ==> Prefix(conv, ts, 0).None?
    ensures GrowFixed(conv, ts, c, idx, val) == Grow(conv, ts, c, idx, val)
    decreases |ts| - c
  {
    if c < |ts| {
      var p := Prefix(conv, ts, c);
      if p.Some? && p != val {
        GrowsAgree(conv, ts, c + 1, Some(c), p);
      } else if p.Some? || idx.None? {
        GrowsAgree(conv, ts, c + 1, idx, val);
      }
    }
  }

  /**
   * The corrected parser never takes its number across a failing window:
   * it stops at the corrected boundary, the only one by `FixedBoundaryUnique`,
   * and from the first prefix that converts up to it every prefix converts.
   */
  lemma FixedNeverSkipsFailure(line: string, ts: seq<Token>, cfg: NumberCfg, plus: Converter)
    requires !cfg.strict && |ts| > 0
    ensures var conv := ConverterOf(cfg, plus);
      var r := NumberFixedSpec(line, ts, cfg, plus);
      var k := |ts| - |r.unconsumed| - 1;
      && 0 <= k < |ts| && r.unconsumed == ts[k + 1..]
      && (NoneConverts(conv, ts, |ts|) ==>
            k == 0 && r == Validate(None, Span(line, ts[0], ts[0]), ts[1..], cfg))
      && (!NoneConverts(conv, ts, |ts|) ==>
            && FixedBoundary(conv, ts, k)
            && NoFailureSkipped(conv, ts, k)
            && r == Validate(Prefix(conv, ts, k), Span(line, ts[0], ts[k]), ts[k + 1..], cfg))
  {
    GrowFixedFromStart(ConverterOf(cfg, plus), ts);
  }

  /** `rejectFloats` has priority over `round`: a success under both is the integral number itself. */
  lemma RejectFloatsBeforeRound(parsed: Option<real>, raw: string, rest: seq<Token>, cfg: NumberCfg)
    requires cfg.rejectFloats && Validate(parsed, raw, rest, cfg).result.error.None?
    ensures parsed.Some? && IsInteger(parsed.value)
    ensures Validate(parsed, raw, rest, cfg).result.value == Some(Num(parsed.value))
  {
    RoundIsNearestInteger(parsed.value);
  }

  /** With integral bounds, rounding after the range check cannot leave the range. */
  lemma RoundedValueWithinIntegerBounds(parsed: Option<real>, raw: string, rest: seq<Token>, cfg: NumberCfg)
    requires cfg.min.Some? ==> IsInteger(cfg.min.value)
    requires cfg.max.Some? ==> IsInteger(cfg.max.value)
    requires Validate(parsed, raw, rest, cfg).result.error.None?
    ensures parsed.Some?
    ensures var v := Validate(parsed, raw, rest, cfg).result.value;
      v.Some? && v.value.Num? && InRange(v.value.n, cfg.min, cfg.max)
  {
    var x := parsed.value;
    if cfg.round {
      var y := x + 0.5;
      if cfg.min.Some? {
        IntegerAtMostFloor(cfg.min.value.Floor, y);
      }
      if cfg.max.Some? {
        FloorAtMostInteger(cfg.max.value.Floor, y);
      }
    }
  }

  lemma IntegerAtMostFloor(m: int, y: real)
    requires m as real <= y
    ensures m <= y.Floor
  {
  }

  lemma FloorAtMostInteger(m: int, y: real)
    requires y < m as real + 1.0
    ensures y.Floor <= m
  {
  }

  // ---------------------------------------------------------------------------
  // String, one-of and rest parsers
  // ---------------------------------------------------------------------------

  /** The configured string default as a parsed value. */
  function StringDefault(default: Option<string>): Option<Value>
  {
    if default.Some? then Some(Str(default.value)) else None
  }

  /** `Parsers.string`: the first token, verbatim, as both value and raw text. */
  function String(ts: seq<Token>, cfg: BasicCfg<string>): (r: ParserResult)
    ensures r.result.WellFormed() && IsSuffix(r.unconsumed, ts)
    ensures |ts| == 0 ==> AnswersEmptyInput(r, StringDefault(cfg.default))
    ensures |ts| > 0 ==>
      && r.unconsumed == ts[1..] && r.result.error.None?
      && r.result.value == Some(Str(ts[0].token)) && r.result.raw == Some(ts[0].token)
  {
    if |ts| == 0 then Empty(StringDefault(cfg.default))
    else Ok(Str(ts[0].token), Some(ts[0].token), ts[1..])
  }

  /** ASCII lower-casing of one character. */
  function LowerChar(ch: char): char
  {
    if 'A' <= ch <= 'Z' then (ch as int + 32) as char else ch
  }

  /** Lower-casing of a string, character by character. */
  function Lower(s: string): (r: string)
    ensures |r| == |s|
  {
    seq(|s|, i requires 0 <= i < |s| => LowerChar(s[i]))
  }

  /** `accepted.find(i => i.toLowerCase() === tok.toLowerCase())`, as the index of the first match. */
  function FirstMatch(accepted: seq<string>, tok: string): (r: Option<nat>)
    ensures r.Some? ==>
      && r.value < |accepted| && Lower(accepted[r.value]) == Lower(tok)
      && forall j :: 0 <= j < r.value ==> Lower(accepted[j]) != Lower(tok)
    ensures r.None? ==> forall j :: 0 <= j < |accepted| ==> Lower(accepted[j]) != Lower(tok)
    decreases |accepted|
  {
    if |accepted| == 0 then None
    else if Lower(accepted[0]) == Lower(tok) then Some(0)
    else
      var m := FirstMatch(accepted[1..], tok);
      if m.Some? then Some(m.value + 1) else None
  }

  /** The accepted entries, an absent list counting as empty. */
  function AcceptedOf(cfg: OneOfCfg): seq<string>
  {
    if cfg.accepted.Some? then cfg.accepted.value else []
  }

  /** Case-sensitive matching, the default when `caseSensitive` is absent. */
  predicate CaseSensitive(cfg: OneOfCfg)
  {
    cfg.caseSensitive.None? || cfg.caseSensitive.value
  }

  /**
   * `Parsers.oneOf`: the first token is looked up among the accepted entries;
   * a match that is the empty string counts as a miss, and a miss still
   * consumes the token.
   */
  function OneOf(ts: seq<Token>, cfg: OneOfCfg): (r: ParserResult)
    ensures r.result.WellFormed() && IsSuffix(r.unconsumed, ts)
    ensures |ts| == 0 ==> AnswersEmptyInput(r, StringDefault(cfg.default))
    ensures |ts| > 0 ==> r.unconsumed == ts[1..] && r.result.raw == Some(ts[0].token)
    ensures |ts| > 0 && r.result.error.Some? ==> r.result.error == Some(ValueNotListed)
  {
    if |ts| == 0 then Empty(StringDefault(cfg.default))
    else
      var accepted := AcceptedOf(cfg);
      var toParse := ts[0].token;
      var item: Option<string> :=
        if CaseSensitive(cfg) then (if toParse in accepted then Some(toParse) else None)
        else (var m := FirstMatch(accepted, toParse); if m.Some? then Some(accepted[m.value]) else None);
      if item.Some? && item.value != "" then Ok(Str(item.value), Some(toParse), ts[1..])
      else Err(ValueNotListed, Some(toParse), ts[1..])
  }

  /** Case-sensitive mode accepts exactly a non-empty token listed verbatim, and returns it. */
  lemma OneOfExactMembership(ts: seq<Token>, cfg: OneOfCfg)
    requires |ts| > 0 && CaseSensitive(cfg)
    ensures var r := OneOf(ts, cfg);
      && (r.result.error.None? <==> ts[0].token != "" && ts[0].token in AcceptedOf(cfg))
      && (r.result.error.None? ==> r.result.value == Some(Str(ts[0].token)))
  {
  }

  /**
   * Case-insensitive mode accepts a non-empty token that matches some entry
   * under lower-casing, and returns the first such entry in its accepted
   * (canonical) spelling, while the raw text stays the user's token.
   */
  lemma OneOfCanonicalForm(ts: seq<Token>, cfg: OneOfCfg)
    requires |ts| > 0 && !CaseSensitive(cfg)
    ensures var r := OneOf(ts, cfg);
      var acc := AcceptedOf(cfg);
      var tok := ts[0].token;
      && (r.result.error.None? <==>
            tok != "" && exists i :: 0 <= i < |acc| && Lower(acc[i]) == Lower(tok))
      && (forall i ::
            (0 <= i < |acc| && Lower(acc[i]) == Lower(tok) && tok != "" &&
             forall j :: 0 <= j < i ==> Lower(acc[j]) != Lower(tok)) ==>
            r.result.value == Some(Str(acc[i])))
  {
    var acc := AcceptedOf(cfg);
    var tok := ts[0].token;
    var m := FirstMatch(acc, tok);
    if m.Some? {
      assert |acc[m.value]| == |Lower(acc[m.value])| == |Lower(tok)| == |tok|;
      forall i | 0 <= i < |acc| && Lower(acc[i]) == Lower(tok) && (forall j :: 0 <= j < i ==> Lower(acc[j]) != Lower(tok))
        ensures i == m.value
      {
      }
    }
  }

  /**
   * `Parsers.rest`: everything left, never an error, nothing unconsumed. The
   * value joins the token texts with single spaces; the raw text is the
   * original line from the first remaining token on.
   */
  function Rest(line: string, ts: seq<Token>): (r: ParserResult)
    ensures r.unconsumed == [] && r.result.error.None? && r.result.WellFormed()
    ensures r.result.value.Some? && r.result.value.value.Str? && r.result.raw.Some?
    ensures |ts| > 0 ==> |r.result.value.value.s| >= |ts[0].token| && r.result.value.value.s[..|ts[0].token|] == ts[0].token
    ensures Valid(line, ts) && |ts| > 0 ==> r.result.raw == Some(line[ts[0].start..])
  {
    assert Valid(line, ts) && |ts| > 0 ==> ts[0].start <= ts[0].end <= |line| && SpanFrom(line, ts) == line[ts[0].start..|line|] == line[ts[0].start..];
    ParserResult(ParsedArgument(Some(Str(Join(Texts(ts), " "))), Some(SpanFrom(line, ts)), None), [])
  }

  lemma RestOfNothing(line: string)
    ensures Rest(line, []).result == ParsedArgument(Some(Str("")), Some(""), None)
  {
  }

  /** On a single-spaced line the value and the raw text of `rest` are the same original text. */
  lemma RestOfSingleSpacedLine(line: string, ts: seq<Token>)
    requires SingleSpaced(line, ts) && |ts| > 0
    ensures Rest(line, ts).result.value == Some(Str(line[ts[0].start..]))
    ensures Rest(line, ts).result.raw == Some(line[ts[0].start..])
  {
    JoinRebuildsSingleSpaced(line, ts);
    assert ts[0].start <= ts[0].end <= |line|;
    assert line[ts[0].start..|line|] == line[ts[0].start..];
  }
}
