/**
 * Parser configurations and the checks run on them once, when a step is
 * added to a builder. A failed check is reported with the message the
 * source throws.
 */
module ParsersCfg {
  import opened Wrappers

  /** A number converter; `None` stands for a conversion that yields NaN. */
  type Converter = string -> Option<real>

  /** The configuration every parser accepts: an optional default for an empty input. */
  datatype BasicCfg<T> = BasicCfg(default: Option<T>)

  /**
   * Number parser configuration. The three flags are `boolean | undefined`
   * in the source and are only tested for truthiness, so an absent flag is
   * `false` here.
   */
  datatype NumberCfg = NumberCfg(
    default: Option<real>,
    min: Option<real>,
    max: Option<real>,
    round: bool,
    rejectFloats: bool,
    strict: bool,
    parser: Option<Converter>)

  /** One-of parser configuration; `caseSensitive` stays optional because its absence means `true`. */
  datatype OneOfCfg = OneOfCfg(default: Option<string>, accepted: Option<seq<string>>, caseSensitive: Option<bool>)

  /** `x` satisfies each bound that is present; both bounds are inclusive. */
  predicate InRange(x: real, min: Option<real>, max: Option<real>)
  {
    (min.None? || min.value <= x) && (max.None? || x <= max.value)
  }

  const MinAboveMax := "min can not be greater than max!"
  const DefaultBelowMin := "Default value should be greater than min"
  const DefaultAboveMax := "Default value should be lesser than max"

  /** `validateNumberParserCfg`: bounds in order, then the default against each bound. */
  function ValidateNumberCfg(cfg: NumberCfg): (r: Outcome<string>)
    ensures r.Pass? <==>
      && !(cfg.min.Some? && cfg.max.Some? && cfg.min.value > cfg.max.value)
      && (cfg.default.Some? ==> InRange(cfg.default.value, cfg.min, cfg.max))
    ensures r.Fail? ==> r.error in {MinAboveMax, DefaultBelowMin, DefaultAboveMax}
    ensures r == Fail(MinAboveMax) <==> cfg.min.Some? && cfg.max.Some? && cfg.min.value > cfg.max.value
  {
    if cfg.min.Some? && cfg.max.Some? && cfg.min.value > cfg.max.value then
      Fail(MinAboveMax)
    else if cfg.default.Some? && cfg.min.Some? && cfg.default.value < cfg.min.value then
      Fail(DefaultBelowMin)
    else if cfg.default.Some? && cfg.max.Some? && cfg.default.value > cfg.max.value then
      Fail(DefaultAboveMax)
    else
      Pass
  }

  /** The flags and the converter are never inspected: only bounds and default decide. */
  lemma ValidateNumberIgnoresFlags(cfg: NumberCfg, round: bool, rejectFloats: bool, strict: bool, parser: Option<Converter>)
    ensures ValidateNumberCfg(cfg) ==
            ValidateNumberCfg(cfg.(round := round, rejectFloats := rejectFloats, strict := strict, parser := parser))
  {
  }

  /** With no bounds and no default a number configuration is always accepted. */
  lemma UnconstrainedNumberCfgAccepted(cfg: NumberCfg)
    requires cfg.min.None? && cfg.max.None? && cfg.default.None?
    ensures ValidateNumberCfg(cfg) == Pass
  {
  }

  /** The message thrown for a one-of default outside the accepted values. */
  function DefaultNotAccepted(d: string): string
  {
    "The default value " + d + " is not included into the accepted values!"
  }

  /**
   * `validateOneOfParserCfg`: a truthy default (present and not empty) must be
   * one of the accepted values; with no accepted list it is always rejected.
   */
  function ValidateOneOfCfg(cfg: OneOfCfg): (r: Outcome<string>)
    ensures r.Pass? <==>
      cfg.default.None? || cfg.default.value == "" ||
      (cfg.accepted.Some? && cfg.default.value in cfg.accepted.value)
    ensures r.Fail? ==> r.error == DefaultNotAccepted(cfg.default.value)
  {
    if cfg.default.Some? && cfg.default.value != "" then
      if cfg.accepted.None? || cfg.default.value !in cfg.accepted.value then
        Fail(DefaultNotAccepted(cfg.default.value))
      else
        Pass
    else
      Pass
  }
}
