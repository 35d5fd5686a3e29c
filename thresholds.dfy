/**
 * The configuration of the regime engine and the threshold sets derived from
 * it (history_store.py, `_normalise_thresholds` and `_get_regime_thresholds`).
 */
module ThresholdResolver {

  import opened Optional
  import opened RegimeTypes

  /**
   * The environment values the engine reads, already converted to numbers
   * (an unset or unparseable variable has taken its documented default).
   */
  datatype Config = Config(
    regimeMethod: string,            // REGIME_METHOD
    phase2Threshold: real,           // PHASE_2_THRESHOLD
    phase2ExitThreshold: real,       // PHASE_2_EXIT_THRESHOLD
    phase3Threshold: real,           // PHASE_3_THRESHOLD
    phase3ExitThreshold: real,       // PHASE_3_EXIT_THRESHOLD
    zPhase2Enter: real,              // REGIME_Z_PHASE2_ENTER
    zPhase2Exit: real,               // REGIME_Z_PHASE2_EXIT
    zPhase3Enter: real,              // REGIME_Z_PHASE3_ENTER
    zPhase3Exit: real,               // REGIME_Z_PHASE3_EXIT
    pctPhase2Enter: real,            // REGIME_PCT_PHASE2_ENTER
    pctPhase2Exit: real,             // REGIME_PCT_PHASE2_EXIT
    pctPhase3Enter: real,            // REGIME_PCT_PHASE3_ENTER
    pctPhase3Exit: real,             // REGIME_PCT_PHASE3_EXIT
    zLookback: int,                  // REGIME_Z_LOOKBACK
    pctLookback: int,                // REGIME_PCT_LOOKBACK
    autoZMinSamples: int,            // REGIME_AUTO_Z_MIN_SAMPLES
    autoPctMinSamples: int)          // REGIME_AUTO_PCT_MIN_SAMPLES

  /** Every variable unset. */
  const DefaultConfig: Config := Config(
    "auto",
    2.0, 1.5, 4.0, 3.0,
    0.25, 0.0, 1.0, 0.6,
    60.0, 50.0, 85.0, 70.0,
    180, 180, 90, 180)

  /** The three threshold sets, one per value scale. */
  datatype ThresholdTable = ThresholdTable(absolute: Thresholds, zscore: Thresholds, percentile: Thresholds)

  function Min(a: real, b: real): real
  {
    if a <= b then a else b
  }

  /**
   * An (enter, exit) pair made safe for hysteresis: enter is kept, and the exit
   * is the configured one unless it is missing or looser than enter, when it
   * collapses to enter.
   */
  function NormaliseThresholds(enter: real, exit: Option<real>): (r: (real, real))
    ensures r.0 == enter
    ensures r.1 <= enter
    ensures exit.None? ==> r.1 == enter
    ensures exit.Some? ==> r.1 == Min(exit.value, enter)
  {
    if exit.None? then (enter, enter)
    else if exit.value > enter then (enter, enter)
    else (enter, exit.value)
  }

  /** Both phases of one threshold set, normalised. */
  function NormalisedSet(phase2Enter: real, phase2Exit: real, phase3Enter: real, phase3Exit: real): (t: Thresholds)
    ensures Ordered(t)
    ensures t.phase2Enter == phase2Enter && t.phase3Enter == phase3Enter
    ensures t.phase2Exit == Min(phase2Exit, phase2Enter) && t.phase3Exit == Min(phase3Exit, phase3Enter)
  {
    var (p2Enter, p2Exit) := NormaliseThresholds(phase2Enter, Some(phase2Exit));
    var (p3Enter, p3Exit) := NormaliseThresholds(phase3Enter, Some(phase3Exit));
    Thresholds(p2Enter, p2Exit, p3Enter, p3Exit)
  }

  /** Every table the resolver builds has non-inverted bands in all three scales. */
  predicate TableOrdered(table: ThresholdTable)
  {
    Ordered(table.absolute) && Ordered(table.zscore) && Ordered(table.percentile)
  }

  /**
   * The absolute, z-score and percentile threshold sets: each keeps the
   * configured enter values and clamps each exit to at most its enter.
   */
  function ResolveThresholds(cfg: Config): (table: ThresholdTable)
    ensures TableOrdered(table)
    ensures table.absolute.phase2Enter == cfg.phase2Threshold && table.absolute.phase3Enter == cfg.phase3Threshold
    ensures table.absolute.phase2Exit == Min(cfg.phase2ExitThreshold, cfg.phase2Threshold)
    ensures table.absolute.phase3Exit == Min(cfg.phase3ExitThreshold, cfg.phase3Threshold)
    ensures table.zscore.phase2Enter == cfg.zPhase2Enter && table.zscore.phase3Enter == cfg.zPhase3Enter
    ensures table.zscore.phase2Exit == Min(cfg.zPhase2Exit, cfg.zPhase2Enter)
    ensures table.zscore.phase3Exit == Min(cfg.zPhase3Exit, cfg.zPhase3Enter)
    ensures table.percentile.phase2Enter == cfg.pctPhase2Enter && table.percentile.phase3Enter == cfg.pctPhase3Enter
    ensures table.percentile.phase2Exit == Min(cfg.pctPhase2Exit, cfg.pctPhase2Enter)
    ensures table.percentile.phase3Exit == Min(cfg.pctPhase3Exit, cfg.pctPhase3Enter)
  {
    ThresholdTable(
      NormalisedSet(cfg.phase2Threshold, cfg.phase2ExitThreshold, cfg.phase3Threshold, cfg.phase3ExitThreshold),
      NormalisedSet(cfg.zPhase2Enter, cfg.zPhase2Exit, cfg.zPhase3Enter, cfg.zPhase3Exit),
      NormalisedSet(cfg.pctPhase2Enter, cfg.pctPhase2Exit, cfg.pctPhase3Enter, cfg.pctPhase3Exit))
  }

  /** With nothing configured the documented defaults come out unchanged (none of them is inverted). */
  lemma DefaultThresholds()
    ensures ResolveThresholds(DefaultConfig) == ThresholdTable(
      Thresholds(2.0, 1.5, 4.0, 3.0),
      Thresholds(0.25, 0.0, 1.0, 0.6),
      Thresholds(60.0, 50.0, 85.0, 70.0))
  {
  }

  /** An inverted configured pair collapses the exit onto the enter. */
  lemma InvertedExitCollapses(enter: real, exit: real)
    requires exit > enter
    ensures NormaliseThresholds(enter, Some(exit)) == (enter, enter)
  {
  }

}
