/**
 * What `compute_regime` (history_store.py) guarantees: the edge cases of the
 * orchestrator, the two scenarios of scripts/check_history_store.py, and the
 * calibration thresholds that the as-written dispatch discards.
 */
module RegimeProperties {

  import opened Optional
  import opened RegimeTypes
  import opened ThresholdResolver
  import opened CalibrationLoader
  import opened HysteresisClassifier
  import opened ValueTransformer
  import opened MethodSelector
  import opened RegimeComputer

  /** The method `_select_regime_method` picks for these rows. */
  function SelectedMethod(rows: seq<Row>, cfg: Config, file: Option<Json>): Method
  {
    SelectRegimeMethod(cfg.regimeMethod, LoadCalibration(file), |Scores(rows)|, cfg.autoZMinSamples, cfg.autoPctMinSamples)
  }

  /** The method the dispatch starts from once "calibrated" is resolved. */
  function Resolved(rows: seq<Row>, cfg: Config, file: Option<Json>): Method
  {
    EffectiveMethod(SelectedMethod(rows, cfg, file), LoadCalibration(file))
  }

  /** The z-score is applied exactly when it was asked for and its sample is not constant; otherwise absolute takes over. */
  lemma ZScoreNeedsSpread(rows: seq<Row>, windowDays: int, trendDays: int, minDays: int, cfg: Config,
                          file: Option<Json>, sqrt: real -> real)
    requires SqrtPositive(sqrt)
    requires Scores(rows) != []
    ensures var r := Regime(rows, windowDays, trendDays, minDays, cfg, file, sqrt);
      r.regimeMethod == Some(ZScore) <==>
        Resolved(rows, cfg, file) == ZScore && !Constant(ZSample(Scores(rows), cfg))
    ensures var r := Regime(rows, windowDays, trendDays, minDays, cfg, file, sqrt);
      Resolved(rows, cfg, file) == ZScore && Constant(ZSample(Scores(rows), cfg)) ==>
        r.regimeMethod == Some(Absolute) && r.value == r.score
  {
    var s := Scores(rows);
    ZeroVarianceIffConstant(ZSample(s, cfg));
  }

  /**
   * "Alta" exactly when there are scores, the window holds at least
   * `minDays` of them, and the transform applied has its sample tier.
   */
  lemma ConfidenceRule(rows: seq<Row>, windowDays: int, trendDays: int, minDays: int, cfg: Config,
                       file: Option<Json>, sqrt: real -> real)
    requires SqrtPositive(sqrt)
    ensures var r := Regime(rows, windowDays, trendDays, minDays, cfg, file, sqrt);
      var s := Scores(rows);
      r.confidence == Alta <==>
        && s != []
        && |Lookback(s, windowDays)| >= minDays
        && (r.regimeMethod == Some(ZScore) ==> |s| >= cfg.autoZMinSamples)
        && (r.regimeMethod == Some(Percentile) ==> |s| >= cfg.autoPctMinSamples)
  {
  }

  /** The trend of the record is the trend rule applied to all the scores. */
  lemma TrendRule(rows: seq<Row>, windowDays: int, trendDays: int, minDays: int, cfg: Config,
                  file: Option<Json>, sqrt: real -> real)
    requires SqrtPositive(sqrt)
    requires Scores(rows) != []
    ensures var r := Regime(rows, windowDays, trendDays, minDays, cfg, file, sqrt);
      var (trend, trendScore) := TrendOf(Scores(rows), trendDays);
      r.trend == Some(trend) && r.trendScore == trendScore
  {
  }

  /** A REGIME_METHOD naming no known method leaves the value unset and the phase where it was. */
  lemma UnrecognisedKeepsPhase(rows: seq<Row>, windowDays: int, trendDays: int, minDays: int, cfg: Config,
                               file: Option<Json>, sqrt: real -> real)
    requires SqrtPositive(sqrt)
    requires Scores(rows) != []
    requires Lower(cfg.regimeMethod) !in {"auto", "absolute", "zscore", "percentile", "calibrated"}
    ensures var r := Regime(rows, windowDays, trendDays, minDays, cfg, file, sqrt);
      && r.value.None?
      && r.phase == Some(PreviousPhase(rows, Scores(rows), ResolveThresholds(cfg).absolute))
      && r.regimeMethod == Some(Unrecognised(Lower(cfg.regimeMethod)))
  {
  }

  /** An explicit "calibrated" with no valid artifact is the absolute transform. */
  lemma CalibratedWithoutArtifact(rows: seq<Row>, windowDays: int, trendDays: int, minDays: int, cfg: Config,
                                  file: Option<Json>, sqrt: real -> real)
    requires SqrtPositive(sqrt)
    requires Scores(rows) != []
    requires Lower(cfg.regimeMethod) == "calibrated"
    requires !WellFormed(file)
    ensures var r := Regime(rows, windowDays, trendDays, minDays, cfg, file, sqrt);
      && r.regimeMethod == Some(Absolute)
      && r.value == r.score
      && r.phase == Some(ApplyHysteresis(r.score, Some(PreviousPhase(rows, Scores(rows), ResolveThresholds(cfg).absolute)),
                                         ResolveThresholds(cfg).absolute))
  {
  }

  /**
   * Under "auto" a valid artifact decides the method however long the
   * history: its value type is applied (absolute instead when it is the
   * z-score and the sample is constant).
   */
  lemma CalibrationPrecedence(rows: seq<Row>, windowDays: int, trendDays: int, minDays: int, cfg: Config,
                              file: Option<Json>, sqrt: real -> real)
    requires SqrtPositive(sqrt)
    requires Scores(rows) != []
    requires Lower(cfg.regimeMethod) == "auto"
    requires WellFormed(file)
    ensures SelectedMethod(rows, cfg, file) == Calibrated
    ensures var r := Regime(rows, windowDays, trendDays, minDays, cfg, file, sqrt);
      var valueType := LoadCalibration(file).value.valueType;
      r.regimeMethod == Some(if valueType == ZScore && Constant(ZSample(Scores(rows), cfg)) then Absolute else valueType)
  {
    ZeroVarianceIffConstant(ZSample(Scores(rows), cfg));
  }

  /** A percentile value is a rank between 0 and 100. */
  lemma PercentileValueInRange(rows: seq<Row>, windowDays: int, trendDays: int, minDays: int, cfg: Config,
                               file: Option<Json>, sqrt: real -> real)
    requires SqrtPositive(sqrt)
    requires Regime(rows, windowDays, trendDays, minDays, cfg, file, sqrt).regimeMethod == Some(Percentile)
    ensures var r := Regime(rows, windowDays, trendDays, minDays, cfg, file, sqrt);
      r.value.Some? && 0.0 <= r.value.value <= 100.0
  {
  }

  /** A z-score value is positive exactly when the windowed mean lies above the sample mean. */
  lemma ZScoreSign(rows: seq<Row>, windowDays: int, trendDays: int, minDays: int, cfg: Config,
                   file: Option<Json>, sqrt: real -> real)
    requires SqrtPositive(sqrt)
    requires Regime(rows, windowDays, trendDays, minDays, cfg, file, sqrt).regimeMethod == Some(ZScore)
    ensures var r := Regime(rows, windowDays, trendDays, minDays, cfg, file, sqrt);
      r.value.Some? && r.score.Some? &&
      (r.value.value > 0.0 <==> r.score.value > Mean(ZSample(Scores(rows), cfg)))
  {
    var s := Scores(rows);
    assert s != [];
    RegimeFields(rows, windowDays, trendDays, minDays, cfg, file, sqrt);
    var sample := ZSample(s, cfg);
    var score := Mean(Lookback(s, windowDays));
    var d := Transform(SelectedMethod(rows, cfg, file), LoadCalibration(file), s, score, cfg, ResolveThresholds(cfg), sqrt);
    assert d.applied == ZScore;
    QuotientSign(score - Mean(sample), sqrt(Variance(sample)));
  }

  /** The phase, score, value and method of a record, as the dispatch computes them. */
  lemma RegimeFields(rows: seq<Row>, windowDays: int, trendDays: int, minDays: int, cfg: Config,
                     file: Option<Json>, sqrt: real -> real)
    requires SqrtPositive(sqrt)
    requires Scores(rows) != []
    ensures var r := Regime(rows, windowDays, trendDays, minDays, cfg, file, sqrt);
      var s := Scores(rows);
      var score := Mean(Lookback(s, windowDays));
      var d := Transform(SelectedMethod(rows, cfg, file), LoadCalibration(file), s, score, cfg, ResolveThresholds(cfg), sqrt);
      && r.phase == Some(ApplyHysteresis(d.value, Some(PreviousPhase(rows, s, ResolveThresholds(cfg).absolute)), d.thresholds))
      && r.score == Some(score) && r.value == d.value && r.regimeMethod == Some(d.applied)
  {
  }

  /** Dividing by a positive number keeps the sign (a step of ZScoreSign). */
  lemma QuotientSign(x: real, y: real)
    requires y > 0.0
    ensures x / y > 0.0 <==> x > 0.0
  {
    var q := x / y;
    assert q * y == x;
    if q > 0.0 {
      assert q * y > 0.0 * y;
    }
  }

  // ---------------------------------------------------------------------------
  // The environment of scripts/check_history_store.py and its two checks.

  /** REGIME_METHOD=absolute and the default absolute thresholds 2.0/1.5 and 4.0/3.0. */
  const CheckConfig: Config := DefaultConfig.(regimeMethod := "absolute")

  /**
   * Under REGIME_METHOD=absolute the phase is the hysteresis of the windowed
   * mean against the absolute thresholds, from the previous phase.
   */
  lemma AbsoluteRegime(rows: seq<Row>, windowDays: int, trendDays: int, minDays: int, cfg: Config,
                       file: Option<Json>, sqrt: real -> real)
    requires SqrtPositive(sqrt)
    requires Scores(rows) != []
    requires Lower(cfg.regimeMethod) == "absolute"
    ensures var r := Regime(rows, windowDays, trendDays, minDays, cfg, file, sqrt);
      var s := Scores(rows);
      var score := Mean(Lookback(s, windowDays));
      var absolute := ResolveThresholds(cfg).absolute;
      && r.phase == Some(ApplyHysteresis(Some(score), Some(PreviousPhase(rows, s, absolute)), absolute))
      && r.score == Some(score)
      && r.trend == Some(TrendOf(s, trendDays).0)
      && r.trendScore == TrendOf(s, trendDays).1
      && r.confidence == (if |Lookback(s, windowDays)| >= minDays then Alta else Baja)
  {
  }

  /** The scores of the first check: ten days at 1. */
  const LowStress: seq<real> := seq(10, i => 1.0)

  /** The scores of the second check. */
  const RisingStress: seq<real> := [1.0, 1.0, 2.0, 3.0, 4.0, 4.0, 4.0, 5.0, 5.0, 5.0]

  lemma LowStressFacts()
    ensures Scores(History(LowStress)) == LowStress
    ensures Mean(Lookback(LowStress, 7)) == 1.0
    ensures PreviousPhase(History(LowStress), LowStress, ResolveThresholds(CheckConfig).absolute) == Auge
    ensures TrendDelta(LowStress, 3) == 0.0
  {
    ScoresOfHistory(LowStress);
    MeanConstant(Lookback(LowStress, 7), 1.0);
    HistoryHasNoPhase(LowStress);
    DefaultThresholds();
    MeanConstant(LowStress[7..], 1.0);
    MeanConstant(LowStress[4..7], 1.0);
  }

  /** The last seven scores of the second check sum to 30. */
  lemma RisingWindow()
    ensures Mean(Lookback(RisingStress, 7)) == 30.0 / 7.0
  {
    var w := Lookback(RisingStress, 7);
    assert w == [3.0] + RisingStress[4..7] + RisingStress[7..];
    SumConstant(RisingStress[4..7], 4.0);
    SumConstant(RisingStress[7..], 5.0);
    SumAppend([3.0] + RisingStress[4..7], RisingStress[7..]);
    SumAppend([3.0], RisingStress[4..7]);
    assert Sum(w) == 30.0;
  }

  lemma RisingStressFacts()
    ensures Scores(History(RisingStress)) == RisingStress
    ensures Mean(Lookback(RisingStress, 7)) == 30.0 / 7.0
    ensures PreviousPhase(History(RisingStress), RisingStress, ResolveThresholds(CheckConfig).absolute) == Quiebre
    ensures TrendDelta(RisingStress, 3) == 1.0
  {
    ScoresOfHistory(RisingStress);
    RisingWindow();
    HistoryHasNoPhase(RisingStress);
    DefaultThresholds();
    MeanConstant(RisingStress[7..], 5.0);
    MeanConstant(RisingStress[4..7], 4.0);
  }

  /** Ten days of score 1 (window 7, trend 3, minimum 5): phase 1, stable, confident. */
  lemma LowStressScenario(rows: seq<Row>, file: Option<Json>, sqrt: real -> real)
    requires rows == History(LowStress)
    requires SqrtPositive(sqrt)
    ensures var r := Regime(rows, 7, 3, 5, CheckConfig, file, sqrt);
      r.phase == Some(Auge) && r.trend == Some(Estable) && r.confidence == Alta
  {
    LowStressFacts();
    var s := Scores(rows);
    var absolute := ResolveThresholds(CheckConfig).absolute;
    assert absolute == Thresholds(2.0, 1.5, 4.0, 3.0);
    LowerOfLowercase("absolute");
    AbsoluteRegime(rows, 7, 3, 5, CheckConfig, file, sqrt);
    assert ApplyHysteresis(Some(1.0), Some(Auge), absolute) == Auge;
    assert |Lookback(s, 7)| == 7;
  }

  /**
   * Scores 1,1,2,3,4,4,4,5,5,5: the last score enters phase 3 and the windowed
   * mean 30/7 stays above its exit; the last three days average one point
   * above the three before.
   */
  lemma RisingStressScenario(rows: seq<Row>, file: Option<Json>, sqrt: real -> real)
    requires rows == History(RisingStress)
    requires SqrtPositive(sqrt)
    ensures var r := Regime(rows, 7, 3, 5, CheckConfig, file, sqrt);
      && r.phase == Some(Quiebre)
      && r.trend == Some(Ascendente)
      && r.score == Some(30.0 / 7.0)
      && r.trendScore == Some(1.0)
  {
    RisingStressFacts();
    DefaultThresholds();
    LowerOfLowercase("absolute");
    AbsoluteRegime(rows, 7, 3, 5, CheckConfig, file, sqrt);
  }

  // ---------------------------------------------------------------------------
  // The calibration thresholds (history_store.py:421) are always overwritten.

  /** As written, the result depends on a valid artifact only through its value type. */
  lemma AsWrittenIgnoresCalibrationThresholds(rows: seq<Row>, windowDays: int, trendDays: int, minDays: int,
                                              cfg: Config, file1: Option<Json>, file2: Option<Json>, sqrt: real -> real)
    requires SqrtPositive(sqrt)
    requires WellFormed(file1) && WellFormed(file2)
    requires LoadCalibration(file1).value.valueType == LoadCalibration(file2).value.valueType
    ensures Regime(rows, windowDays, trendDays, minDays, cfg, file1, sqrt)
         == Regime(rows, windowDays, trendDays, minDays, cfg, file2, sqrt)
  {
  }

  /** An artifact asking for phase 3 from 1.0 on the absolute scale. */
  const LowCalibration: Option<Json> := Some(JObject(map[
    "value_type" := JString("absolute"),
    "phase2_enter" := JNumber(0.5),
    "phase2_exit" := JNumber(0.5),
    "phase3_enter" := JNumber(1.0),
    "phase3_exit" := JNumber(1.0)]))

  /**
   * One day at score 2.0 with that artifact: as written the default absolute
   * thresholds classify it as phase 2; with the artifact's own thresholds it
   * is phase 3.
   */
  lemma CalibrationThresholdsDiscarded(sqrt: real -> real)
    requires SqrtPositive(sqrt)
    ensures Regime(History([2.0]), 7, 3, 5, DefaultConfig, LowCalibration, sqrt).phase == Some(Especulacion)
    ensures RegimeCorrected(History([2.0]), 7, 3, 5, DefaultConfig, LowCalibration, sqrt).phase == Some(Quiebre)
  {
    ScoresOfHistory([2.0]);
    HistoryHasNoPhase([2.0]);
    MeanConstant(Lookback([2.0], 7), 2.0);
    LowerOfLowercase("auto");
    LowCalibrationLoaded();
    DefaultThresholds();
  }

  lemma LowCalibrationLoaded()
    ensures LoadCalibration(LowCalibration) == Some(Calibration(Absolute, Thresholds(0.5, 0.5, 1.0, 1.0)))
  {
    assert WellFormed(LowCalibration);
  }

  /**
   * Corrected: when "calibrated" is selected and the artifact's value type is
   * the transform applied, the artifact's own thresholds classify the value.
   */
  lemma CorrectedHonoursCalibration(rows: seq<Row>, windowDays: int, trendDays: int, minDays: int, cfg: Config,
                                    file: Option<Json>, sqrt: real -> real)
    requires SqrtPositive(sqrt)
    requires Scores(rows) != []
    requires SelectedMethod(rows, cfg, file) == Calibrated
    requires WellFormed(file)
    requires Regime(rows, windowDays, trendDays, minDays, cfg, file, sqrt).regimeMethod
          == Some(LoadCalibration(file).value.valueType)
    ensures var r := RegimeCorrected(rows, windowDays, trendDays, minDays, cfg, file, sqrt);
      r.phase == Some(ApplyHysteresis(r.value, Some(PreviousPhase(rows, Scores(rows), ResolveThresholds(cfg).absolute)),
                                      LoadCalibration(file).value.thresholds))
  {
  }

  /** Corrected: without "calibrated" selected the corrected record is the as-written one. */
  lemma CorrectedAgreesWithoutCalibration(rows: seq<Row>, windowDays: int, trendDays: int, minDays: int, cfg: Config,
                                          file: Option<Json>, sqrt: real -> real)
    requires SqrtPositive(sqrt)
    requires SelectedMethod(rows, cfg, file) != Calibrated
    ensures RegimeCorrected(rows, windowDays, trendDays, minDays, cfg, file, sqrt)
         == Regime(rows, windowDays, trendDays, minDays, cfg, file, sqrt)
  {
  }

}
