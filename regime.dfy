/**
 * `compute_regime` (history_store.py): from a chronological list of daily
 * rows to one regime record. The specification is the function Regime,
 * composed of small rules; ComputeRegime is the step-by-step procedure of the
 * source, with its backward scan for the last recorded phase, proved equal to
 * it.
 */
module RegimeComputer {

  import opened Optional
  import opened RegimeTypes
  import opened ThresholdResolver
  import opened CalibrationLoader
  import opened HysteresisClassifier
  import opened ValueTransformer
  import opened MethodSelector

  /** One stored daily row: its `phase_score` and its `regime_phase` text ("" when null or empty). */
  datatype Row = Row(phaseScore: Option<real>, regimePhase: string)

  /** The regime record. The empty record has no `regime_value` key; here that is a None value. */
  datatype RegimeResult = RegimeResult(
    phase: Option<Phase>,
    score: Option<real>,
    trend: Option<Trend>,
    confidence: Confidence,
    windowDays: int,
    trendScore: Option<real>,
    regimeMethod: Option<Method>,
    value: Option<real>)

  /** The record for a history without a single score. */
  function EmptyRegime(windowDays: int): RegimeResult
  {
    RegimeResult(None, None, None, Baja, windowDays, None, None, None)
  }

  /** The non-null scores, in order. */
  function Scores(rows: seq<Row>): (s: seq<real>)
    ensures |s| <= |rows|
    ensures s == [] <==> forall i :: 0 <= i < |rows| ==> rows[i].phaseScore.None?
    decreases |rows|
  {
    if rows == [] then []
    else if rows[0].phaseScore.Some? then [rows[0].phaseScore.value] + Scores(rows[1..])
    else
      assert forall i :: 1 <= i < |rows| ==> rows[i] == rows[1..][i - 1];
      Scores(rows[1..])
  }

  /** One row contributes its score if it has one. */
  lemma ScoresOne(row: Row)
    ensures Scores([row]) == if row.phaseScore.Some? then [row.phaseScore.value] else []
  {
    assert [row][1..] == [];
  }

  /** The scores of consecutive rows are consecutive: the order of the rows is kept. */
  lemma {:induction false} ScoresAppend(a: seq<Row>, b: seq<Row>)
    ensures Scores(a + b) == Scores(a) + Scores(b)
    decreases |a|
  {
    if a == [] {
      assert a + b == b;
    } else {
      assert (a + b)[0] == a[0];
      assert (a + b)[1..] == a[1..] + b;
      ScoresAppend(a[1..], b);
    }
  }

  /** Rows as the history store writes them for a list of scores: no regime phase recorded yet. */
  function History(scores: seq<real>): seq<Row>
  {
    seq(|scores|, i requires 0 <= i < |scores| => Row(Some(scores[i]), ""))
  }

  /** Reading the scores back from such rows gives the list again. */
  lemma {:induction false} ScoresOfHistory(scores: seq<real>)
    ensures Scores(History(scores)) == scores
    decreases |scores|
  {
    if scores != [] {
      ScoresOfHistory(scores[1..]);
      assert History(scores)[1..] == History(scores[1..]);
    }
  }

  /**
   * The phase label of the latest row that has one: the backward scan of
   * `reversed(history_rows)` stopping at the first truthy `regime_phase`.
   */
  function LatestRecordedPhase(rows: seq<Row>): Option<Phase>
    decreases |rows|
  {
    if rows == [] then None
    else if rows[|rows| - 1].regimePhase != "" then ParsePhase(rows[|rows| - 1].regimePhase)
    else LatestRecordedPhase(rows[..|rows| - 1])
  }

  /** The scan finds nothing exactly when no row has a label. */
  lemma {:induction false} NoRecordedPhase(rows: seq<Row>)
    ensures LatestRecordedPhase(rows).None? <==> forall i :: 0 <= i < |rows| ==> rows[i].regimePhase == ""
    decreases |rows|
  {
    if rows != [] && rows[|rows| - 1].regimePhase == "" {
      var front := rows[..|rows| - 1];
      NoRecordedPhase(front);
      assert forall i :: 0 <= i < |front| ==> front[i] == rows[i];
    }
  }

  /** When the scan finds a label, it is that of a row after which no row has one. */
  lemma {:induction false} RecordedPhaseRow(rows: seq<Row>) returns (i: int)
    requires LatestRecordedPhase(rows).Some?
    ensures 0 <= i < |rows| && rows[i].regimePhase != ""
    ensures LatestRecordedPhase(rows) == ParsePhase(rows[i].regimePhase)
    ensures forall j :: i < j < |rows| ==> rows[j].regimePhase == ""
    decreases |rows|
  {
    if rows[|rows| - 1].regimePhase != "" {
      i := |rows| - 1;
    } else {
      var front := rows[..|rows| - 1];
      i := RecordedPhaseRow(front);
      assert rows[i] == front[i];
    }
  }

  /**
   * The scan finds nothing exactly when no row has a label; otherwise it finds
   * the label of a row after which no row has one.
   */
  lemma LatestRecordedPhaseSpec(rows: seq<Row>)
    ensures LatestRecordedPhase(rows).None? <==> forall i :: 0 <= i < |rows| ==> rows[i].regimePhase == ""
    ensures LatestRecordedPhase(rows).Some? ==> exists i :: (
      && 0 <= i < |rows| && rows[i].regimePhase != ""
      && LatestRecordedPhase(rows) == ParsePhase(rows[i].regimePhase)
      && forall j :: i < j < |rows| ==> rows[j].regimePhase == "")
  {
    NoRecordedPhase(rows);
    if LatestRecordedPhase(rows).Some? {
      var i := RecordedPhaseRow(rows);
    }
  }

  /** Rows written from scores alone carry no recorded phase. */
  lemma HistoryHasNoPhase(scores: seq<real>)
    ensures LatestRecordedPhase(History(scores)) == None
  {
    LatestRecordedPhaseSpec(History(scores));
  }

  /**
   * The phase in force before this classification: the latest recorded one,
   * or else the last score classified directly against the absolute thresholds.
   */
  function PreviousPhase(rows: seq<Row>, scores: seq<real>, absolute: Thresholds): (p: Phase)
    requires scores != []
    ensures LatestRecordedPhase(rows).Some? ==> p == LatestRecordedPhase(rows).value
    ensures LatestRecordedPhase(rows).None? ==> p == Direct(scores[|scores| - 1], absolute)
  {
    match LatestRecordedPhase(rows)
    case Some(p) => p
    case None => PhaseFromScore(Some(scores[|scores| - 1]), absolute)
  }

  /** The sample the z-score is computed over. */
  function ZSample(scores: seq<real>, cfg: Config): seq<real>
  {
    Lookback(scores, cfg.zLookback)
  }

  /** The sample the percentile rank is computed over. */
  function PctSample(scores: seq<real>, cfg: Config): seq<real>
  {
    Lookback(scores, cfg.pctLookback)
  }

  /** Every real square root is positive on positive arguments. */
  ghost predicate SqrtPositive(sqrt: real -> real)
  {
    forall v :: 0.0 < v ==> 0.0 < sqrt(v)
  }

  /** The method actually applied, the comparable value, and the threshold set in force. */
  datatype Dispatch = Dispatch(applied: Method, value: Option<real>, thresholds: Thresholds)

  /** What "calibrated" resolves to: the calibration's value type, or absolute when there is none. */
  function EffectiveMethod(selected: Method, calibration: Option<Calibration>): Method
  {
    if selected != Calibrated then selected
    else if calibration.Some? then calibration.value.valueType
    else Absolute
  }

  /**
   * The method dispatch of `compute_regime`, in the order of the source:
   * resolve "calibrated", then try the z-score (falling back to absolute on a
   * sample without spread), the percentile rank and the absolute value. A
   * method it does not recognise leaves the value unset.
   */
  function Transform(selected: Method, calibration: Option<Calibration>, scores: seq<real>, score: real,
                     cfg: Config, table: ThresholdTable, sqrt: real -> real): (d: Dispatch)
    requires scores != []
    requires SqrtPositive(sqrt)
    ensures var effective := EffectiveMethod(selected, calibration);
      d.applied == (if effective == ZScore && Variance(ZSample(scores, cfg)) == 0.0 then Absolute else effective)
    ensures d.applied == Absolute ==> d.value == Some(score) && d.thresholds == table.absolute
    ensures d.applied == ZScore ==>
      && Variance(ZSample(scores, cfg)) > 0.0
      && d.value == Some((score - Mean(ZSample(scores, cfg))) / sqrt(Variance(ZSample(scores, cfg))))
      && d.thresholds == table.zscore
    ensures d.applied == Percentile ==>
      d.value == PercentileRank(PctSample(scores, cfg), score) && d.thresholds == table.percentile
    ensures d.applied.Unrecognised? ==> d.value.None?
  {
    var (m1, t1) :=
      if selected == Calibrated then
        (if calibration.Some? then (calibration.value.valueType, calibration.value.thresholds)
         else (Absolute, table.absolute))
      else (selected, table.absolute);
    var (m2, v2, t2) :=
      if m1 == ZScore then
        var sample := ZSample(scores, cfg);
        ZeroVarianceIffConstant(sample);
        var variance := Variance(sample);
        if variance > 0.0 then (ZScore, Some((score - Mean(sample)) / sqrt(variance)), table.zscore)
        else (Absolute, None, t1)
      else (m1, None, t1);
    var (m3, v3, t3) :=
      if m2 == Percentile then (Percentile, PercentileRank(PctSample(scores, cfg), score), table.percentile)
      else (m2, v2, t2);
    if m3 == Absolute then Dispatch(Absolute, Some(score), table.absolute)
    else Dispatch(m3, v3, t3)
  }

  /**
   * The threshold set a calibration is evidently meant to supply: its own, when
   * "calibrated" was selected, a calibration exists and its value type is the
   * method finally applied; otherwise the set the dispatch chose.
   */
  function IntendedThresholds(selected: Method, calibration: Option<Calibration>, d: Dispatch): Thresholds
  {
    if selected == Calibrated && calibration.Some? && d.applied == calibration.value.valueType
    then calibration.value.thresholds
    else d.thresholds
  }

  /**
   * The threshold set the corrected model classifies with never has an
   * inverted band: it is either a calibration's own (normalised) set or one
   * of the configured tables.
   */
  lemma IntendedThresholdsOrdered(selected: Method, calibration: Option<Calibration>, scores: seq<real>, score: real,
                                  cfg: Config, table: ThresholdTable, sqrt: real -> real)
    requires scores != []
    requires SqrtPositive(sqrt)
    requires TableOrdered(table)
    requires calibration.Some? ==> Ordered(calibration.value.thresholds)
    ensures Ordered(IntendedThresholds(selected, calibration, Transform(selected, calibration, scores, score, cfg, table, sqrt)))
  {
  }

  /** "Alta" needs a full window and, for the z-score and percentile transforms, that transform's sample tier. */
  function ConfidenceOf(windowLength: int, minDays: int, applied: Method, n: int, zMin: int, pctMin: int): (c: Confidence)
    ensures c == Alta <==>
      && windowLength >= minDays
      && (applied == ZScore ==> n >= zMin)
      && (applied == Percentile ==> n >= pctMin)
  {
    var confidence := if windowLength >= minDays then Alta else Baja;
    var confidence' := if applied == ZScore && n < zMin then Baja else confidence;
    if applied == Percentile && n < pctMin then Baja else confidence'
  }

  /** The trend is measured only when the history holds two full trend windows. */
  predicate TrendMeasured(scores: seq<real>, trendDays: int)
  {
    trendDays > 0 && |scores| >= trendDays * 2
  }

  /** Mean of the last `trendDays` scores minus the mean of the `trendDays` before them. */
  function TrendDelta(scores: seq<real>, trendDays: int): real
    requires TrendMeasured(scores, trendDays)
  {
    var n := |scores|;
    Mean(scores[n - trendDays..]) - Mean(scores[n - trendDays * 2..n - trendDays])
  }

  /** The trend label and score: rising at +0.5 or more, falling at -0.5 or less, stable otherwise. */
  function TrendOf(scores: seq<real>, trendDays: int): (r: (Trend, Option<real>))
    ensures r.1.None? <==> !TrendMeasured(scores, trendDays)
    ensures r.1.None? ==> r.0 == Estable
    ensures r.1.Some? ==>
      && r.1.value == TrendDelta(scores, trendDays)
      && (r.0 == Ascendente <==> r.1.value >= 0.5)
      && (r.0 == Descendente <==> r.1.value <= -0.5)
  {
    if TrendMeasured(scores, trendDays) then
      var delta := TrendDelta(scores, trendDays);
      (if delta >= 0.5 then Ascendente else if delta <= -0.5 then Descendente else Estable, Some(delta))
    else (Estable, None)
  }

  /**
   * The regime record, with the threshold set either as the source leaves it
   * (`honourCalibration` false) or as a calibration evidently means it to be.
   */
  function RegimeUsing(rows: seq<Row>, windowDays: int, trendDays: int, minDays: int, cfg: Config,
                       file: Option<Json>, sqrt: real -> real, honourCalibration: bool): (r: RegimeResult)
    requires SqrtPositive(sqrt)
  {
    var scores := Scores(rows);
    if scores == [] then EmptyRegime(windowDays)
    else
      var window := Lookback(scores, windowDays);
      var score := Mean(window);
      var table := ResolveThresholds(cfg);
      var previous := PreviousPhase(rows, scores, table.absolute);
      var calibration := LoadCalibration(file);
      var selected := SelectRegimeMethod(cfg.regimeMethod, calibration, |scores|, cfg.autoZMinSamples, cfg.autoPctMinSamples);
      var d := Transform(selected, calibration, scores, score, cfg, table, sqrt);
      var thresholds := if honourCalibration then IntendedThresholds(selected, calibration, d) else d.thresholds;
      var (trend, trendScore) := TrendOf(scores, trendDays);
      RegimeResult(
        Some(ApplyHysteresis(d.value, Some(previous), thresholds)),
        Some(score),
        Some(trend),
        ConfidenceOf(|window|, minDays, d.applied, |scores|, cfg.autoZMinSamples, cfg.autoPctMinSamples),
        windowDays,
        trendScore,
        Some(d.applied),
        d.value)
  }

  /** `compute_regime` as written. */
  function Regime(rows: seq<Row>, windowDays: int, trendDays: int, minDays: int, cfg: Config,
                  file: Option<Json>, sqrt: real -> real): (r: RegimeResult)
    requires SqrtPositive(sqrt)
    ensures r.phase.None? <==> Scores(rows) == []
    ensures r.regimeMethod.None? <==> Scores(rows) == []
    ensures Scores(rows) == [] ==> r == EmptyRegime(windowDays)
    ensures r.windowDays == windowDays
    ensures r.regimeMethod.Some? ==> r.regimeMethod.value != Calibrated
  {
    RegimeUsing(rows, windowDays, trendDays, minDays, cfg, file, sqrt, false)
  }

  /** `compute_regime` with the calibration's thresholds applied to the value type they are tagged with. */
  function RegimeCorrected(rows: seq<Row>, windowDays: int, trendDays: int, minDays: int, cfg: Config,
                           file: Option<Json>, sqrt: real -> real): (r: RegimeResult)
    requires SqrtPositive(sqrt)
    ensures r.phase.None? <==> Scores(rows) == []
    ensures Scores(rows) == [] ==> r == EmptyRegime(windowDays)
  {
    RegimeUsing(rows, windowDays, trendDays, minDays, cfg, file, sqrt, true)
  }

  /** One step of the backward scan: look at row i - 1 of the first i rows. */
  lemma LatestRecordedPhaseStep(rows: seq<Row>, i: int)
    requires 0 < i <= |rows|
    ensures LatestRecordedPhase(rows[..i]) ==
      if rows[i - 1].regimePhase != "" then ParsePhase(rows[i - 1].regimePhase)
      else LatestRecordedPhase(rows[..i - 1])
  {
    var prefix := rows[..i];
    assert prefix[|prefix| - 1] == rows[i - 1];
    assert prefix[..|prefix| - 1] == rows[..i - 1];
  }

  /** The backward scan of `reversed(history_rows)`, stopping at the first row with a phase label. */
  method FindRecordedPhase(rows: seq<Row>) returns (recorded: Option<Phase>)
    ensures recorded == LatestRecordedPhase(rows)
  {
    recorded := None;
    var i := |rows|;
    assert rows[..i] == rows;
    while i > 0
      invariant 0 <= i <= |rows|
      invariant recorded.None? ==> LatestRecordedPhase(rows) == LatestRecordedPhase(rows[..i])
      invariant recorded.Some? ==> recorded == LatestRecordedPhase(rows)
      decreases i
    {
      LatestRecordedPhaseStep(rows, i);
      if rows[i - 1].regimePhase != "" {
        recorded := ParsePhase(rows[i - 1].regimePhase);
        break;
      }
      i := i - 1;
    }
    if recorded.None? {
      assert rows[..i] == [];
    }
  }

  /** The sequence of method reassignments of `compute_regime`, from the selected method to the applied one. */
  method DispatchMethod(selected: Method, calibration: Option<Calibration>, scores: seq<real>, score: real,
                        cfg: Config, table: ThresholdTable, sqrt: real -> real)
    returns (applied: Method, value: Option<real>, thresholds: Thresholds)
    requires scores != []
    requires SqrtPositive(sqrt)
    ensures Dispatch(applied, value, thresholds) == Transform(selected, calibration, scores, score, cfg, table, sqrt)
  {
    applied := selected;
    value := None;
    thresholds := table.absolute;
    if applied == Calibrated {
      if calibration.Some? {
        applied := calibration.value.valueType;
        thresholds := calibration.value.thresholds;
      } else {
        applied := Absolute;
      }
    }
    if applied == ZScore {
      var sample := ZSample(scores, cfg);
      var variance := Variance(sample);
      if variance > 0.0 {
        value := Some((score - Mean(sample)) / sqrt(variance));
        thresholds := table.zscore;
      } else {
        applied := Absolute;
      }
    }
    if applied == Percentile {
      value := PercentileRank(PctSample(scores, cfg), score);
      thresholds := table.percentile;
    }
    if applied == Absolute {
      value := Some(score);
      thresholds := table.absolute;
    }
  }

  /** The confidence downgrades of `compute_regime`, one after the other. */
  method RateConfidence(windowLength: int, minDays: int, applied: Method, n: int, zMin: int, pctMin: int)
    returns (confidence: Confidence)
    ensures confidence == ConfidenceOf(windowLength, minDays, applied, n, zMin, pctMin)
  {
    confidence := if windowLength >= minDays then Alta else Baja;
    if applied == ZScore && n < zMin {
      confidence := Baja;
    }
    if applied == Percentile && n < pctMin {
      confidence := Baja;
    }
  }

  /** The trend block of `compute_regime`: compare the last two `trendDays` windows. */
  method MeasureTrend(scores: seq<real>, trendDays: int) returns (trend: Trend, trendScore: Option<real>)
    ensures (trend, trendScore) == TrendOf(scores, trendDays)
  {
    trend := Estable;
    trendScore := None;
    if trendDays > 0 && |scores| >= trendDays * 2 {
      var n := |scores|;
      var recent := scores[n - trendDays..];
      var earlier := scores[n - trendDays * 2..n - trendDays];
      if earlier != [] {
        var delta := Mean(recent) - Mean(earlier);
        trendScore := Some(delta);
        if delta >= 0.5 {
          trend := Ascendente;
        } else if delta <= -0.5 {
          trend := Descendente;
        }
      }
    }
  }

  /**
   * `compute_regime`: the same sequence of steps as the source, each local
   * reassigned where the source reassigns it.
   */
  method ComputeRegime(rows: seq<Row>, windowDays: int, trendDays: int, minDays: int, cfg: Config,
                       file: Option<Json>, sqrt: real -> real) returns (r: RegimeResult)
    requires SqrtPositive(sqrt)
    ensures r == Regime(rows, windowDays, trendDays, minDays, cfg, file, sqrt)
  {
    var scores := Scores(rows);
    if scores == [] {
      return EmptyRegime(windowDays);
    }
    var window := Lookback(scores, windowDays);
    var score := Mean(window);

    var recorded := FindRecordedPhase(rows);
    var table := ResolveThresholds(cfg);
    var previous: Phase;
    if recorded.Some? {
      previous := recorded.value;
    } else {
      previous := PhaseFromScore(Some(scores[|scores| - 1]), table.absolute);
    }

    var calibration := LoadCalibration(file);
    var selected := SelectRegimeMethod(cfg.regimeMethod, calibration, |scores|, cfg.autoZMinSamples, cfg.autoPctMinSamples);
    var applied, value, thresholds := DispatchMethod(selected, calibration, scores, score, cfg, table, sqrt);

    var phase := ApplyHysteresis(value, Some(previous), thresholds);

    var confidence := RateConfidence(|window|, minDays, applied, |scores|, cfg.autoZMinSamples, cfg.autoPctMinSamples);
    var trend, trendScore := MeasureTrend(scores, trendDays);
    assert previous == PreviousPhase(rows, scores, table.absolute);
    r := RegimeResult(Some(phase), Some(score), Some(trend), confidence, windowDays, trendScore, Some(applied), value);
  }

}
