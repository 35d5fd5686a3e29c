/**
 * `_select_regime_method` (history_store.py): an explicit REGIME_METHOD wins;
 * under "auto" a valid calibration wins; otherwise the sample size picks the
 * percentile, z-score or absolute transform.
 */
module MethodSelector {

  import opened Optional
  import opened RegimeTypes
  import opened CalibrationLoader

  /** `str.lower` on the ASCII letters. */
  function LowerChar(c: char): (r: char)
    ensures 'A' <= c <= 'Z' ==> r as int == c as int + 32
    ensures !('A' <= c <= 'Z') ==> r == c
    ensures !('A' <= r <= 'Z')
  {
    if 'A' <= c <= 'Z' then (c as int + 32) as char else c
  }

  function Lower(s: string): (r: string)
    ensures |r| == |s|
    ensures forall i :: 0 <= i < |s| ==> r[i] == LowerChar(s[i])
  {
    seq(|s|, i requires 0 <= i < |s| => LowerChar(s[i]))
  }

  /** Lower-casing twice is lower-casing once. */
  lemma LowerIdempotent(s: string)
    ensures Lower(Lower(s)) == Lower(s)
  {
  }

  /** Text without capital letters is its own lower-case form. */
  lemma LowerOfLowercase(s: string)
    requires forall i :: 0 <= i < |s| ==> !('A' <= s[i] <= 'Z')
    ensures Lower(s) == s
  {
    assert forall i :: 0 <= i < |s| ==> Lower(s)[i] == s[i];
  }

  /**
   * The method for a history of `n` scores. `requested` is REGIME_METHOD as
   * set (default "auto"); `calibration` is what the calibration artifact
   * yielded; `zMin` and `pctMin` are the two sample-size tiers.
   */
  function SelectRegimeMethod(requested: string, calibration: Option<Calibration>, n: int, zMin: int, pctMin: int): (m: Method)
    ensures Lower(requested) != "auto" ==> m == ParseMethod(Lower(requested))
    ensures Lower(requested) == "auto" && calibration.Some? ==> m == Calibrated
    ensures Lower(requested) == "auto" && calibration.None? ==>
      && (m == Percentile <==> n >= pctMin)
      && (m == ZScore <==> n < pctMin && n >= zMin)
      && (m == Absolute <==> n < pctMin && n < zMin)
  {
    var lowered := Lower(requested);
    if lowered != "auto" then ParseMethod(lowered)
    else if calibration.Some? then Calibrated
    else if n >= pctMin then Percentile
    else if n >= zMin then ZScore
    else Absolute
  }

  /** Under "auto" the result is always one of the four known methods. */
  lemma AutoIsKnown(requested: string, calibration: Option<Calibration>, n: int, zMin: int, pctMin: int)
    requires Lower(requested) == "auto"
    ensures SelectRegimeMethod(requested, calibration, n, zMin, pctMin) in {Calibrated, Percentile, ZScore, Absolute}
  {
  }

  /** The override is case-insensitive. */
  lemma OverrideIgnoresCase(requested: string, calibration: Option<Calibration>, n: int, zMin: int, pctMin: int)
    ensures SelectRegimeMethod(requested, calibration, n, zMin, pctMin)
         == SelectRegimeMethod(Lower(requested), calibration, n, zMin, pctMin)
  {
    LowerIdempotent(requested);
  }

  /** How much history a transform needs: absolute, then z-score, then percentile. */
  function Tier(m: Method): nat
  {
    match m
    case Absolute => 0
    case ZScore => 1
    case Percentile => 2
    case _ => 3
  }

  /** Without an override or a calibration, more history never selects a lower tier. */
  lemma TierMonotone(calibration: Option<Calibration>, n1: int, n2: int, zMin: int, pctMin: int)
    requires calibration.None?
    requires n1 <= n2
    ensures Tier(SelectRegimeMethod("auto", calibration, n1, zMin, pctMin))
         <= Tier(SelectRegimeMethod("auto", calibration, n2, zMin, pctMin))
  {
    LowerOfLowercase("auto");
  }

  /** With the default tiers (90 and 180 samples): 200 scores give percentile, 100 z-score, 10 absolute. */
  lemma DefaultTiers()
    ensures SelectRegimeMethod("auto", None, 200, 90, 180) == Percentile
    ensures SelectRegimeMethod("auto", None, 100, 90, 180) == ZScore
    ensures SelectRegimeMethod("auto", None, 10, 90, 180) == Absolute
  {
    LowerOfLowercase("auto");
  }

}
