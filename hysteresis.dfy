/**
 * The phase state machine of history_store.py: `phase_from_score` (direct
 * comparison, used for the very first classification) and `_apply_hysteresis`
 * (sticky bands between each phase's enter and exit thresholds).
 */
module HysteresisClassifier {

  import opened Optional
  import opened RegimeTypes

  /** How severe a classified phase is; labels outside the three phases rank 0. */
  function Severity(p: Phase): nat
  {
    match p
    case Auge => 1
    case Especulacion => 2
    case Quiebre => 3
    case _ => 0
  }

  /** Direct comparison of a value against the enter thresholds, with no memory. */
  function Direct(value: real, t: Thresholds): (p: Phase)
    ensures p in {Auge, Especulacion, Quiebre}
    ensures p == Quiebre <==> value >= t.phase3Enter
    ensures p == Auge <==> value < t.phase2Enter && value < t.phase3Enter
  {
    if value >= t.phase3Enter then Quiebre
    else if value >= t.phase2Enter then Especulacion
    else Auge
  }

  /** A higher value is never classified as a less severe phase. */
  lemma DirectMonotone(v1: real, v2: real, t: Thresholds)
    requires v1 <= v2
    ensures Severity(Direct(v1, t)) <= Severity(Direct(v2, t))
  {
  }

  /**
   * `phase_from_score`: an absent score is the unknown phase; a score is
   * compared directly with the absolute thresholds passed in.
   */
  function PhaseFromScore(score: Option<real>, absolute: Thresholds): (p: Phase)
    ensures score.None? ==> p == Desconocida
    ensures score.Some? ==> p == Direct(score.value, absolute)
  {
    if score.None? then Desconocida else Direct(score.value, absolute)
  }

  /**
   * `_apply_hysteresis`: the phase for the current value given the phase that
   * was in force before. Phase 3 is left only below its exit threshold, phase 2
   * only at or above the phase-3 enter or below its own exit; from any other
   * previous phase (or none) the value is classified directly.
   */
  function ApplyHysteresis(value: Option<real>, previous: Option<Phase>, t: Thresholds): (p: Phase)
    ensures value.None? ==> p == (if previous.Some? then previous.value else Desconocida)
    ensures value.Some? && previous == Some(Quiebre) ==>
      && (p == Quiebre <==> value.value >= t.phase3Exit)
      && (value.value < t.phase3Exit ==> (p == Especulacion <==> value.value >= t.phase2Enter))
      && p in {Auge, Especulacion, Quiebre}
    ensures value.Some? && previous == Some(Especulacion) ==>
      && (p == Especulacion <==> t.phase2Exit <= value.value < t.phase3Enter)
      && (p == Quiebre <==> value.value >= t.phase3Enter)
      && (p == Auge <==> value.value < t.phase2Exit && value.value < t.phase3Enter)
    ensures value.Some? && previous != Some(Quiebre) && previous != Some(Especulacion) ==>
      p == Direct(value.value, t)
  {
    if value.None? then
      (if previous.Some? then previous.value else Desconocida)
    else if previous == Some(Quiebre) then
      if value.value < t.phase3Exit then
        (if value.value >= t.phase2Enter then Especulacion else Auge)
      else Quiebre
    else if previous == Some(Especulacion) then
      if value.value >= t.phase3Enter then Quiebre
      else if value.value < t.phase2Exit then Auge
      else Especulacion
    else if value.value >= t.phase3Enter then Quiebre
    else if value.value >= t.phase2Enter then Especulacion
    else Auge
  }

  /** With no previous phase the first classification has no hysteresis: it is `phase_from_score`. */
  lemma FirstClassificationIsDirect(v: real, t: Thresholds)
    ensures ApplyHysteresis(Some(v), None, t) == PhaseFromScore(Some(v), t)
  {
  }

  /**
   * With non-inverted bands, hysteresis disagrees with direct classification
   * only for a value inside one of the two bands [exit, enter).
   */
  lemma DiffersOnlyInsideBands(v: real, previous: Option<Phase>, t: Thresholds)
    requires Ordered(t)
    requires ApplyHysteresis(Some(v), previous, t) != Direct(v, t)
    ensures (t.phase3Exit <= v < t.phase3Enter) || (t.phase2Exit <= v < t.phase2Enter)
  {
  }

  /** With non-inverted bands, a value at or above the phase-3 enter threshold is phase 3 whatever came before. */
  lemma HighValueIsQuiebre(v: real, previous: Option<Phase>, t: Thresholds)
    requires Ordered(t)
    requires v >= t.phase3Enter
    ensures ApplyHysteresis(Some(v), previous, t) == Quiebre
  {
  }

  /** The phase after a run of daily values, each day's phase being the next day's previous phase. */
  function Track(values: seq<real>, start: Phase, t: Thresholds): Phase
    decreases |values|
  {
    if values == [] then start
    else Track(values[1..], ApplyHysteresis(Some(values[0]), Some(start), t), t)
  }

  /** Phase 2 is sticky: values that stay within [phase2 exit, phase3 enter) never move it. */
  lemma {:induction false} StickyPhase2(values: seq<real>, t: Thresholds)
    requires forall i :: 0 <= i < |values| ==> t.phase2Exit <= values[i] < t.phase3Enter
    ensures Track(values, Especulacion, t) == Especulacion
  {
    if values != [] {
      StickyPhase2(values[1..], t);
    }
  }

  /** Phase 3 is sticky: values that never fall below the phase-3 exit keep it. */
  lemma {:induction false} StickyPhase3(values: seq<real>, t: Thresholds)
    requires forall i :: 0 <= i < |values| ==> values[i] >= t.phase3Exit
    ensures Track(values, Quiebre, t) == Quiebre
  {
    if values != [] {
      StickyPhase3(values[1..], t);
    }
  }

  /**
   * No flapping: values oscillating inside the phase-2 band [exit, enter) (and
   * below the phase-3 enter) leave phase 1 and phase 2 each where they were.
   */
  lemma {:induction false} LowerBandKeepsPhase(values: seq<real>, start: Phase, t: Thresholds)
    requires start == Auge || start == Especulacion
    requires forall i :: 0 <= i < |values| ==>
      t.phase2Exit <= values[i] < t.phase2Enter && values[i] < t.phase3Enter
    ensures Track(values, start, t) == start
  {
    if values != [] {
      LowerBandKeepsPhase(values[1..], start, t);
    }
  }

}
