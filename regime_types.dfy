/**
 * The labels and records shared by the regime engine of history_store.py:
 * the regime methods, the phase labels, trend and confidence labels, and the
 * four-value threshold set.
 */
module RegimeTypes {

  import opened Optional

  /** The values REGIME_METHOD can name; any other lower-cased text is kept verbatim. */
  datatype Method = Absolute | ZScore | Percentile | Calibrated | Unrecognised(name: string)

  function MethodName(m: Method): string
  {
    match m
    case Absolute => "absolute"
    case ZScore => "zscore"
    case Percentile => "percentile"
    case Calibrated => "calibrated"
    case Unrecognised(name) => name
  }

  /** A method as it can arise from text: an Unrecognised name is none of the four known ones. */
  predicate WellNamed(m: Method)
  {
    m.Unrecognised? ==> m.name !in {"absolute", "zscore", "percentile", "calibrated"}
  }

  /** The method a lower-cased REGIME_METHOD string denotes. */
  function ParseMethod(s: string): (m: Method)
    ensures MethodName(m) == s
    ensures WellNamed(m)
    ensures m.Unrecognised? <==> s !in {"absolute", "zscore", "percentile", "calibrated"}
  {
    if s == "absolute" then Absolute
    else if s == "zscore" then ZScore
    else if s == "percentile" then Percentile
    else if s == "calibrated" then Calibrated
    else Unrecognised(s)
  }

  /** Naming a method and reading the name back gives the method again. */
  lemma ParseMethodName(m: Method)
    requires WellNamed(m)
    ensures ParseMethod(MethodName(m)) == m
  {
  }

  /**
   * The regime phases. A stored label that is none of the four known ones is
   * kept as Other, so that the hysteresis classifier treats it like any
   * phase other than 2 and 3.
   */
  datatype Phase = Auge | Especulacion | Quiebre | Desconocida | Other(text: string)

  function Label(p: Phase): string
  {
    match p
    case Auge => "Fase 1 - AUGE"
    case Especulacion => "Fase 2 - ESPECULACIÓN"
    case Quiebre => "Fase 3 - QUIEBRE"
    case Desconocida => "Fase desconocida"
    case Other(text) => text
  }

  const KnownLabels: set<string> :=
    {"Fase 1 - AUGE", "Fase 2 - ESPECULACIÓN", "Fase 3 - QUIEBRE", "Fase desconocida"}

  /** A phase as it can come from a non-empty stored label. */
  predicate WellLabelled(p: Phase)
  {
    p.Other? ==> p.text != "" && p.text !in KnownLabels
  }

  /**
   * Reads a stored `regime_phase` text; "" stands for a missing or empty label,
   * which Python treats as false and so as "no phase recorded".
   */
  function ParsePhase(s: string): (r: Option<Phase>)
    ensures r.None? <==> s == ""
    ensures r.Some? ==> Label(r.value) == s && WellLabelled(r.value)
  {
    if s == "" then None
    else if s == "Fase 1 - AUGE" then Some(Auge)
    else if s == "Fase 2 - ESPECULACIÓN" then Some(Especulacion)
    else if s == "Fase 3 - QUIEBRE" then Some(Quiebre)
    else if s == "Fase desconocida" then Some(Desconocida)
    else Some(Other(s))
  }

  /** Storing a phase label and reading it back gives the phase again. */
  lemma ParsePhaseLabel(p: Phase)
    requires WellLabelled(p)
    ensures ParsePhase(Label(p)) == Some(p)
  {
  }

  datatype Trend = Ascendente | Descendente | Estable

  function TrendLabel(t: Trend): string
  {
    match t
    case Ascendente => "Ascendente"
    case Descendente => "Descendente"
    case Estable => "Estable"
  }

  datatype Confidence = Alta | Baja

  function ConfidenceLabel(c: Confidence): string
  {
    match c
    case Alta => "Alta"
    case Baja => "Baja"
  }

  /** The dictionary {phase2_enter, phase2_exit, phase3_enter, phase3_exit}. */
  datatype Thresholds = Thresholds(phase2Enter: real, phase2Exit: real, phase3Enter: real, phase3Exit: real)

  /** The hysteresis bands are not inverted: each exit is at most its own enter. */
  predicate Ordered(t: Thresholds)
  {
    t.phase2Exit <= t.phase2Enter && t.phase3Exit <= t.phase3Enter
  }

}
