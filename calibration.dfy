/**
 * The validation part of `_load_calibration` (history_store.py): which parsed
 * calibration artifacts are accepted, and what is made of them.
 */
module CalibrationLoader {

  import opened Optional
  import opened RegimeTypes
  import opened ThresholdResolver

  /** A parsed JSON document. */
  datatype Json =
    | JNull
    | JBool(b: bool)
    | JNumber(n: real)
    | JString(s: string)
    | JArray(items: seq<Json>)
    | JObject(fields: map<string, Json>)

  /** A calibration: the value scale it applies to and its own threshold set. */
  datatype Calibration = Calibration(valueType: Method, thresholds: Thresholds)

  const ValueTypes: set<string> := {"absolute", "zscore", "percentile"}

  /** `payload.get(key)`: a missing key and a JSON null are both Python's None. */
  function Get(fields: map<string, Json>, key: string): Option<Json>
  {
    if key in fields && !fields[key].JNull? then Some(fields[key]) else None
  }

  /** Python's `float()` on the JSON values it accepts without raising: numbers and booleans. */
  function ToFloat(v: Json): Option<real>
  {
    match v
    case JNumber(n) => Some(n)
    case JBool(b) => Some(if b then 1.0 else 0.0)
    case _ => None
  }

  /** The number stored under `key`, if there is one. */
  function Number(fields: map<string, Json>, key: string): Option<real>
  {
    match Get(fields, key)
    case None => None
    case Some(v) => ToFloat(v)
  }

  /**
   * A well-formed artifact: a JSON object whose value_type names one of the
   * three value scales and whose four threshold fields all hold numbers.
   */
  predicate WellFormed(file: Option<Json>)
  {
    && file.Some?
    && file.value.JObject?
    && "value_type" in file.value.fields
    && file.value.fields["value_type"].JString?
    && file.value.fields["value_type"].s in ValueTypes
    && forall key :: key in ["phase2_enter", "phase2_exit", "phase3_enter", "phase3_exit"] ==>
         key in file.value.fields && ToFloat(file.value.fields[key]).Some?
  }

  /**
   * The calibration held by an artifact (None: the file is missing, unreadable
   * or not JSON). Anything not well formed is treated as absent; an accepted
   * one keeps its value_type and gets the same exit normalisation as the
   * configured thresholds.
   */
  function LoadCalibration(file: Option<Json>): (r: Option<Calibration>)
    ensures r.Some? <==> WellFormed(file)
    ensures r.Some? ==> file.value.fields["value_type"] == JString(MethodName(r.value.valueType))
    ensures r.Some? ==> r.value.valueType in {Absolute, ZScore, Percentile}
    ensures r.Some? ==> Ordered(r.value.thresholds)
    ensures r.Some? ==>
      && r.value.thresholds.phase2Enter == ToFloat(file.value.fields["phase2_enter"]).value
      && r.value.thresholds.phase3Enter == ToFloat(file.value.fields["phase3_enter"]).value
      && r.value.thresholds.phase2Exit ==
           Min(ToFloat(file.value.fields["phase2_exit"]).value, r.value.thresholds.phase2Enter)
      && r.value.thresholds.phase3Exit ==
           Min(ToFloat(file.value.fields["phase3_exit"]).value, r.value.thresholds.phase3Enter)
  {
    if file.None? || !file.value.JObject? then None
    else
      var fields := file.value.fields;
      var valueType := Get(fields, "value_type");
      if !(valueType.Some? && valueType.value.JString? && valueType.value.s in ValueTypes) then None
      else if Get(fields, "phase2_enter").None? || Get(fields, "phase2_exit").None?
           || Get(fields, "phase3_enter").None? || Get(fields, "phase3_exit").None? then None
      else
        var p2Enter := Number(fields, "phase2_enter");
        var p2Exit := Number(fields, "phase2_exit");
        var p3Enter := Number(fields, "phase3_enter");
        var p3Exit := Number(fields, "phase3_exit");
        if p2Enter.None? || p2Exit.None? || p3Enter.None? || p3Exit.None? then None
        else
          Some(Calibration(ParseMethod(valueType.value.s),
                           NormalisedSet(p2Enter.value, p2Exit.value, p3Enter.value, p3Exit.value)))
  }

}
