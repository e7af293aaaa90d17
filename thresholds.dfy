/**
  The threshold engine of the diagnosis server: a fixed, ordered table of
  out-of-range rules, one per sensor, and the evaluation of one telemetry
  reading against it.
 */
module Thresholds {

  import opened Wrappers

  /** The out-of-range predicate of a rule. */
  datatype Condition =
    | Outside(low: real, high: real)  // fires below `low` or above `high`
    | Above(high: real)               // fires above `high`
    | Below(low: real)                // fires below `low`

  predicate Violates(c: Condition, x: real) {
    match c
    case Outside(lo, hi) => x < lo || x > hi
    case Above(hi) => x > hi
    case Below(lo) => x < lo
  }

  /** The boundary values a condition is written with, in the order they are listed. */
  function Boundaries(c: Condition): seq<real> {
    match c
    case Outside(lo, hi) => [lo, hi]
    case Above(hi) => [hi]
    case Below(lo) => [lo]
  }

  /** A rule: the sensor it watches, its predicate, and the bound values shown to the operator. */
  datatype Rule = Rule(sensor: string, condition: Condition, thresholds: seq<real>)

  /** The rule table, in declaration order (that order is the order of the warnings). */
  const RuleTable: seq<Rule> := [
    Rule("gt_c_i_temp", Outside(280.0, 400.0), [280.0, 400.0]),
    Rule("gt_c_o_temp", Above(590.0), [590.0]),
    Rule("gt_c_i_pressure", Below(0.90), [0.90]),
    Rule("gt_c_o_pressure", Below(5.00), [5.00]),
    Rule("fuel_flow", Outside(0.06, 1.5), [0.06, 1.5]),
    Rule("turbine_inj_control", Outside(4.0, 7.5), [4.0, 7.5]),
    Rule("hpt_temp", Above(650.0), [650.0]),
    Rule("gt_shaft_torque", Outside(280.0, 300.0), [280.0, 300.0]),
    Rule("gg_rate", Outside(5000.0, 7200.0), [5000.0, 7200.0])
  ]

  /** Position of the `gt_shaft_torque` rule in the table. */
  const ShaftTorqueRule: nat := 7

  /** The sixteen columns a live record is framed with before scaling and rule checks. */
  const FeatureColumns: seq<string> := [
    "lever_position", "ship_speed", "gt_shaft", "gt_rate",
    "gg_rate", "sp_torque", "pp_torque", "hpt_temp",
    "gt_c_i_temp", "gt_c_o_temp", "hpt_pressure",
    "gt_c_i_pressure", "gt_c_o_pressure", "gt_exhaust_pressure",
    "turbine_inj_control", "fuel_flow"
  ]

  /** A decoded telemetry record: sensor name to reading. */
  type Reading = map<string, real>

  /**
    The record framed onto the feature columns, as the one-row data frame the
    server builds: one cell per feature column, `None` (NaN in the frame) for
    a column the record lacks; keys that are not feature columns are dropped.
   */
  type Cells = map<string, Option<real>>

  type RuleIndex = k: nat | k < |RuleTable|

  function Framed(r: Reading): Cells {
    map k | k in FeatureColumns :: if k in r then Some(r[k]) else None
  }

  /** The framed row in column order, as the scaler receives it. */
  function FeatureRow(r: Reading): seq<Option<real>> {
    seq(|FeatureColumns|, i requires 0 <= i < |FeatureColumns| => Framed(r)[FeatureColumns[i]])
  }

  /**
    A rule fires when its sensor is a column of the frame, the cell holds a
    number, and the number is out of range. Every comparison the predicates
    make is false on NaN, so a rule on a missing cell never fires.
   */
  predicate Fires(rule: Rule, f: Cells) {
    rule.sensor in f && f[rule.sensor].Some? && Violates(rule.condition, f[rule.sensor].value)
  }

  /** On a framed record, a rule fires exactly when its sensor is a feature column the record carries out of range. */
  lemma FiresOnRecord(rule: Rule, r: Reading)
    ensures Fires(rule, Framed(r)) <==>
      rule.sensor in FeatureColumns && rule.sensor in r && Violates(rule.condition, r[rule.sensor])
  {
  }

  /** One fired rule and the value that made it fire. */
  datatype Violation = Violation(rule: RuleIndex, value: real)

  /**
    The violations among the first `n` rules, in table order. This is the
    loop over the table the server runs for each record.
   */
  function ViolationsBelow(f: Cells, n: nat): (vs: seq<Violation>)
    requires n <= |RuleTable|
    ensures forall i :: 0 <= i < |vs| ==>
      vs[i].rule < n && Fires(RuleTable[vs[i].rule], f) && Some(vs[i].value) == f[RuleTable[vs[i].rule].sensor]
  {
    if n == 0 then []
    else
      var earlier := ViolationsBelow(f, n - 1);
      var rule := RuleTable[n - 1];
      if Fires(rule, f) then earlier + [Violation(n - 1, f[rule.sensor].value)] else earlier
  }

  /** Extending the scan by one rule appends that rule's violation when it fires, and nothing otherwise. */
  lemma ViolationsBelowNext(f: Cells, n: nat)
    requires n < |RuleTable|
    ensures ViolationsBelow(f, n + 1) ==
      if Fires(RuleTable[n], f) then ViolationsBelow(f, n) + [Violation(n, f[RuleTable[n].sensor].value)]
      else ViolationsBelow(f, n)
  {
  }

  /**
    All violations of a record, in table order. Each one is of a rule whose
    sensor is a feature column the record carries out of range, with that
    reading.
   */
  function Evaluate(r: Reading): (vs: seq<Violation>)
    ensures forall i :: 0 <= i < |vs| ==>
      var rule := RuleTable[vs[i].rule];
      rule.sensor in FeatureColumns && rule.sensor in r
      && Violates(rule.condition, r[rule.sensor]) && vs[i].value == r[rule.sensor]
  {
    ViolationsBelow(Framed(r), |RuleTable|)
  }

  /**
    Only the feature readings matter: two records that agree on every feature
    column (carrying it or not, and with the same reading) are framed into the
    same row and raise the same violations.
   */
  lemma OnlyFeatureReadingsMatter(r1: Reading, r2: Reading)
    requires forall k :: k in FeatureColumns ==> (k in r1 <==> k in r2)
    requires forall k :: k in FeatureColumns && k in r1 ==> r1[k] == r2[k]
    ensures FeatureRow(r1) == FeatureRow(r2)
    ensures Evaluate(r1) == Evaluate(r2)
  {
    assert Framed(r1) == Framed(r2);
  }

  /** Every rule among the first `n` that fires is reported, at the position `i` returned. */
  lemma {:induction false} ViolationsBelowComplete(f: Cells, n: nat, k: nat) returns (i: nat)
    requires n <= |RuleTable| && k < n && Fires(RuleTable[k], f)
    ensures i < |ViolationsBelow(f, n)| && ViolationsBelow(f, n)[i].rule == k
  {
    var earlier := ViolationsBelow(f, n - 1);
    ViolationsBelowNext(f, n - 1);
    if k == n - 1 {
      assert ViolationsBelow(f, n) == earlier + [Violation(k, f[RuleTable[k].sensor].value)];
      i := |earlier|;
    } else {
      i := ViolationsBelowComplete(f, n - 1, k);
      if Fires(RuleTable[n - 1], f) {
        assert ViolationsBelow(f, n) == earlier + [Violation(n - 1, f[RuleTable[n - 1].sensor].value)];
        assert ViolationsBelow(f, n)[i] == earlier[i];
      }
    }
  }

  /** The violations come in strictly increasing rule order. */
  lemma {:induction false} ViolationsBelowOrdered(f: Cells, n: nat, i: nat, j: nat)
    requires n <= |RuleTable| && i < j < |ViolationsBelow(f, n)|
    ensures ViolationsBelow(f, n)[i].rule < ViolationsBelow(f, n)[j].rule
  {
    ViolationsBelowNext(f, n - 1);
    if j < |ViolationsBelow(f, n - 1)| {
      ViolationsBelowOrdered(f, n - 1, i, j);
    }
  }

  /**
    The evaluation reports exactly the rules that fire: each reported rule
    fires, with the record's value, and each rule that fires is reported.
   */
  lemma EvaluateExactly(r: Reading, k: RuleIndex)
    ensures Fires(RuleTable[k], Framed(r)) <==> exists i :: 0 <= i < |Evaluate(r)| && Evaluate(r)[i].rule == k
  {
    assert Evaluate(r) == ViolationsBelow(Framed(r), |RuleTable|);
    if Fires(RuleTable[k], Framed(r)) {
      var i := ViolationsBelowComplete(Framed(r), |RuleTable|, k);
    }
  }

  /** The sensors named by the violations of a record. */
  function FlaggedSensors(r: Reading): set<string> {
    var vs := Evaluate(r);
    set i | 0 <= i < |vs| :: RuleTable[vs[i].rule].sensor
  }

  /** No two rules watch the same sensor. */
  lemma SensorsDistinct(j: RuleIndex, k: RuleIndex)
    requires j != k
    ensures RuleTable[j].sensor != RuleTable[k].sensor
  {
  }

  /** A sensor of the table is flagged exactly when its rule fires. */
  lemma {:induction false} FlaggedIff(r: Reading, k: RuleIndex)
    ensures RuleTable[k].sensor in FlaggedSensors(r) <==> Fires(RuleTable[k], Framed(r))
  {
    var vs := Evaluate(r);
    EvaluateExactly(r, k);
    if RuleTable[k].sensor in FlaggedSensors(r) {
      var i :| 0 <= i < |vs| && RuleTable[vs[i].rule].sensor == RuleTable[k].sensor;
      if vs[i].rule != k {
        SensorsDistinct(vs[i].rule, k);
      }
    }
    if Fires(RuleTable[k], Framed(r)) {
      var i :| 0 <= i < |vs| && vs[i].rule == k;
      assert RuleTable[vs[i].rule].sensor in FlaggedSensors(r);
    }
  }

  /** A table sensor is flagged exactly when it is a feature column that the record carries out of range. */
  lemma FlaggedOnRecord(r: Reading, k: RuleIndex)
    ensures RuleTable[k].sensor in FlaggedSensors(r) <==>
      RuleTable[k].sensor in FeatureColumns && RuleTable[k].sensor in r
      && Violates(RuleTable[k].condition, r[RuleTable[k].sensor])
  {
    FlaggedIff(r, k);
    FiresOnRecord(RuleTable[k], r);
  }

  /** The rule at `k`, on sensor `name` of frame column `col`, flags `name` exactly when `name` is read out of range. */
  lemma FlaggedByRule(r: Reading, k: RuleIndex, col: nat, name: string, c: Condition)
    requires RuleTable[k].sensor == name && RuleTable[k].condition == c
    requires col < |FeatureColumns| && FeatureColumns[col] == name
    ensures name in FlaggedSensors(r) <==> name in r && Violates(c, r[name])
  {
    FlaggedOnRecord(r, k);
  }

  /** The compressor inlet temperature is flagged exactly when read out of its range. */
  lemma InletTemperatureFlagged(r: Reading)
    ensures "gt_c_i_temp" in FlaggedSensors(r) <==>
      "gt_c_i_temp" in r && (r["gt_c_i_temp"] < 280.0 || r["gt_c_i_temp"] > 400.0)
  {
    FlaggedByRule(r, 0, 8, "gt_c_i_temp", Outside(280.0, 400.0));
  }

  /** The compressor outlet temperature is flagged exactly when read out of its range. */
  lemma OutletTemperatureFlagged(r: Reading)
    ensures "gt_c_o_temp" in FlaggedSensors(r) <==>
      "gt_c_o_temp" in r && r["gt_c_o_temp"] > 590.0
  {
    FlaggedByRule(r, 1, 9, "gt_c_o_temp", Above(590.0));
  }

  /** The compressor inlet pressure is flagged exactly when read out of its range. */
  lemma InletPressureFlagged(r: Reading)
    ensures "gt_c_i_pressure" in FlaggedSensors(r) <==>
      "gt_c_i_pressure" in r && r["gt_c_i_pressure"] < 0.90
  {
    FlaggedByRule(r, 2, 11, "gt_c_i_pressure", Below(0.90));
  }

  /** The compressor outlet pressure is flagged exactly when read out of its range. */
  lemma OutletPressureFlagged(r: Reading)
    ensures "gt_c_o_pressure" in FlaggedSensors(r) <==>
      "gt_c_o_pressure" in r && r["gt_c_o_pressure"] < 5.00
  {
    FlaggedByRule(r, 3, 12, "gt_c_o_pressure", Below(5.00));
  }

  /** The fuel flow is flagged exactly when read out of its range. */
  lemma FuelFlowFlagged(r: Reading)
    ensures "fuel_flow" in FlaggedSensors(r) <==>
      "fuel_flow" in r && (r["fuel_flow"] < 0.06 || r["fuel_flow"] > 1.5)
  {
    FlaggedByRule(r, 4, 15, "fuel_flow", Outside(0.06, 1.5));
  }

  /** The turbine injection control is flagged exactly when read out of its range. */
  lemma InjectionControlFlagged(r: Reading)
    ensures "turbine_inj_control" in FlaggedSensors(r) <==>
      "turbine_inj_control" in r && (r["turbine_inj_control"] < 4.0 || r["turbine_inj_control"] > 7.5)
  {
    FlaggedByRule(r, 5, 14, "turbine_inj_control", Outside(4.0, 7.5));
  }

  /** The high-pressure turbine temperature is flagged exactly when read out of its range. */
  lemma TurbineTemperatureFlagged(r: Reading)
    ensures "hpt_temp" in FlaggedSensors(r) <==>
      "hpt_temp" in r && r["hpt_temp"] > 650.0
  {
    FlaggedByRule(r, 6, 7, "hpt_temp", Above(650.0));
  }

  /** The gas generator rate is flagged exactly when read out of its range. */
  lemma GeneratorRateFlagged(r: Reading)
    ensures "gg_rate" in FlaggedSensors(r) <==>
      "gg_rate" in r && (r["gg_rate"] < 5000.0 || r["gg_rate"] > 7200.0)
  {
    FlaggedByRule(r, 8, 4, "gg_rate", Outside(5000.0, 7200.0));
  }

  /** The rule on `gt_shaft_torque` is never reported, whatever the record holds. */
  lemma ShaftTorqueNeverFires(r: Reading)
    ensures !Fires(RuleTable[ShaftTorqueRule], Framed(r))
    ensures forall i :: 0 <= i < |Evaluate(r)| ==> Evaluate(r)[i].rule != ShaftTorqueRule
  {
    assert RuleTable[ShaftTorqueRule].sensor !in FeatureColumns;
  }

  /** Among the first `n` rules at most `n` fire, one fewer once the shaft-torque rule is among them. */
  lemma {:induction false} ViolationsBelowBound(r: Reading, n: nat)
    requires n <= |RuleTable|
    ensures |ViolationsBelow(Framed(r), n)| <= if n > ShaftTorqueRule then n - 1 else n
  {
    if n > 0 {
      ViolationsBelowBound(r, n - 1);
      if n - 1 == ShaftTorqueRule {
        ShaftTorqueNeverFires(r);
      }
    }
  }

  /** A record raises at most eight violations: every rule but the shaft-torque one. */
  lemma AtMostEightViolations(r: Reading)
    ensures |Evaluate(r)| <= 8
  {
    ViolationsBelowBound(r, |RuleTable|);
  }

  /** A record that violates no rule on the sensors it carries raises no violation. */
  lemma {:induction false} InRangeRecordHasNoViolations(r: Reading, n: nat)
    requires n <= |RuleTable|
    requires forall k: RuleIndex :: RuleTable[k].sensor in r ==> !Violates(RuleTable[k].condition, r[RuleTable[k].sensor])
    ensures ViolationsBelow(Framed(r), n) == []
  {
    if n > 0 {
      InRangeRecordHasNoViolations(r, n - 1);
      var k: RuleIndex := n - 1;
      FiresOnRecord(RuleTable[k], r);
    }
  }

  /**
    The bound values listed with each rule are the boundaries of its condition,
    and are themselves admissible readings: a value equal to a bound never fires.
   */
  lemma ThresholdsAreAdmissibleBoundaries(k: RuleIndex)
    ensures RuleTable[k].thresholds == Boundaries(RuleTable[k].condition)
    ensures forall j :: 0 <= j < |RuleTable[k].thresholds| ==>
      !Violates(RuleTable[k].condition, RuleTable[k].thresholds[j])
  {
  }
}
