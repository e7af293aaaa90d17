/**
  Verdict assembly: the two predicted decays, the time left for each, the
  fault flags and the warnings and suggestions the rule table raises for one
  record; and the history entry that merges the record with its verdict.
 */
module Diagnosis {

  import opened Wrappers
  import opened Thresholds
  import opened FailureTime

  /** The two values a fault flag takes in the verdict. */
  datatype FaultFlag = NoFault | FaultDetected

  function FlagText(f: FaultFlag): string {
    match f
    case NoFault => "No Fault"
    case FaultDetected => "\U{26A0}\U{FE0F} Fault Detected"
  }

  function ParseFlag(s: string): Option<FaultFlag> {
    if s == FlagText(NoFault) then Some(NoFault)
    else if s == FlagText(FaultDetected) then Some(FaultDetected)
    else None
  }

  /** A warning names the sensor, the value it read and the bounds of its rule. */
  datatype Warning = Warning(sensor: string, value: real, thresholds: seq<real>)

  /** A suggestion asks to bring the sensor back within the bounds of its rule. */
  datatype Suggestion = Suggestion(sensor: string, thresholds: seq<real>)

  datatype Verdict = Verdict(
    compressorDecay: real,
    turbineDecay: real,
    compressorMinutes: nat,
    turbineMinutes: nat,
    compressorFault: FaultFlag,
    turbineFault: FaultFlag,
    warnings: seq<Warning>,
    suggestions: seq<Suggestion>)

  function ToWarning(v: Violation): Warning {
    Warning(RuleTable[v.rule].sensor, v.value, RuleTable[v.rule].thresholds)
  }

  function ToSuggestion(v: Violation): Suggestion {
    Suggestion(RuleTable[v.rule].sensor, RuleTable[v.rule].thresholds)
  }

  function WarningsOf(vs: seq<Violation>): seq<Warning> {
    seq(|vs|, i requires 0 <= i < |vs| => ToWarning(vs[i]))
  }

  function SuggestionsOf(vs: seq<Violation>): seq<Suggestion> {
    seq(|vs|, i requires 0 <= i < |vs| => ToSuggestion(vs[i]))
  }

  /** The verdict for two decays and a list of violations. */
  function VerdictOf(compressorDecay: real, turbineDecay: real, vs: seq<Violation>): Verdict {
    Verdict(compressorDecay, turbineDecay, Minutes(compressorDecay), Minutes(turbineDecay),
      if vs == [] then NoFault else FaultDetected, NoFault, WarningsOf(vs), SuggestionsOf(vs))
  }

  /** The verdict for a record, given the decays the two regressors predict for it. */
  function Assemble(r: Reading, compressorDecay: real, turbineDecay: real): Verdict {
    VerdictOf(compressorDecay, turbineDecay, Evaluate(r))
  }

  /**
    Builds the verdict as the server does: initial "no fault" result, then one
    pass over the rule table that appends a warning and a suggestion and raises
    the compressor flag for each rule that fires.
   */
  method DetectFault(r: Reading, compressorDecay: real, turbineDecay: real) returns (v: Verdict)
    ensures v == Assemble(r, compressorDecay, turbineDecay)
  {
    v := Verdict(compressorDecay, turbineDecay, Minutes(compressorDecay), Minutes(turbineDecay),
      NoFault, NoFault, [], []);
    var frame := Framed(r);
    for i := 0 to |RuleTable|
      invariant v == VerdictOf(compressorDecay, turbineDecay, ViolationsBelow(frame, i))
    {
      var rule := RuleTable[i];
      ViolationsBelowNext(frame, i);
      if rule.sensor in frame {
        var cell := frame[rule.sensor];
        // A missing cell is NaN, and no comparison holds on NaN.
        if cell.Some? && Violates(rule.condition, cell.value) {
          VerdictOfNext(compressorDecay, turbineDecay, ViolationsBelow(frame, i), Violation(i, cell.value));
          v := v.(warnings := v.warnings + [Warning(rule.sensor, cell.value, rule.thresholds)]);
          v := v.(compressorFault := FaultDetected);
          v := v.(suggestions := v.suggestions + [Suggestion(rule.sensor, rule.thresholds)]);
        }
      }
    }
  }

  /** One more violation raises the compressor flag and adds its warning and suggestion at the end. */
  lemma VerdictOfNext(compressorDecay: real, turbineDecay: real, vs: seq<Violation>, x: Violation)
    ensures VerdictOf(compressorDecay, turbineDecay, vs + [x]) ==
      VerdictOf(compressorDecay, turbineDecay, vs).(compressorFault := FaultDetected,
        warnings := WarningsOf(vs) + [ToWarning(x)], suggestions := SuggestionsOf(vs) + [ToSuggestion(x)])
  {
    assert WarningsOf(vs + [x]) == WarningsOf(vs) + [ToWarning(x)];
    assert SuggestionsOf(vs + [x]) == SuggestionsOf(vs) + [ToSuggestion(x)];
  }

  /**
    What a verdict says about its record: it carries the decays unchanged and
    the minutes derived from each; warnings and suggestions come in pairs, one
    pair per fired rule in table order, the i-th of each naming the same sensor
    and bounds; the compressor flag is raised exactly when some rule fired; the
    turbine flag is never raised.
   */
  lemma AssembleMeaning(r: Reading, compressorDecay: real, turbineDecay: real)
    ensures var v := Assemble(r, compressorDecay, turbineDecay);
      && v.compressorDecay == compressorDecay && v.turbineDecay == turbineDecay
      && v.compressorMinutes == Minutes(compressorDecay) && v.turbineMinutes == Minutes(turbineDecay)
      && |v.warnings| == |v.suggestions| == |Evaluate(r)|
      && (forall i :: 0 <= i < |v.warnings| ==>
            v.warnings[i].sensor == v.suggestions[i].sensor == RuleTable[Evaluate(r)[i].rule].sensor
            && v.warnings[i].thresholds == v.suggestions[i].thresholds == RuleTable[Evaluate(r)[i].rule].thresholds
            && v.warnings[i].value == r[v.warnings[i].sensor])
      && (v.compressorFault == FaultDetected <==> Evaluate(r) != [])
      && (v.compressorFault == NoFault <==> Evaluate(r) == [])
      && v.turbineFault == NoFault
  {
  }

  /** The warnings name sensors in table order (each appears once at most). */
  lemma WarningsInTableOrder(r: Reading, compressorDecay: real, turbineDecay: real, i: nat, j: nat)
    requires i < j < |Assemble(r, compressorDecay, turbineDecay).warnings|
    ensures Evaluate(r)[i].rule < Evaluate(r)[j].rule
    ensures var ws := Assemble(r, compressorDecay, turbineDecay).warnings; ws[i].sensor != ws[j].sensor
  {
    ViolationsBelowOrdered(Framed(r), |RuleTable|, i, j);
    SensorsDistinct(Evaluate(r)[i].rule, Evaluate(r)[j].rule);
  }

  /** A compressor inlet temperature of 250 is below its bound of 280: a fault, with a warning on that sensor. */
  lemma LowInletTemperatureIsAFault(r: Reading, compressorDecay: real, turbineDecay: real)
    requires "gt_c_i_temp" in r && r["gt_c_i_temp"] == 250.0
    ensures var v := Assemble(r, compressorDecay, turbineDecay);
      v.compressorFault == FaultDetected && |v.warnings| >= 1
      && exists i :: 0 <= i < |v.warnings| && v.warnings[i] == Warning("gt_c_i_temp", 250.0, [280.0, 400.0])
  {
    var vs := Evaluate(r);
    assert FeatureColumns[8] == "gt_c_i_temp";
    FiresOnRecord(RuleTable[0], r);
    EvaluateExactly(r, 0);
    var i :| 0 <= i < |vs| && vs[i].rule == 0;
    assert Assemble(r, compressorDecay, turbineDecay).warnings[i] == Warning("gt_c_i_temp", 250.0, [280.0, 400.0]);
  }

  /** A record whose sensors are all within bounds gets no warning, no suggestion and no fault. */
  lemma InRangeRecordIsHealthy(r: Reading, compressorDecay: real, turbineDecay: real)
    requires forall k: RuleIndex :: RuleTable[k].sensor in r ==> !Violates(RuleTable[k].condition, r[RuleTable[k].sensor])
    ensures var v := Assemble(r, compressorDecay, turbineDecay);
      v.warnings == [] && v.suggestions == [] && v.compressorFault == NoFault && v.turbineFault == NoFault
  {
    InRangeRecordHasNoViolations(r, |RuleTable|);
  }

  /** One value of a history entry (a JSON value, as far as the entry needs). */
  datatype Field =
    | Number(x: real)
    | Text(s: string)
    | TimeLeft(compressor: string, turbine: string)
    | WarningList(ws: seq<Warning>)
    | SuggestionList(ss: seq<Suggestion>)

  /** A history entry: the record's keys merged with the verdict's. */
  type Entry = map<string, Field>

  const DecayCKey: string := "Predicted_Compressor_Decay"
  const DecayTKey: string := "Predicted_Turbine_Decay"
  const TimeKey: string := "Time_Before_Failure"
  const CFaultKey: string := "Compressor_Fault_Detected"
  const TFaultKey: string := "Turbine_Fault"
  const WarningsKey: string := "Warnings"
  const SuggestionsKey: string := "Suggestions"

  const VerdictKeys: set<string> :=
    {DecayCKey, DecayTKey, TimeKey, CFaultKey, TFaultKey, WarningsKey, SuggestionsKey}

  /** The verdict as the result object the server sends back. */
  function VerdictFields(v: Verdict): (m: map<string, Field>)
    ensures m.Keys == VerdictKeys
  {
    map[DecayCKey := Number(v.compressorDecay),
        DecayTKey := Number(v.turbineDecay),
        TimeKey := TimeLeft(MinutesText(v.compressorMinutes), MinutesText(v.turbineMinutes)),
        CFaultKey := Text(FlagText(v.compressorFault)),
        TFaultKey := Text(FlagText(v.turbineFault)),
        WarningsKey := WarningList(v.warnings),
        SuggestionsKey := SuggestionList(v.suggestions)]
  }

  /**
    The history entry for a record and its verdict: every key of either, the
    verdict's value winning where the record uses a verdict key.
   */
  function Merge(r: Reading, v: Verdict): (e: Entry)
    ensures e.Keys == r.Keys + VerdictKeys
    ensures forall k :: k in VerdictKeys ==> e[k] == VerdictFields(v)[k]
    ensures forall k :: k in r && k !in VerdictKeys ==> e[k] == Number(r[k])
  {
    (map k | k in r :: Number(r[k])) + VerdictFields(v)
  }

  /** Reads the verdict back out of an entry; `None` when the entry does not hold one. */
  function EntryVerdict(e: Entry): Option<Verdict> {
    if VerdictKeys <= e.Keys
       && e[DecayCKey].Number? && e[DecayTKey].Number? && e[TimeKey].TimeLeft?
       && e[CFaultKey].Text? && e[TFaultKey].Text?
       && e[WarningsKey].WarningList? && e[SuggestionsKey].SuggestionList?
    then
      var cm := ParseMinutesText(e[TimeKey].compressor);
      var tm := ParseMinutesText(e[TimeKey].turbine);
      var cf := ParseFlag(e[CFaultKey].s);
      var tf := ParseFlag(e[TFaultKey].s);
      if cm.Some? && tm.Some? && cf.Some? && tf.Some? then
        Some(Verdict(e[DecayCKey].x, e[DecayTKey].x, cm.value, tm.value, cf.value, tf.value,
          e[WarningsKey].ws, e[SuggestionsKey].ss))
      else None
    else None
  }

  /** The record's own readings left in an entry: its keys that are not verdict keys. */
  function EntryReading(e: Entry): Reading {
    map k | k in e && k !in VerdictKeys && e[k].Number? :: e[k].x
  }

  /** Each verdict key holds its part of the verdict. */
  lemma VerdictFieldsAt(v: Verdict)
    ensures var m := VerdictFields(v);
      && m[DecayCKey] == Number(v.compressorDecay) && m[DecayTKey] == Number(v.turbineDecay)
      && m[TimeKey] == TimeLeft(MinutesText(v.compressorMinutes), MinutesText(v.turbineMinutes))
      && m[CFaultKey] == Text(FlagText(v.compressorFault)) && m[TFaultKey] == Text(FlagText(v.turbineFault))
      && m[WarningsKey] == WarningList(v.warnings) && m[SuggestionsKey] == SuggestionList(v.suggestions)
  {
  }

  /** Every flag reads back as itself. */
  lemma FlagRoundTrip(f: FaultFlag)
    ensures ParseFlag(FlagText(f)) == Some(f)
  {
    assert FlagText(NoFault) != FlagText(FaultDetected) by {
      assert |FlagText(NoFault)| != |FlagText(FaultDetected)|;
    }
  }

  /**
    An entry loses nothing of the verdict, and keeps every reading whose key
    the verdict does not override.
   */
  lemma MergeRoundTrip(r: Reading, v: Verdict)
    ensures EntryVerdict(Merge(r, v)) == Some(v)
    ensures EntryReading(Merge(r, v)) == map k | k in r && k !in VerdictKeys :: r[k]
  {
    var e := Merge(r, v);
    assert EntryVerdict(e) == Some(v) by {
      VerdictFieldsAt(v);
      MinutesTextRoundTrip(v.compressorMinutes);
      MinutesTextRoundTrip(v.turbineMinutes);
      FlagRoundTrip(v.compressorFault);
      FlagRoundTrip(v.turbineFault);
    }
  }
}
