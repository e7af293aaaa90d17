# Marine gas-turbine diagnosis server, modelled in Dafny

This project models the per-record diagnosis logic of the server in
`Mship_s/s2.py`. The model covers five parts:

- **Threshold engine** (`thresholds.dfy`, module `Thresholds`). A fixed,
  ordered table of nine out-of-range rules. Each rule is a sensor name, a
  predicate, and the bound values shown to the operator. The table is checked
  against a record that has been framed onto the sixteen feature columns.
- **Time-to-failure heuristic** (`failure_time.dfy`, module `FailureTime`).
  A decay `d` gives `max(0, (1 - d) * 100)` hours. That is truncated to whole
  minutes and rendered as `"<minutes> minutes"`.
- **Verdict assembly** (`diagnosis.dfy`, module `Diagnosis`). The verdict
  holds:
  - the two predicted decays;
  - the minutes left for each;
  - the compressor and turbine fault flags;
  - the warnings and suggestions, one pair per fired rule.

  `DetectFault` builds the verdict with the same loop over the table that
  the server uses. The module also holds the history entry: the record
  merged with its verdict.
- **History** (`history.dfy`, module `History`). The `deque(maxlen=100)` is
  modelled as class `SensorHistory`. It holds a sequence of at most 100
  entries. Appending to a full buffer drops the oldest entry.
- **Audit log and dispatch.**
  - `audit_log.dfy` (module `AuditTrail`) is an abstract append-only log. A
    header is written exactly when the log file did not exist.
  - `server.dfy` (module `DiagnosisServer`) is the message loop of one
    connection. It decodes, tests for the sentinel, then returns the history
    or diagnoses the record.

The scaler, the two random-forest regressors and the JSON decoder are not
visible. They are modelled as opaque functions that a `Server` is built with:
`predict` and `decode`. The decoder is constrained only by the lemmas that
need to be: `FollowsJsonGrammar` says a text is decodable only if its first
non-blank character can start a JSON value.

Behaviour of the code as written, as the model states it:

- Any fired rule raises `Compressor_Fault_Detected`, whichever subsystem the
  sensor belongs to. `Turbine_Fault` is always "No Fault".
- The `gt_shaft_torque` rule can never fire. Its sensor is not one of the
  sixteen columns the record is framed with.
- A sensor missing from the record is a NaN cell in the frame. No rule
  predicate holds on NaN, so that rule is skipped.
- A message is decoded as JSON before it is compared with `"GET_HISTORY"`.
  The raw sentinel text is not JSON, so it raises a decode error, which ends
  the connection's loop. The history branch is reached only by a message that
  is both valid JSON and equal to the sentinel text, and there is no such
  message. `SentinelNeverReachesHistory` and `RunRepliesAreVerdicts` prove
  this.
- A malformed message is not answered with an error reply. The exception
  leaves the message loop, because only a clean close is caught.
- The history is appended before the log is written. If the log write fails,
  the history already holds the entry, and no verdict is sent.

## Model

| member | source | states |
|---|---|---|
| `Thresholds.FiresOnRecord` | Mship_s/s2.py:81-84 | a rule fires on a framed record if and only if its sensor is a feature column that the record carries out of range |
| `Thresholds.ViolationsBelow` | Mship_s/s2.py:81-84 | every reported violation is of a rule that fires on the record, with the frame's value for that sensor, and only rules among those checked are reported |
| `Thresholds.ViolationsBelowOrdered` | Mship_s/s2.py:81-84 | violations come in strictly increasing table order |
| `Thresholds.ViolationsBelowComplete` | Mship_s/s2.py:81-84 | every rule among those checked that fires is reported, at the position returned |
| `Thresholds.Evaluate` | Mship_s/s2.py:81-84 | every violation of a record is of a rule whose sensor is a feature column that the record carries out of range, and carries that reading |
| `Thresholds.OnlyFeatureReadingsMatter` | Mship_s/s2.py:56-84 | two records that agree on the sixteen feature columns give the same row to the regressors and the same violations: other keys of a record are dropped by the frame |
| `Thresholds.EvaluateExactly` | Mship_s/s2.py:81-84 | a rule of the table is reported if and only if it fires on the record |
| `Thresholds.SensorsDistinct` | Mship_s/s2.py:39-49 | no two rules of the table watch the same sensor |
| `Thresholds.FlaggedIff` | Mship_s/s2.py:81-84 | a table sensor is named by a violation if and only if its rule fires |
| `Thresholds.FlaggedOnRecord` | Mship_s/s2.py:81-87 | a table sensor is flagged if and only if it is a feature column that the record carries out of its rule's range |
| `Thresholds.InletTemperatureFlagged` | Mship_s/s2.py:40 | gt_c_i_temp is flagged exactly when the record carries it below 280 or above 400 |
| `Thresholds.OutletTemperatureFlagged` | Mship_s/s2.py:41 | gt_c_o_temp is flagged exactly when the record carries it above 590 |
| `Thresholds.InletPressureFlagged` | Mship_s/s2.py:42 | gt_c_i_pressure is flagged exactly when the record carries it below 0.90 |
| `Thresholds.OutletPressureFlagged` | Mship_s/s2.py:43 | gt_c_o_pressure is flagged exactly when the record carries it below 5.00 |
| `Thresholds.FuelFlowFlagged` | Mship_s/s2.py:44 | fuel_flow is flagged exactly when the record carries it below 0.06 or above 1.5 |
| `Thresholds.InjectionControlFlagged` | Mship_s/s2.py:45 | turbine_inj_control is flagged exactly when the record carries it below 4 or above 7.5 |
| `Thresholds.TurbineTemperatureFlagged` | Mship_s/s2.py:46 | hpt_temp is flagged exactly when the record carries it above 650 |
| `Thresholds.GeneratorRateFlagged` | Mship_s/s2.py:48 | gg_rate is flagged exactly when the record carries it below 5000 or above 7200 |
| `Thresholds.ShaftTorqueNeverFires` | Mship_s/s2.py:47-84 | the gt_shaft_torque rule fires on no framed record and no violation of any record is of that rule, since gt_shaft_torque is not one of the sixteen frame columns |
| `Thresholds.ViolationsBelowBound` | Mship_s/s2.py:39-84 | among the first n rules at most n fire, one fewer once the shaft-torque rule is included |
| `Thresholds.AtMostEightViolations` | Mship_s/s2.py:39-84 | a record raises at most eight violations |
| `Thresholds.InRangeRecordHasNoViolations` | Mship_s/s2.py:81-87 | a record that is within bounds on every table sensor it carries raises no violation |
| `Thresholds.ThresholdsAreAdmissibleBoundaries` | Mship_s/s2.py:40-48 | each rule's listed bound values are the boundaries of its predicate, and a reading equal to a bound does not fire |
| `FailureTime.HoursLeft` | Mship_s/s2.py:52 | the hours left are never negative, and are zero exactly when the decay is at least 1 |
| `FailureTime.Minutes` | Mship_s/s2.py:51-53 | a decay of at least 1 leaves 0 minutes; a decay of at most 1 leaves the floor of (1 - decay) * 6000 minutes |
| `FailureTime.MinutesWhenNew` | Mship_s/s2.py:51-53 | decay 0 leaves 6000 minutes |
| `FailureTime.MinutesNonIncreasing` | Mship_s/s2.py:51-53 | more decay never leaves more minutes |
| `FailureTime.MinutesBounded` | Mship_s/s2.py:51-53 | a non-negative decay leaves at most 6000 minutes |
| `FailureTime.Decimal` | Mship_s/s2.py:53 | the rendered minute count is a non-empty string of decimal digits with no leading zero |
| `FailureTime.MinutesText` | Mship_s/s2.py:53 | definition without a contract of its own: the text "<minutes> minutes"; `MinutesTextRoundTrip` states what it carries |
| `FailureTime.DecimalRoundTrip` | Mship_s/s2.py:53 | reading the decimal text back gives the minute count |
| `FailureTime.MinutesTextRoundTrip` | Mship_s/s2.py:53 | the text "<minutes> minutes" parses back to the minute count |
| `Diagnosis.DetectFault` | Mship_s/s2.py:68-87 | the loop over the rule table builds exactly the assembled verdict of the record and the two decays |
| `Diagnosis.AssembleMeaning` | Mship_s/s2.py:68-87 | the verdict carries both decays unchanged and the minutes of each; warnings and suggestions have the length of the violation list, and the i-th of each names the i-th fired rule's sensor and bounds (the warning also its reading); the compressor flag is raised if and only if a rule fired; the turbine flag is always "No Fault" |
| `Diagnosis.WarningsInTableOrder` | Mship_s/s2.py:81-87 | warnings follow the table order and never name a sensor twice |
| `Diagnosis.LowInletTemperatureIsAFault` | Mship_s/s2.py:40-86 | a compressor inlet temperature of 250 gives a fault and a warning on gt_c_i_temp with bounds 280, 400 |
| `Diagnosis.InRangeRecordIsHealthy` | Mship_s/s2.py:75-87 | a record within bounds gets no warnings, no suggestions and no fault |
| `Diagnosis.FlagText` | Mship_s/s2.py:75-86 | definition without a contract of its own: the two flag strings "No Fault" and "⚠️ Fault Detected"; `FlagRoundTrip` states they are told apart |
| `Diagnosis.FlagRoundTrip` | Mship_s/s2.py:75-86 | each flag string reads back as the flag it renders, so the two are distinct |
| `Diagnosis.VerdictOf` | Mship_s/s2.py:68-87 | definition without a contract of its own: the result for two decays and a violation list; `AssembleMeaning` and `DetectFault` state what it holds |
| `Diagnosis.Assemble` | Mship_s/s2.py:62-87 | definition without a contract of its own: the result for a record, from its violations; `AssembleMeaning` states its content |
| `Diagnosis.VerdictFields` | Mship_s/s2.py:68-79 | the result object has exactly the seven verdict keys |
| `Diagnosis.Merge` | Mship_s/s2.py:90 | the entry has every key of the record and of the verdict; verdict values win on verdict keys, other keys keep the record's reading |
| `Diagnosis.MergeRoundTrip` | Mship_s/s2.py:90 | the whole verdict can be read back from the entry, and so can every reading whose key is not a verdict key |
| `History.Retain` | Mship_s/s2.py:33 | a buffer of capacity 100 keeps the last min(n, 100) of n appended entries, oldest first |
| `History.AppendOne` | Mship_s/s2.py:90 | one append gives length min(old + 1, 100), puts the new entry last, and leaves the other entries as they were, less the oldest once full |
| `History.AppendAllRetainsLast` | Mship_s/s2.py:33 | after any number of appends the buffer holds exactly the last 100 entries appended, oldest first |
| `History.SensorHistory.constructor` | Mship_s/s2.py:33 | the history starts empty |
| `History.SensorHistory.Append` | Mship_s/s2.py:90 | the new contents are the last 100 of the old contents plus the entry, and the bound holds |
| `History.SensorHistory.Snapshot` | Mship_s/s2.py:105 | the snapshot is the whole buffer in order, and the buffer is unchanged |
| `AuditTrail.Logged` | Mship_s/s2.py:93 | an append keeps the old lines, ends with the verdict row, and leaves the file present |
| `AuditTrail.AppendsToPresentLog` | Mship_s/s2.py:93 | appends to an existing log add one row per verdict, in order, and no header |
| `AuditTrail.HeaderWrittenOnce` | Mship_s/s2.py:93 | appends to a fresh log write one header first, then one row per verdict, in order |
| `AuditTrail.AuditLog.Append` | Mship_s/s2.py:93 | a writable log gains a header only if the file was absent, then the row; an unwritable one fails and is unchanged |
| `DiagnosisServer.SentinelNeverReachesHistory` | Mship_s/s2.py:100-103 | with a JSON decoder, the raw "GET_HISTORY" text raises a decode error and changes nothing |
| `DiagnosisServer.DiagnoseStep` | Mship_s/s2.py:62-93 | definition without a contract of its own: predict, assemble, append to the history, then log; `StepOnDecodedMessage` states its outcomes |
| `DiagnosisServer.Step` | Mship_s/s2.py:100-108 | definition without a contract of its own: decode, sentinel test, then diagnosis; `StepMeaning` and `StepOnDecodedMessage` state its outcomes |
| `DiagnosisServer.Run` | Mship_s/s2.py:99-110 | definition without a contract of its own: the message loop up to the first failure; `RunAnswersUntilFailure` and `RunRecordsEveryDiagnosis` state what it does |
| `DiagnosisServer.StepMeaning` | Mship_s/s2.py:100-108 | what each outcome means: a history reply is the whole history and changes nothing; a verdict reply is the assembled verdict of the decoded record, recorded once in the history and once in the log; a decode error happens exactly when the message does not decode; any other failure changes nothing, except a failed log write, which comes after the record's entry was appended to the history |
| `DiagnosisServer.StepOnDecodedMessage` | Mship_s/s2.py:62-108 | when each outcome happens for a decodable message: the sentinel gets the history; a non-object raises; an object whose prediction is rejected raises and changes nothing; otherwise its entry is appended to the history, and its verdict is sent and logged when the log is writable, or the log write raises |
| `DiagnosisServer.StepRepliesWithVerdict` | Mship_s/s2.py:100-108 | with a JSON decoder, a message that is answered at all is answered with a verdict |
| `DiagnosisServer.RunRepliesAreVerdicts` | Mship_s/s2.py:99-110 | with a JSON decoder, every reply a connection gets is a verdict |
| `DiagnosisServer.RunAnswersUntilFailure` | Mship_s/s2.py:99-110 | the k-th reply is the reply to the k-th message in the state the earlier messages left; a failure is the outcome of the first unanswered message and ends the loop; with no failure every message is answered; the history stays within its capacity |
| `DiagnosisServer.RunRecordsEveryDiagnosis` | Mship_s/s2.py:33-93 | when no message raised, the history is the diagnosed messages' entries appended one by one, which is the last 100 of the old and new entries, and the log has one more append per verdict, in order |
| `DiagnosisServer.FreshServerRun` | Mship_s/s2.py:33-93 | from an empty history and no log file, a connection with no failure leaves the last 100 entries of the diagnosed messages and a log of one header followed by one row per verdict |
| `DiagnosisServer.Server.constructor` | Mship_s/s2.py:33 | a server starts with an empty history and the given log |
| `DiagnosisServer.Server.Diagnose` | Mship_s/s2.py:62-93 | diagnosing a record predicts, assembles the verdict, appends the merged entry to the history and then writes the log: new state and outcome are those of `DiagnoseStep` |
| `DiagnosisServer.Server.HandleMessage` | Mship_s/s2.py:100-108 | one message is decoded, then tested against the sentinel, then diagnosed: new state and outcome are those of `Step` |
| `DiagnosisServer.Server.HandleClient` | Mship_s/s2.py:97-110 | the loop's replies, failure and new state are those of `Run` on the message sequence |

## Left out

- Scaler and regressors (`StandardScaler`, `RandomForestRegressor`, training and prediction): floating-point numerics inside a library that is not visible. They become the opaque `predict` function on the framed row. Whether these raise on a missing (NaN) cell is inside `predict`, and its failure is `PredictorRejected`.
- JSON decoding and encoding: the library parser is not visible. It becomes the opaque `decode`. Lemmas that need it assume only Python's rule for the first character a JSON text may start with (`FollowsJsonGrammar`). The JSON rendering of replies is not modelled.
- Records hold only numeric readings (`map<string, real>`), so non-numeric JSON values in an object are not modelled. Under a key that is not a feature column, such a value is dropped by the frame, the record is still diagnosed, and the history entry keeps the value; the model's readings cannot hold it. Under a feature column (a string, `null`, a nested value), it reaches the scaler, the regressors and the rule predicates, and what those library calls do with it is not modelled.
- Non-object JSON values (a list or a scalar) raise before the history is touched. All of them are one failure, `NotAMapping`, whichever library call raises first.
- Floating point: readings, decays and hours are exact `real`s. Double rounding in `(1 - d) * 100 * 60` and NaN decays are not modelled.
- Warning and suggestion text: Python's `str` rendering of floats and the message wording are not modelled. Warnings and suggestions are structured as (sensor, value, bounds) and (sensor, bounds).
- Key order of the merged entry and of the JSON result: entries are maps.
- CSV formatting of the audit log, its column set, and reading it back: the log is an abstract sequence of header and verdict lines. Unwritable storage is one constant flag of the log.
- Dataset loading at startup and the `print` calls: startup file I/O and console output.
- The websocket server (`start_server`), async sends, and interleaving of several clients on the event loop: network plumbing and cooperative concurrency. One connection is the sequence of its messages, and the end of that sequence stands for a clean close.
- The dashboard in `Mship_C/c4.py`: UI, forms and plotting. Its "abnormal when warnings or suggestions are non-empty" rule is presentation only.
