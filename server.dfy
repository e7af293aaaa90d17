/**
  The per-connection message loop of the diagnosis server: each message is
  decoded as JSON, compared with the history sentinel, and then either
  answered with the history or diagnosed, recorded and answered with its
  verdict. A failure raised while handling a message ends the loop.

  The JSON decoder and the two trained regressors (with the scaler before
  them) are not modelled: they are the opaque functions `decode` and
  `predict` a server is built with.
 */
module DiagnosisServer {

  import opened Wrappers
  import opened Thresholds
  import opened Diagnosis
  import opened History
  import opened AuditTrail

  /** A decoded message: a JSON object of sensor readings, or any other JSON value. */
  datatype Payload = Object(reading: Reading) | OtherJson

  /** Why handling a message raised, ending the loop. */
  datatype Failure =
    | DecodeError        // the message is not JSON
    | NotAMapping        // the JSON value is not an object of readings
    | PredictorRejected  // the scaler or a regressor raised on the framed row
    | LogWriteFailed     // the audit log could not be written

  datatype Reply = VerdictReply(verdict: Verdict) | HistoryReply(entries: seq<Entry>)

  datatype Outcome = Replied(reply: Reply) | Raised(failure: Failure)

  /** The decays the two regressors predict for a framed row. */
  datatype Decays = Decays(compressor: real, turbine: real)

  /** The message that asks for the history, compared with the raw message text. */
  const Sentinel: string := "GET_HISTORY"

  /** The state handling a message changes: the history and the audit log. */
  datatype State = State(history: seq<Entry>, log: LogState)

  /** Diagnosing one decoded record: predict, assemble, record in history, then log. */
  function DiagnoseStep(predict: seq<Option<real>> -> Option<Decays>, writable: bool, st: State, r: Reading): (State, Outcome) {
    match predict(FeatureRow(r))
    case None => (st, Raised(PredictorRejected))
    case Some(d) =>
      var v := Assemble(r, d.compressor, d.turbine);
      var history := Retain(st.history + [Merge(r, v)]);
      if writable then (State(history, Logged(st.log, v)), Replied(VerdictReply(v)))
      else (State(history, st.log), Raised(LogWriteFailed))
  }

  /** Handling one message: decode first, then the sentinel test, then diagnosis. */
  function Step(decode: string -> Option<Payload>, predict: seq<Option<real>> -> Option<Decays>,
                writable: bool, st: State, msg: string): (State, Outcome) {
    match decode(msg)
    case None => (st, Raised(DecodeError))
    case Some(payload) =>
      if msg == Sentinel then (st, Replied(HistoryReply(st.history)))
      else
        match payload
        case OtherJson => (st, Raised(NotAMapping))
        case Object(r) => DiagnoseStep(predict, writable, st, r)
  }

  datatype RunResult = RunResult(state: State, replies: seq<Reply>, failure: Option<Failure>)

  /** Handling a sequence of messages on one connection, up to the first one that raises. */
  function Run(decode: string -> Option<Payload>, predict: seq<Option<real>> -> Option<Decays>,
               writable: bool, st: State, msgs: seq<string>): RunResult
    decreases |msgs|
  {
    if msgs == [] then RunResult(st, [], None)
    else
      var (next, outcome) := Step(decode, predict, writable, st, msgs[0]);
      match outcome
      case Raised(f) => RunResult(next, [], Some(f))
      case Replied(reply) =>
        var rest := Run(decode, predict, writable, next, msgs[1..]);
        RunResult(rest.state, [reply] + rest.replies, rest.failure)
  }

  predicate IsJsonSpace(c: char) {
    c == ' ' || c == '\t' || c == '\n' || c == '\r'
  }

  /** The characters a JSON text may start with (after white space), including Python's NaN and Infinity. */
  predicate CanStartJsonValue(c: char) {
    c == '"' || c == '{' || c == '[' || c == 'n' || c == 't' || c == 'f' || c == 'N' || c == 'I'
    || c == '-' || '0' <= c <= '9'
  }

  function FirstNonSpace(s: string): Option<char> {
    if s == [] then None
    else if IsJsonSpace(s[0]) then FirstNonSpace(s[1..])
    else Some(s[0])
  }

  /** A decoder that accepts only texts starting, after white space, the way a JSON value can. */
  ghost predicate FollowsJsonGrammar(decode: string -> Option<Payload>) {
    forall s :: decode(s).Some? ==> FirstNonSpace(s).Some? && CanStartJsonValue(FirstNonSpace(s).value)
  }

  /**
    Decoding comes before the sentinel test, so with a JSON decoder the raw
    sentinel text raises a decode error and never gets the history.
   */
  lemma SentinelNeverReachesHistory(decode: string -> Option<Payload>, predict: seq<Option<real>> -> Option<Decays>,
                                    writable: bool, st: State)
    requires FollowsJsonGrammar(decode)
    ensures Step(decode, predict, writable, st, Sentinel) == (st, Raised(DecodeError))
  {
    assert FirstNonSpace(Sentinel) == Some('G');
    assert !CanStartJsonValue('G');
  }

  /**
    What each outcome of one message means. A history reply carries the whole
    history and changes nothing. A verdict reply is the verdict of the decoded
    record under the predicted decays, recorded once in the history and once
    in the log. A failure changes nothing, except that a failed log write comes
    after the history was recorded.
   */
  lemma StepMeaning(decode: string -> Option<Payload>, predict: seq<Option<real>> -> Option<Decays>,
                    writable: bool, st: State, msg: string)
    ensures var (next, outcome) := Step(decode, predict, writable, st, msg);
      && (outcome.Replied? && outcome.reply.HistoryReply? ==>
            decode(msg).Some? && msg == Sentinel && next == st && outcome.reply.entries == st.history)
      && (outcome.Replied? && outcome.reply.VerdictReply? ==>
            msg != Sentinel && decode(msg).Some? && decode(msg).value.Object? && writable
            && var r := decode(msg).value.reading;
               predict(FeatureRow(r)).Some?
               && outcome.reply.verdict == Assemble(r, predict(FeatureRow(r)).value.compressor, predict(FeatureRow(r)).value.turbine)
               && next.history == Retain(st.history + [Merge(r, outcome.reply.verdict)])
               && next.log == Logged(st.log, outcome.reply.verdict))
      && (outcome.Raised? && outcome.failure != LogWriteFailed ==> next == st)
      && (outcome == Raised(DecodeError) <==> decode(msg).None?)
      && (outcome == Raised(LogWriteFailed) ==>
            !writable && next.log == st.log && msg != Sentinel
            && decode(msg).Some? && decode(msg).value.Object?
            && var r := decode(msg).value.reading;
               predict(FeatureRow(r)).Some?
               && next.history == Retain(st.history + [Merge(r,
                    Assemble(r, predict(FeatureRow(r)).value.compressor, predict(FeatureRow(r)).value.turbine))]))
  {
  }

  /**
    When each outcome happens, for a message that decodes. The sentinel text
    gets the history. Any other JSON value that is not an object raises. An
    object is diagnosed: a rejected prediction raises and changes nothing;
    otherwise its entry is recorded in the history, and the verdict is sent
    back and logged when the log is writable, or the log write raises.
   */
  lemma StepOnDecodedMessage(decode: string -> Option<Payload>, predict: seq<Option<real>> -> Option<Decays>,
                             writable: bool, st: State, msg: string)
    requires decode(msg).Some?
    ensures var (next, outcome) := Step(decode, predict, writable, st, msg);
      && (msg == Sentinel ==> next == st && outcome == Replied(HistoryReply(st.history)))
      && (msg != Sentinel && decode(msg).value.OtherJson? ==> next == st && outcome == Raised(NotAMapping))
      && (msg != Sentinel && decode(msg).value.Object? ==>
            var r := decode(msg).value.reading;
            && (predict(FeatureRow(r)).None? ==> next == st && outcome == Raised(PredictorRejected))
            && (predict(FeatureRow(r)).Some? ==>
                  var d := predict(FeatureRow(r)).value;
                  var v := Assemble(r, d.compressor, d.turbine);
                  && next.history == Retain(st.history + [Merge(r, v)])
                  && (writable ==> outcome == Replied(VerdictReply(v)) && next.log == Logged(st.log, v))
                  && (!writable ==> outcome == Raised(LogWriteFailed) && next.log == st.log)))
  {
  }

  /** With a JSON decoder, a message answered at all is answered with a verdict. */
  lemma StepRepliesWithVerdict(decode: string -> Option<Payload>, predict: seq<Option<real>> -> Option<Decays>,
                               writable: bool, st: State, msg: string)
    requires FollowsJsonGrammar(decode)
    ensures Step(decode, predict, writable, st, msg).1.Replied? ==> Step(decode, predict, writable, st, msg).1.reply.VerdictReply?
  {
    if msg == Sentinel {
      SentinelNeverReachesHistory(decode, predict, writable, st);
    }
  }

  /** With a JSON decoder, every reply a connection gets is a verdict: the history is never sent. */
  lemma {:induction false} RunRepliesAreVerdicts(decode: string -> Option<Payload>, predict: seq<Option<real>> -> Option<Decays>,
                                                 writable: bool, st: State, msgs: seq<string>)
    requires FollowsJsonGrammar(decode)
    ensures forall i :: 0 <= i < |Run(decode, predict, writable, st, msgs).replies| ==>
      Run(decode, predict, writable, st, msgs).replies[i].VerdictReply?
    decreases |msgs|
  {
    if msgs != [] {
      var (next, outcome) := Step(decode, predict, writable, st, msgs[0]);
      if outcome.Replied? {
        StepRepliesWithVerdict(decode, predict, writable, st, msgs[0]);
        var rest := Run(decode, predict, writable, next, msgs[1..]);
        assert Run(decode, predict, writable, st, msgs).replies == [outcome.reply] + rest.replies;
        RunRepliesAreVerdicts(decode, predict, writable, next, msgs[1..]);
      }
    }
  }

  /** The state after handling the first `k` messages, each from the state the earlier ones left. */
  function StateAfter(decode: string -> Option<Payload>, predict: seq<Option<real>> -> Option<Decays>,
                      writable: bool, st: State, msgs: seq<string>, k: nat): State
    requires k <= |msgs|
  {
    if k == 0 then st else Step(decode, predict, writable, StateAfter(decode, predict, writable, st, msgs, k - 1), msgs[k - 1]).0
  }

  lemma {:induction false} StateAfterShift(decode: string -> Option<Payload>, predict: seq<Option<real>> -> Option<Decays>,
                                           writable: bool, st: State, msgs: seq<string>, k: nat)
    requires k < |msgs|
    ensures StateAfter(decode, predict, writable, st, msgs, k + 1)
         == StateAfter(decode, predict, writable, Step(decode, predict, writable, st, msgs[0]).0, msgs[1..], k)
  {
    if k > 0 {
      StateAfterShift(decode, predict, writable, st, msgs, k - 1);
      assert msgs[1..][k - 1] == msgs[k];
    }
  }

  /**
    A connection answers each message in turn until one raises: the k-th reply
    is what handling the k-th message gives in the state the earlier messages
    left; a failure is the outcome of the first message not answered, and
    nothing after it is handled; with no failure every message is answered.
    The history never grows past its capacity.
   */
  lemma {:induction false} RunAnswersUntilFailure(decode: string -> Option<Payload>, predict: seq<Option<real>> -> Option<Decays>,
                                                  writable: bool, st: State, msgs: seq<string>)
    requires |st.history| <= Capacity
    ensures var res := Run(decode, predict, writable, st, msgs);
      && |res.replies| <= |msgs|
      && (forall k :: 0 <= k < |res.replies| ==>
            Step(decode, predict, writable, StateAfter(decode, predict, writable, st, msgs, k), msgs[k])
              == (StateAfter(decode, predict, writable, st, msgs, k + 1), Replied(res.replies[k])))
      && (res.failure.Some? ==>
            |res.replies| < |msgs|
            && Step(decode, predict, writable, StateAfter(decode, predict, writable, st, msgs, |res.replies|), msgs[|res.replies|])
                 == (res.state, Raised(res.failure.value)))
      && (res.failure.None? ==>
            |res.replies| == |msgs| && res.state == StateAfter(decode, predict, writable, st, msgs, |msgs|))
      && |res.state.history| <= Capacity
    decreases |msgs|
  {
    if msgs != [] {
      var (next, outcome) := Step(decode, predict, writable, st, msgs[0]);
      if outcome.Replied? {
        RunAnswersUntilFailure(decode, predict, writable, next, msgs[1..]);
        var res := Run(decode, predict, writable, st, msgs);
        var rest := Run(decode, predict, writable, next, msgs[1..]);
        assert res.replies == [outcome.reply] + rest.replies;
        forall k | 0 < k <= |msgs|
          ensures StateAfter(decode, predict, writable, st, msgs, k)
               == StateAfter(decode, predict, writable, next, msgs[1..], k - 1)
        {
          StateAfterShift(decode, predict, writable, st, msgs, k - 1);
        }
        forall k | 0 < k < |res.replies|
          ensures Step(decode, predict, writable, StateAfter(decode, predict, writable, st, msgs, k), msgs[k])
               == (StateAfter(decode, predict, writable, st, msgs, k + 1), Replied(res.replies[k]))
        {
          assert msgs[k] == msgs[1..][k - 1] && res.replies[k] == rest.replies[k - 1];
        }
        if res.failure.Some? {
          assert msgs[|res.replies|] == msgs[1..][|rest.replies|];
        }
      }
    }
  }

  /** What a message contributes when it is diagnosed: its record and verdict; `None` for any other message. */
  function Diagnosed(decode: string -> Option<Payload>, predict: seq<Option<real>> -> Option<Decays>, msg: string): Option<(Reading, Verdict)> {
    if msg == Sentinel then None
    else match decode(msg)
      case Some(Object(r)) =>
        (match predict(FeatureRow(r))
         case Some(d) => Some((r, Assemble(r, d.compressor, d.turbine)))
         case None => None)
      case _ => None
  }

  /** The history entries of the diagnosed messages of `msgs`, in order. */
  function EntriesOf(decode: string -> Option<Payload>, predict: seq<Option<real>> -> Option<Decays>, msgs: seq<string>): seq<Entry>
    decreases |msgs|
  {
    if msgs == [] then []
    else
      var first := match Diagnosed(decode, predict, msgs[0])
        case Some(rv) => [Merge(rv.0, rv.1)]
        case None => [];
      first + EntriesOf(decode, predict, msgs[1..])
  }

  /** The verdicts of the diagnosed messages of `msgs`, in order. */
  function VerdictsOf(decode: string -> Option<Payload>, predict: seq<Option<real>> -> Option<Decays>, msgs: seq<string>): seq<Verdict>
    decreases |msgs|
  {
    if msgs == [] then []
    else
      var first := match Diagnosed(decode, predict, msgs[0])
        case Some(rv) => [rv.1]
        case None => [];
      first + VerdictsOf(decode, predict, msgs[1..])
  }

  /**
    A connection on which no message raised has appended the entry of every
    diagnosed message to the history, in order, so the history holds the last
    `Capacity` of the old entries and the new ones; and it has logged every
    verdict, in order.
   */
  lemma {:induction false} RunRecordsEveryDiagnosis(decode: string -> Option<Payload>, predict: seq<Option<real>> -> Option<Decays>,
                                                    writable: bool, st: State, msgs: seq<string>)
    requires |st.history| <= Capacity
    ensures var res := Run(decode, predict, writable, st, msgs);
      res.failure.None? ==>
        && res.state.history == AppendAll(st.history, EntriesOf(decode, predict, msgs))
        && res.state.history == Retain(st.history + EntriesOf(decode, predict, msgs))
        && res.state.log == LoggedAll(st.log, VerdictsOf(decode, predict, msgs))
    decreases |msgs|
  {
    var res := Run(decode, predict, writable, st, msgs);
    var es := EntriesOf(decode, predict, msgs);
    if msgs != [] && res.failure.None? {
      var (next, outcome) := Step(decode, predict, writable, st, msgs[0]);
      assert outcome.Replied?;
      RunRecordsEveryDiagnosis(decode, predict, writable, next, msgs[1..]);
      var rest := EntriesOf(decode, predict, msgs[1..]);
      var vrest := VerdictsOf(decode, predict, msgs[1..]);
      match Diagnosed(decode, predict, msgs[0]) {
        case None =>
          assert next == st;
          assert es == rest;
          assert VerdictsOf(decode, predict, msgs) == vrest;
        case Some(rv) =>
          var e := Merge(rv.0, rv.1);
          assert next.history == Retain(st.history + [e]);
          assert next.log == Logged(st.log, rv.1);
          assert es == [e] + rest;
          assert es[0] == e && es[1..] == rest;
          var vs := VerdictsOf(decode, predict, msgs);
          assert vs == [rv.1] + vrest;
          assert vs[0] == rv.1 && vs[1..] == vrest;
      }
    }
    if res.failure.None? {
      AppendAllRetainsLast(st.history, es);
    }
  }

  /**
    A server started with an empty history and no log file, on a connection
    where no message raised: the history holds the last `Capacity` entries of
    the diagnosed messages, and the log holds one header and then one row per
    verdict, in order (or is still absent when nothing was diagnosed).
   */
  lemma FreshServerRun(decode: string -> Option<Payload>, predict: seq<Option<real>> -> Option<Decays>,
                       writable: bool, msgs: seq<string>)
    ensures var res := Run(decode, predict, writable, State([], LogState(false, [])), msgs);
      var vs := VerdictsOf(decode, predict, msgs);
      res.failure.None? ==>
        && res.state.history == Retain(EntriesOf(decode, predict, msgs))
        && res.state.log == if vs == [] then LogState(false, []) else LogState(true, [Header] + Rows(vs))
  {
    var st := State([], LogState(false, []));
    RunRecordsEveryDiagnosis(decode, predict, writable, st, msgs);
    assert st.history + EntriesOf(decode, predict, msgs) == EntriesOf(decode, predict, msgs);
    if VerdictsOf(decode, predict, msgs) != [] {
      HeaderWrittenOnce(VerdictsOf(decode, predict, msgs));
    }
  }

  /** A run preceded by replies already sent. */
  function Resumed(sent: seq<Reply>, rest: RunResult): RunResult {
    RunResult(rest.state, sent + rest.replies, rest.failure)
  }

  lemma ResumedAssociates(sent: seq<Reply>, reply: Reply, rest: RunResult)
    ensures Resumed(sent, Resumed([reply], rest)) == Resumed(sent + [reply], rest)
  {
    assert sent + ([reply] + rest.replies) == (sent + [reply]) + rest.replies;
  }

  /** Running from message `i` on is handling message `i`, then running from `i + 1` on unless it raised. */
  lemma RunFirst(decode: string -> Option<Payload>, predict: seq<Option<real>> -> Option<Decays>,
                 writable: bool, st: State, msgs: seq<string>, i: nat)
    requires i < |msgs|
    ensures var (next, outcome) := Step(decode, predict, writable, st, msgs[i]);
      Run(decode, predict, writable, st, msgs[i..]) ==
        if outcome.Raised? then RunResult(next, [], Some(outcome.failure))
        else Resumed([outcome.reply], Run(decode, predict, writable, next, msgs[i + 1..]))
  {
    assert msgs[i..][0] == msgs[i] && msgs[i..][1..] == msgs[i + 1..];
  }

  /** The server's shared state and collaborators: the history buffer, the audit log, the decoder and the regressors. */
  class Server {
    const decode: string -> Option<Payload>
    const predict: seq<Option<real>> -> Option<Decays>
    const history: SensorHistory
    const log: AuditLog

    ghost predicate Valid()
      reads this, history, log
    {
      history.Valid() && log.Valid()
    }

    ghost function Current(): State
      reads this, history, log
    {
      State(history.entries, log.State())
    }

    /** A server starts with an empty history and whatever log file is already there. */
    constructor (decode: string -> Option<Payload>, predict: seq<Option<real>> -> Option<Decays>, log: AuditLog)
      requires log.Valid()
      ensures Valid() && fresh(history)
      ensures this.decode == decode && this.predict == predict && this.log == log
      ensures history.entries == []
    {
      this.decode := decode;
      this.predict := predict;
      this.log := log;
      this.history := new SensorHistory();
    }

    /** Diagnoses one record: predict, build the verdict, record it in the history, then in the log. */
    method Diagnose(r: Reading) returns (outcome: Outcome)
      requires Valid()
      modifies history, log
      ensures Valid()
      ensures (Current(), outcome) == DiagnoseStep(predict, log.writable, old(Current()), r)
    {
      var decays := predict(FeatureRow(r));
      if decays.None? {
        return Raised(PredictorRejected);
      }
      var v := DetectFault(r, decays.value.compressor, decays.value.turbine);
      var entry := Merge(r, v);
      history.Append(entry);
      assert history.entries == Retain(old(history.entries) + [entry]);
      var logged := log.Append(v);
      if logged {
        outcome := Replied(VerdictReply(v));
      } else {
        outcome := Raised(LogWriteFailed);
      }
    }

    /** Handles one message of a connection. */
    method HandleMessage(msg: string) returns (outcome: Outcome)
      requires Valid()
      modifies history, log
      ensures Valid()
      ensures (Current(), outcome) == Step(decode, predict, log.writable, old(Current()), msg)
    {
      var payload := decode(msg);
      if payload.None? {
        return Raised(DecodeError);
      }
      if msg == Sentinel {
        var entries := history.Snapshot();
        return Replied(HistoryReply(entries));
      }
      match payload.value
      case OtherJson =>
        outcome := Raised(NotAMapping);
      case Object(r) =>
        outcome := Diagnose(r);
    }

    /** The message loop of one connection: handle each message, stop at the first one that raises. */
    method HandleClient(msgs: seq<string>) returns (replies: seq<Reply>, failure: Option<Failure>)
      requires Valid()
      modifies history, log
      ensures Valid()
      ensures RunResult(Current(), replies, failure) == Run(decode, predict, log.writable, old(Current()), msgs)
    {
      ghost var total := Run(decode, predict, log.writable, Current(), msgs);
      replies, failure := [], None;
      var i := 0;
      while i < |msgs| && failure.None?
        invariant 0 <= i <= |msgs|
        invariant Valid()
        invariant failure.None? ==> total == Resumed(replies, Run(decode, predict, log.writable, Current(), msgs[i..]))
        invariant failure.Some? ==> total == RunResult(Current(), replies, failure)
      {
        ghost var before := Current();
        RunFirst(decode, predict, log.writable, before, msgs, i);
        var outcome := HandleMessage(msgs[i]);
        match outcome {
          case Replied(reply) =>
            ResumedAssociates(replies, reply, Run(decode, predict, log.writable, Current(), msgs[i + 1..]));
            replies := replies + [reply];
          case Raised(f) =>
            failure := Some(f);
        }
        i := i + 1;
      }
      if failure.None? {
        assert msgs[i..] == [];
        assert replies + [] == replies;
      }
    }
  }
}
