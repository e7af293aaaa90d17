/**
  The append-only audit log of verdicts, kept abstract: a sequence of lines,
  each a header or one verdict row. A header is written with a row exactly
  when the log file does not exist yet.
 */
module AuditTrail {

  import opened Diagnosis

  datatype LogLine = Header | Row(verdict: Verdict)

  /** Whether the log file exists, and its lines. */
  datatype LogState = LogState(present: bool, lines: seq<LogLine>)

  /** A log file that does not exist has no lines. */
  predicate Consistent(st: LogState) {
    !st.present ==> st.lines == []
  }

  /** The log after one successful append of a verdict. */
  function Logged(st: LogState, v: Verdict): (after: LogState)
    ensures after.present && Consistent(after)
    ensures |after.lines| > |st.lines| && after.lines[|after.lines| - 1] == Row(v)
    ensures after.lines[..|st.lines|] == st.lines
  {
    LogState(true, st.lines + (if st.present then [] else [Header]) + [Row(v)])
  }

  /** The log after successful appends of each verdict of `vs`, in order. */
  function LoggedAll(st: LogState, vs: seq<Verdict>): LogState
    decreases |vs|
  {
    if vs == [] then st else LoggedAll(Logged(st, vs[0]), vs[1..])
  }

  function Rows(vs: seq<Verdict>): seq<LogLine> {
    seq(|vs|, i requires 0 <= i < |vs| => Row(vs[i]))
  }

  /**
    A run of appends to an existing log adds one row per verdict, in order,
    and no header.
   */
  lemma {:induction false} AppendsToPresentLog(lines: seq<LogLine>, vs: seq<Verdict>)
    ensures LoggedAll(LogState(true, lines), vs) == LogState(true, lines + Rows(vs))
    decreases |vs|
  {
    if vs == [] {
      assert lines + Rows(vs) == lines;
    } else {
      AppendsToPresentLog(lines + [Row(vs[0])], vs[1..]);
      assert lines + [Row(vs[0])] + Rows(vs[1..]) == lines + Rows(vs);
    }
  }

  /**
    A run of appends to a fresh log writes exactly one header, first, and then
    one row per verdict, in order.
   */
  lemma HeaderWrittenOnce(vs: seq<Verdict>)
    requires vs != []
    ensures LoggedAll(LogState(false, []), vs) == LogState(true, [Header] + Rows(vs))
  {
    assert Logged(LogState(false, []), vs[0]) == LogState(true, [Header, Row(vs[0])]);
    AppendsToPresentLog([Header, Row(vs[0])], vs[1..]);
    assert [Header, Row(vs[0])] + Rows(vs[1..]) == [Header] + Rows(vs);
  }

  /** The log file as the server appends to it; `writable` stands for the storage accepting writes. */
  class AuditLog {
    var present: bool
    var lines: seq<LogLine>
    const writable: bool

    ghost predicate Valid()
      reads this
    {
      Consistent(LogState(present, lines))
    }

    function State(): LogState
      reads this
    {
      LogState(present, lines)
    }

    constructor (present: bool, lines: seq<LogLine>, writable: bool)
      requires Consistent(LogState(present, lines))
      ensures Valid() && State() == LogState(present, lines) && this.writable == writable
    {
      this.present := present;
      this.lines := lines;
      this.writable := writable;
    }

    /** Appends one verdict row, preceded by a header if the file did not exist; fails on unwritable storage. */
    method Append(v: Verdict) returns (ok: bool)
      requires Valid()
      modifies this
      ensures Valid()
      ensures ok == writable
      ensures State() == if ok then Logged(old(State()), v) else old(State())
    {
      if !writable {
        return false;
      }
      if !present {
        lines := lines + [Header];
      }
      lines := lines + [Row(v)];
      present := true;
      ok := true;
    }
  }
}
