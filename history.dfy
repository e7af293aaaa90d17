/**
  The bounded history of diagnosed records: a first-in first-out buffer of at
  most 100 entries, where appending to a full buffer drops the oldest entry.
 */
module History {

  import opened Diagnosis

  const Capacity: nat := 100

  /** What a buffer of `Capacity` keeps of a sequence of appended entries: its last `Capacity`. */
  function Retain<T>(s: seq<T>): (kept: seq<T>)
    ensures |kept| == if |s| <= Capacity then |s| else Capacity
    ensures kept == s[|s| - |kept|..]
  {
    if |s| <= Capacity then s else s[|s| - Capacity..]
  }

  /** The contents after appending each entry of `es`, in order, to a buffer holding `s`. */
  function AppendAll<T>(s: seq<T>, es: seq<T>): seq<T>
    decreases |es|
  {
    if es == [] then s else AppendAll(Retain(s + [es[0]]), es[1..])
  }

  /**
    Appending one entry: the new length is min(old + 1, Capacity), the entry is
    last, and the others are the old entries less the oldest one once full.
   */
  lemma AppendOne<T>(s: seq<T>, e: T)
    requires |s| <= Capacity
    ensures var t := Retain(s + [e]);
      |t| == (if |s| + 1 <= Capacity then |s| + 1 else Capacity)
      && t[|t| - 1] == e
      && t[..|t| - 1] == (if |s| < Capacity then s else s[1..])
  {
    var t := Retain(s + [e]);
    assert t[..|t| - 1] == (s + [e])[|s| + 1 - |t|..|s|];
  }

  /** Keeping the last `Capacity` twice is keeping them once. */
  lemma RetainOfAppend<T>(s: seq<T>, e: T, rest: seq<T>)
    ensures Retain(Retain(s + [e]) + rest) == Retain(s + [e] + rest)
  {
    var u := s + [e];
    var w := u + rest;
    var ru := Retain(u);
    assert ru + rest == w[|u| - |ru|..];
  }

  /**
    However many entries are appended, the buffer holds exactly the last
    `Capacity` of all entries appended so far, oldest first.
   */
  lemma {:induction false} AppendAllRetainsLast<T>(s: seq<T>, es: seq<T>)
    requires |s| <= Capacity
    ensures AppendAll(s, es) == Retain(s + es)
    decreases |es|
  {
    if es == [] {
      assert s + es == s;
    } else {
      var e, rest := es[0], es[1..];
      calc {
        AppendAll(s, es);
        AppendAll(Retain(s + [e]), rest);
        { AppendAllRetainsLast(Retain(s + [e]), rest); }
        Retain(Retain(s + [e]) + rest);
        { RetainOfAppend(s, e, rest); }
        Retain(s + [e] + rest);
        { assert s + [e] + rest == s + es; }
        Retain(s + es);
      }
    }
  }

  /** The history as a mutable buffer, the way the server holds it. */
  class SensorHistory {
    var entries: seq<Entry>

    ghost predicate Valid()
      reads this
    {
      |entries| <= Capacity
    }

    constructor ()
      ensures Valid() && entries == []
    {
      entries := [];
    }

    /** Appends one entry, dropping the oldest one when the buffer is full. */
    method Append(e: Entry)
      requires Valid()
      modifies this
      ensures Valid()
      ensures entries == Retain(old(entries) + [e])
    {
      if |entries| == Capacity {
        entries := entries[1..] + [e];
      } else {
        entries := entries + [e];
      }
    }

    /** All entries, oldest first; the buffer is left as it is. */
    method Snapshot() returns (s: seq<Entry>)
      requires Valid()
      ensures s == entries && |s| <= Capacity
    {
      s := entries;
    }
  }
}
