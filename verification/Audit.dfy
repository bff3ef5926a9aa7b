/** The append-only decision log and its numbering (governance/audit.py). */
module Audit {
  import opened Text
  import opened Model

  datatype AuditEvent = AuditEvent(id: string, trace: string, decision: Decision, executed: Option<bool>, outcome: DecisionKind)

  function EventId(trace: string, n: nat): string { trace + ("-" + Pad4(n)) }

  function IdsOf(events: seq<AuditEvent>): set<string> { set i | 0 <= i < |events| :: events[i].id }

  /** The sequence number of an event of the trace; zero for any other id. */
  function SequenceOf(e: AuditEvent, trace: string): nat {
    var prefix := trace + "-";
    if e.trace == trace && prefix <= e.id && IsDigits(e.id[|prefix|..]) then ValueOf(e.id[|prefix|..]) else 0
  }

  function Highest(events: seq<AuditEvent>, trace: string): nat {
    if events == [] then 0
    else
      var front, last := Highest(events[..|events| - 1], trace), SequenceOf(events[|events| - 1], trace);
      if last > front then last else front
  }

  /** `next_sequence`. */
  function NextSequence(events: seq<AuditEvent>, trace: string): nat { Highest(events, trace) + 1 }

  ghost predicate OwnNumber(e: AuditEvent) { exists n: nat :: e.id == EventId(e.trace, n) }

  /** Every event is numbered under its own trace. */
  ghost predicate Numbered(events: seq<AuditEvent>) {
    forall i :: 0 <= i < |events| ==> OwnNumber(events[i])
  }

  lemma PadIsPlain(n: nat)
    ensures IsDigits(Pad4(n)) && ValueOf(Pad4(n)) == n && forall i :: 0 <= i < |Pad4(n)| ==> Pad4(n)[i] != '-'
  {
    PaddedRoundTrip(n);
  }

  /** An id determines its trace and its number. */
  lemma IdsAreInjective(s: string, m: nat, t: string, n: nat)
    requires EventId(s, m) == EventId(t, n)
    ensures s == t && m == n
  {
    PadIsPlain(m);
    PadIsPlain(n);
    hide Pad4, IsDigits, ValueOf;
    var id, a, b := EventId(s, m), "-" + Pad4(m), "-" + Pad4(n);
    assert id == s + a && id == t + b;
    assert |s| == |t| by {
      assert id[|s|] == '-' && id[|t|] == '-';
      assert forall k :: |s| < k < |id| ==> id[k] == a[k - |s|] && a[k - |s|] == Pad4(m)[k - |s| - 1];
      assert forall k :: |t| < k < |id| ==> id[k] == b[k - |t|] && b[k - |t|] == Pad4(n)[k - |t| - 1];
    }
    assert id[..|s|] == s && id[..|t|] == t && id[|s|..] == a && id[|t|..] == b;
    assert a[1..] == Pad4(m) && b[1..] == Pad4(n);
  }

  lemma SequenceOfOwn(e: AuditEvent, trace: string, n: nat)
    requires e.trace == trace && e.id == EventId(trace, n)
    ensures SequenceOf(e, trace) == n
  {
    PadIsPlain(n);
    assert e.id[|trace| + 1..] == Pad4(n);
    assert trace + "-" <= e.id;
  }

  lemma {:induction false} HighestBounds(events: seq<AuditEvent>, trace: string, i: nat)
    requires i < |events|
    ensures SequenceOf(events[i], trace) <= Highest(events, trace)
  {
    if i < |events| - 1 { HighestBounds(events[..|events| - 1], trace, i); }
  }

  /** An event of another trace under an id of this one, numbered from `n` on. */
  ghost predicate Foreign(events: seq<AuditEvent>, trace: string, n: nat) {
    exists i, k: nat :: 0 <= i < |events| && k >= n && events[i].trace != trace && events[i].id == EventId(trace, k)
  }

  /** From `n` on no id of the trace is in the log. */
  ghost predicate FreeFrom(events: seq<AuditEvent>, trace: string, n: nat) {
    forall k: nat :: k >= n ==> EventId(trace, k) !in IdsOf(events)
  }

  lemma OwnIsBelow(events: seq<AuditEvent>, trace: string, i: nat, k: nat)
    requires i < |events| && events[i].trace == trace && events[i].id == EventId(trace, k)
    ensures k < NextSequence(events, trace)
  {
    hide EventId, SequenceOf, Highest;
    SequenceOfOwn(events[i], trace, k);
    HighestBounds(events, trace, i);
  }

  /** A recovered trace goes on with ids that are not in the log, from the next sequence
      on, exactly unless another trace already holds such an id. */
  lemma NextSequenceIsFreshExactly(events: seq<AuditEvent>, trace: string)
    ensures FreeFrom(events, trace, NextSequence(events, trace)) <==> !Foreign(events, trace, NextSequence(events, trace))
  {
    hide EventId, NextSequence;
    var n := NextSequence(events, trace);
    if i: nat, k: nat :| i < |events| && k >= n && events[i].trace != trace && events[i].id == EventId(trace, k) {
      assert EventId(trace, k) in IdsOf(events);
    }
    forall k: nat | k >= n && EventId(trace, k) in IdsOf(events) ensures Foreign(events, trace, n) {
      var i :| 0 <= i < |events| && events[i].id == EventId(trace, k);
      if events[i].trace == trace { OwnIsBelow(events, trace, i, k); }
    }
  }

  /** Such a log: one event of another trace that carries this trace's first id. */
  lemma ForeignIdsCollide() returns (events: seq<AuditEvent>)
    ensures FreeFrom(events, "X", NextSequence(events, "X"))
    ensures EventId("T", NextSequence(events, "T")) in IdsOf(events)
  {
    var e := AuditEvent(EventId("T", 1), "X", DecisionRecord(Block, None, "", [], "", [], [], 0), None, Block);
    events := [e];
    assert events[..0] == [] && Highest([], "T") == 0;
    assert EventId("T", NextSequence(events, "T")) == e.id;
    assert events[0].id in IdsOf(events);
    NextSequenceIsFreshExactly(events, "X");
    hide Pad4;
    forall k: nat ensures EventId("X", k) != e.id { assert EventId("X", k)[0] == 'X' && e.id[0] == 'T'; }
  }

  /** A log in which every event is numbered under its own trace holds no foreign id. */
  lemma NumberedIsFree(events: seq<AuditEvent>, trace: string)
    requires Numbered(events)
    ensures FreeFrom(events, trace, NextSequence(events, trace))
  {
    NextSequenceIsFreshExactly(events, trace);
    hide EventId, NextSequence, FreeFrom;
    var n := NextSequence(events, trace);
    if Foreign(events, trace, n) {
      var i: nat, k: nat :| i < |events| && k >= n && events[i].trace != trace && events[i].id == EventId(trace, k);
      assert OwnNumber(events[i]);
      var m: nat :| events[i].id == EventId(events[i].trace, m);
      IdsAreInjective(events[i].trace, m, trace, k);
    }
  }

  lemma IdsAppend(events: seq<AuditEvent>, e: AuditEvent)
    ensures IdsOf(events + [e]) == IdsOf(events) + {e.id}
  {
    var all := events + [e];
    forall x | x in IdsOf(events) ensures x in IdsOf(all) {
      var i :| 0 <= i < |events| && events[i].id == x;
      assert all[i].id == x;
    }
    assert all[|events|] == e;
  }

  /** An event numbered under its own trace keeps a log numbered, and every trace free
      from where it was, up to the event's own. */
  lemma AppendingKeeps(events: seq<AuditEvent>, e: AuditEvent, n: nat, trace: string, m: nat)
    requires e.id == EventId(e.trace, n)
    ensures Numbered(events) ==> Numbered(events + [e])
    ensures FreeFrom(events, trace, m) && (trace == e.trace ==> n < m) ==> FreeFrom(events + [e], trace, m)
  {
    hide EventId;
    IdsAppend(events, e);
    assert OwnNumber(e);
    if FreeFrom(events, trace, m) && (trace == e.trace ==> n < m) {
      forall k: nat | k >= m ensures EventId(trace, k) !in IdsOf(events + [e]) {
        if EventId(trace, k) == e.id { IdsAreInjective(trace, k, e.trace, n); }
      }
    }
  }

  class AuditLog {
    var events: seq<AuditEvent>
    var ids: set<string>

    predicate Valid()
      reads this
    {
      ids == IdsOf(events) && forall i, j :: 0 <= i < j < |events| ==> events[i].id != events[j].id
    }

    constructor ()
      ensures Valid() && events == []
    {
      events, ids := [], {};
    }

    /** `append`: refused exactly when the id is taken. */
    method Append(e: AuditEvent) returns (ok: bool)
      requires Valid()
      modifies this
      ensures Valid() && (ok <==> e.id !in IdsOf(old(events)))
      ensures events == if ok then old(events) + [e] else old(events)
    {
      if e.id in ids { return false; }
      ids := ids + {e.id};
      events := events + [e];
      IdsAppend(old(events), e);
      forall i | 0 <= i < |old(events)| ensures events[i].id != e.id { assert old(events)[i].id in IdsOf(old(events)); }
      return true;
    }

    method NextSequenceOf(trace: string) returns (n: nat)
      requires Valid()
      ensures n == NextSequence(events, trace)
    {
      var highest := 0;
      for i := 0 to |events|
        invariant highest == Highest(events[..i], trace)
      {
        assert events[..i + 1][..i] == events[..i];
        var sequence := SequenceOf(events[i], trace);
        if sequence > highest { highest := sequence; }
      }
      assert events[..|events|] == events;
      return highest + 1;
    }
  }
}
