/**
 * Sequence-number bookkeeping of one journal stream (log/JournalCursor.h): the
 * class with its fields, the functions its methods compute, and what the gap
 * markers of a run without reboots report.
 */
module JournalCursor {
  import opened Wrappers

  datatype Cursor = Cursor(nextSeq: nat, oldestSeq: nat, acked: Option<nat>)

  /** A marked hole `[fromSeq, toSeq)`. */
  datatype GapMarker = GapMarker(fromSeq: nat, toSeq: nat, count: nat)

  predicate IsAcked(c: Cursor, s: nat) { c.acked.Some? && s <= c.acked.value }

  function FirstUnacked(c: Cursor): nat { if c.acked.Some? then c.acked.value + 1 else 0 }

  function Acknowledge(c: Cursor, upToSeqInclusive: nat): Cursor {
    if c.nextSeq == 0 then c
    else
      var upTo := Min(upToSeqInclusive, c.nextSeq - 1);
      if c.acked.None? || upTo > c.acked.value then c.(acked := Some(upTo)) else c
  }

  function ReclaimedTo(c: Cursor, newOldestSeq: nat): (Cursor, Option<GapMarker>) {
    if newOldestSeq <= c.oldestSeq then (c, None)
    else
      var gapFrom := Max(c.oldestSeq, FirstUnacked(c));
      (c.(oldestSeq := newOldestSeq),
       if gapFrom >= newOldestSeq then None else Some(GapMarker(gapFrom, newOldestSeq, newOldestSeq - gapFrom)))
  }

  class JournalCursor {
    var nextSeq: nat
    var oldestSeq: nat
    var hasAck: bool
    var ackedSeq: nat

    ghost function View(): Cursor
      reads this
    {
      Cursor(nextSeq, oldestSeq, if hasAck then Some(ackedSeq) else None)
    }

    constructor ()
      ensures View() == Cursor(0, 0, None)
    {
      nextSeq, oldestSeq, hasAck, ackedSeq := 0, 0, false, 0;
    }

    method AssignSeq() returns (s: nat)
      modifies this
      ensures s == old(View()).nextSeq && View() == old(View()).(nextSeq := s + 1)
    {
      s := nextSeq;
      nextSeq := nextSeq + 1;
    }

    method Restore(next: nat, oldest: nat, acked: Option<nat>)
      modifies this
      ensures View() == Cursor(next, oldest, acked)
    {
      nextSeq := next;
      oldestSeq := oldest;
      hasAck := acked.Some?;
      ackedSeq := if acked.Some? then acked.value else 0;
    }

    method Ack(upToSeqInclusive: nat)
      modifies this
      ensures View() == Acknowledge(old(View()), upToSeqInclusive)
    {
      if nextSeq == 0 {
        return;
      }
      var upTo := upToSeqInclusive;
      if upTo >= nextSeq {
        upTo := nextSeq - 1;
      }
      if !hasAck || upTo > ackedSeq {
        hasAck := true;
        ackedSeq := upTo;
      }
    }

    method ReclaimTo(newOldestSeq: nat) returns (gap: Option<GapMarker>)
      modifies this
      ensures (View(), gap) == ReclaimedTo(old(View()), newOldestSeq)
    {
      var previousOldest := oldestSeq;
      if newOldestSeq <= previousOldest {
        return None;
      }
      var unackedBoundary := if hasAck then ackedSeq + 1 else 0;
      oldestSeq := newOldestSeq;
      var gapFrom := if previousOldest > unackedBoundary then previousOldest else unackedBoundary;
      if gapFrom >= newOldestSeq {
        return None;
      }
      return Some(GapMarker(gapFrom, newOldestSeq, newOldestSeq - gapFrom));
    }
  }

  // ---- runs without reboots ----

  datatype Op = Assign | Ack(upTo: nat) | Reclaim(newOldest: nat)

  /**
   * A cursor with the markers it has returned and, kept independently of them,
   * the set of seqs that were reclaimed at a moment when they were not acked.
   */
  datatype Traced = Traced(cursor: Cursor, markers: seq<GapMarker>, lost: set<nat>)

  function Step(t: Traced, op: Op): Traced {
    match op
    case Assign => t.(cursor := t.cursor.(nextSeq := t.cursor.nextSeq + 1))
    case Ack(upTo) => t.(cursor := Acknowledge(t.cursor, upTo))
    case Reclaim(newOldest) =>
      var (c, gap) := ReclaimedTo(t.cursor, newOldest);
      Traced(c,
             t.markers + (if gap.Some? then [gap.value] else []),
             t.lost + set s | t.cursor.oldestSeq <= s < newOldest && !IsAcked(t.cursor, s))
  }

  function Run(t: Traced, ops: seq<Op>): Traced
    decreases |ops|
  {
    if |ops| == 0 then t else Run(Step(t, ops[0]), ops[1..])
  }

  predicate InGap(g: GapMarker, s: nat) { g.fromSeq <= s < g.toSeq }

  /** Well-formed, ascending and disjoint, from `low` to below `high`. */
  ghost predicate Ascending(markers: seq<GapMarker>, low: nat, high: nat) {
    && (forall i :: 0 <= i < |markers| ==>
        var g := markers[i]; low <= g.fromSeq < g.toSeq <= high && g.count == g.toSeq - g.fromSeq)
    && (forall i, j :: 0 <= i < j < |markers| ==> markers[i].toSeq <= markers[j].fromSeq)
  }

  /** Well-formed, ascending, disjoint, below `oldestSeq`, and covering exactly the lost seqs. */
  ghost predicate MarkersExact(t: Traced) {
    && Ascending(t.markers, 0, t.cursor.oldestSeq)
    && (forall s: nat :: s in t.lost <==> exists i :: 0 <= i < |t.markers| && InGap(t.markers[i], s))
  }

  lemma AscendingJoin(a: seq<GapMarker>, b: seq<GapMarker>, low: nat, middle: nat, high: nat)
    requires low <= middle <= high && Ascending(a, low, middle) && Ascending(b, middle, high)
    ensures Ascending(a + b, low, high)
  {
  }

  /** One more marker, behind the others, for exactly the newly lost seqs. */
  lemma OneMoreMarker(t: Traced, u: Traced, g: GapMarker)
    requires MarkersExact(t) && u.markers == t.markers + [g]
    requires t.cursor.oldestSeq <= g.fromSeq < g.toSeq <= u.cursor.oldestSeq && g.count == g.toSeq - g.fromSeq
    requires forall s: nat :: s in u.lost <==> s in t.lost || InGap(g, s)
    ensures MarkersExact(u)
  {
    var n := |t.markers|;
    forall s: nat
      ensures s in u.lost <==> exists i :: 0 <= i < |u.markers| && InGap(u.markers[i], s)
    {
      if s in t.lost {
        var i :| 0 <= i < n && InGap(t.markers[i], s);
        assert InGap(u.markers[i], s);
      } else if InGap(g, s) {
        assert InGap(u.markers[n], s);
      }
      if i :| 0 <= i < |u.markers| && InGap(u.markers[i], s) {
        assert i < n ==> InGap(t.markers[i], s);
      }
    }
  }

  lemma StepKeepsMarkersExact(t: Traced, op: Op)
    requires MarkersExact(t)
    ensures MarkersExact(Step(t, op))
  {
    if op.Reclaim? {
      var u := Step(t, op);
      ReclaimLoses(t.cursor, op.newOldest);
      if u.markers != t.markers {
        OneMoreMarker(t, u, u.markers[|t.markers|]);
      } else {
        assert u.lost == t.lost;
      }
    }
  }

  /** The marker, if there is one, holds exactly the seqs that were still unacked. */
  lemma ReclaimLoses(c: Cursor, newOldest: nat)
    ensures var r := ReclaimedTo(c, newOldest);
      && c.oldestSeq <= r.0.oldestSeq
      && (forall s: nat :: c.oldestSeq <= s < newOldest && !IsAcked(c, s) <==> r.1.Some? && InGap(r.1.value, s))
      && (r.1.Some? ==> c.oldestSeq <= r.1.value.fromSeq < r.1.value.toSeq <= r.0.oldestSeq
                        && r.1.value.count == r.1.value.toSeq - r.1.value.fromSeq)
  {
  }

  /**
   * The markers of any run of assigns, acks and reclaims from a fresh cursor are
   * disjoint and ascending, and their union is exactly what was lost.
   */
  lemma {:induction false} MarkersAreExact(t: Traced, ops: seq<Op>)
    requires MarkersExact(t)
    ensures MarkersExact(Run(t, ops))
    decreases |ops|
  {
    if |ops| == 0 {
    } else {
      StepKeepsMarkersExact(t, ops[0]);
      MarkersAreExact(Step(t, ops[0]), ops[1..]);
    }
  }

  /** From a new cursor on, the markers are exact. */
  lemma MarkersOfAFreshCursor(ops: seq<Op>)
    ensures MarkersExact(Run(Traced(Cursor(0, 0, None), [], {}), ops))
  {
    MarkersAreExact(Traced(Cursor(0, 0, None), [], {}), ops);
  }

  /** Acks are monotone and never pass the last written seq, whatever the server sends. */
  lemma {:induction false} AcksAreClamped(t: Traced, ops: seq<Op>)
    requires t.cursor.acked.Some? ==> t.cursor.acked.value < t.cursor.nextSeq
    ensures var u := Run(t, ops).cursor;
            && (u.acked.Some? ==> u.acked.value < u.nextSeq)
            && FirstUnacked(t.cursor) <= FirstUnacked(u)
            && t.cursor.oldestSeq <= u.oldestSeq
            && (t.cursor.acked.Some? ==> u.acked.Some?)
    decreases |ops|
  {
    if |ops| == 0 {
    } else {
      AcksAreClamped(Step(t, ops[0]), ops[1..]);
    }
  }
}
