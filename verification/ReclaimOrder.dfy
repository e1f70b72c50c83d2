/**
 * When a reclaim may take segments out of order (reclaimMount of log/Journal.cpp):
 * the exact condition under which it leaves the table in one piece.
 */
module ReclaimOrder {
  import opened JournalTypes
  import opened JournalSteps
  import opened SpaceReclaimer
  import opened JournalInvariant
  import opened JournalReading
  import opened JournalReclaim

  predicate RisingIds(segments: seq<SegmentRecord>) {
    forall i, j :: 0 <= i < j < |segments| ==> segments[i].segmentId < segments[j].segmentId
  }

  /** The table without its segment `i`. */
  function Without(segments: seq<SegmentRecord>, i: nat): seq<SegmentRecord>
    requires i < |segments|
  {
    segments[..i] + segments[i + 1..]
  }

  lemma WithoutAt(segments: seq<SegmentRecord>, i: nat, j: nat)
    requires i < |segments| && j < |segments| - 1
    ensures Without(segments, i)[j] == segments[if j < i then j else j + 1]
  {
  }

  lemma WithoutMembers(segments: seq<SegmentRecord>, i: nat)
    requires i < |segments| && RisingIds(segments)
    ensures RisingIds(Without(segments, i))
    ensures forall g :: g in Without(segments, i) <==> g in segments && g.segmentId != segments[i].segmentId
  {
    var r := Without(segments, i);
    forall j | 0 <= j < |r|
      ensures r[j] == segments[if j < i then j else j + 1]
    {
      WithoutAt(segments, i, j);
    }
    forall g | g in segments && g.segmentId != segments[i].segmentId
      ensures g in r
    {
      var j :| 0 <= j < |segments| && segments[j] == g;
      assert r[if j < i then j else j - 1] == g;
    }
  }

  lemma RemovedMembers(st: StreamState, id: nat)
    requires RisingIds(st.segments)
    ensures var t := Removed(st, id).0;
            RisingIds(t.segments) && forall g :: g in t.segments <==> g in st.segments && g.segmentId != id
  {
    var i := IndexOf(st.segments, id);
    if i < |st.segments| {
      WithoutMembers(st.segments, i);
      assert Removed(st, id).0.segments == Without(st.segments, i);
    }
  }

  /** Deleting some ids keeps exactly the other segments. */
  lemma {:induction false} RemovedAllMembers(st: StreamState, ids: seq<nat>)
    requires RisingIds(st.segments)
    ensures forall g :: g in RemovedAll(st, ids).0.segments <==> g in st.segments && g.segmentId !in ids
    decreases |ids|
  {
    if |ids| == 0 {
    } else {
      var one, all := Removed(st, ids[0]).0, RemovedAll(st, ids).0;
      RemovedMembers(st, ids[0]);
      RemovedAllMembers(one, ids[1..]);
      assert all == RemovedAll(one, ids[1..]).0;
      forall g
        ensures g in all.segments <==> g in st.segments && g.segmentId !in ids
      {
        FirstOrRest(ids, g.segmentId);
      }
    }
  }

  lemma FirstOrRest(ids: seq<nat>, id: nat)
    requires |ids| > 0
    ensures id in ids <==> id == ids[0] || id in ids[1..]
  {
    assert ids == [ids[0]] + ids[1..];
  }

  /** No other segment of a consistent table covers a seq of segment `j`. */
  lemma OnlyOneCovers(st: StreamState, j: nat, k: nat, s: nat)
    requires Consistent(st) && j < |st.segments| - 1 && k < |st.segments| - 1 && Covers(st.segments[j], s)
    ensures Covers(st.segments[k], s) ==> j == k
  {
    if j < k {
      StartsRise(st, j, k);
    } else if k < j {
      StartsRise(st, k, j);
    }
  }

  /** A table that lost a closed segment and kept an older one is not in one piece any more. */
  lemma HoleBreaksTable(st: StreamState, t: StreamState, i: nat, j: nat)
    requires Consistent(st) && i < j < |st.segments| - 1
    requires forall g :: g in t.segments ==> g in st.segments
    requires st.segments[i] in t.segments && st.segments[j] !in t.segments && st.Open() in t.segments
    ensures !Consistent(t)
  {
    if Consistent(t) {
      var s := st.segments[j].oldestSeq;
      StartsRise(st, i, j);
      StartsRise(st, j, |st.segments| - 1);
      assert ClosedOk(st.flash.files, st.segments[j]);
      var g := CoveredThroughout(t, st.segments[i], st.Open(), s);
      NobodyElseCovers(st, j, s, g);
    }
  }

  /** Between two segments of a consistent table every seq is covered by a third. */
  lemma CoveredThroughout(t: StreamState, from: SegmentRecord, to: SegmentRecord, s: nat) returns (g: SegmentRecord)
    requires Consistent(t) && from in t.segments && to in t.segments && from.oldestSeq <= s < to.oldestSeq
    ensures g in t.segments && Covers(g, s)
  {
    var a :| 0 <= a < |t.segments| && t.segments[a] == from;
    var b :| 0 <= b < |t.segments| && t.segments[b] == to;
    StartWithin(t, a);
    StartWithin(t, b);
    var m := CoveringSegment(t, s);
    g := t.segments[m];
  }

  lemma StartWithin(t: StreamState, a: nat)
    requires Consistent(t) && a < |t.segments|
    ensures t.cursor.oldestSeq <= t.segments[a].oldestSeq <= t.cursor.nextSeq
  {
    if a > 0 {
      StartsRise(t, 0, a);
    }
    if a < |t.segments| - 1 {
      StartsRise(t, a, |t.segments| - 1);
    }
  }

  lemma NobodyElseCovers(st: StreamState, j: nat, s: nat, g: SegmentRecord)
    requires Consistent(st) && j < |st.segments| - 1 && Covers(st.segments[j], s)
    requires g in st.segments && Covers(g, s) && s < st.Open().oldestSeq
    ensures g == st.segments[j]
  {
    var k :| 0 <= k < |st.segments| && st.segments[k] == g;
    assert st.Open() == st.segments[|st.segments| - 1];
    OnlyOneCovers(st, j, k, s);
  }

  /** The candidate of a closed segment is chosen exactly when its id is. */
  lemma ChosenIds(gs: seq<SegmentInfo>, c: seq<SegmentInfo>, j: nat)
    requires IdsRise(gs) && j < |gs| && forall g :: g in c ==> g in gs
    ensures gs[j].segmentId in Ids(c) <==> gs[j] in c
  {
    if gs[j] in c {
      var k :| 0 <= k < |c| && c[k] == gs[j];
      assert Ids(c)[k] == gs[j].segmentId;
    }
    if gs[j].segmentId in Ids(c) {
      var k :| 0 <= k < |c| && Ids(c)[k] == gs[j].segmentId;
      assert c[k] in gs;
      var l :| 0 <= l < |gs| && gs[l] == c[k];
      assert l == j;
    }
  }

  lemma OpenIsNotChosen(stream: Stream, st: StreamState, now: nat, c: seq<SegmentInfo>)
    requires Consistent(st) && forall g :: g in c ==> g in Candidates(stream, st, now)
    ensures st.Open().segmentId !in Ids(c)
  {
    var gs, n := Candidates(stream, st, now), |st.segments| - 1;
    forall k | 0 <= k < |c|
      ensures Ids(c)[k] != st.Open().segmentId
    {
      assert c[k] in gs;
      var l :| 0 <= l < |gs| && gs[l] == c[k];
      assert st.segments[l].segmentId < st.segments[n].segmentId;
    }
  }

  /** A reclaim that takes segment `j` and keeps an older one leaves a hole. */
  lemma ReclaimLeavesHole(st: StreamState, p: Pressure, now: nat, i: nat, j: nat)
    requires Consistent(st) && i < j < |st.segments| - 1
    requires var gs := Candidates(Data, st, now); gs[i] !in Choice(gs, p) && gs[j] in Choice(gs, p)
    ensures !Consistent(Reclaimed(Data, st, p, now).0)
  {
    var gs := Candidates(Data, st, now);
    var c := Choice(gs, p);
    CandidatesAreOneStream(Data, st, now);
    OrderIs(gs, p.retentionSeconds, Critical(p));
    assert forall g :: g in c ==> g in gs;
    ChosenIds(gs, c, i);
    ChosenIds(gs, c, j);
    OpenIsNotChosen(Data, st, now, c);
    RemovedAllMembers(st, Ids(c));
    HoleBreaksTable(st, Reclaimed(Data, st, p, now).0, i, j);
  }

  /** Some pressure makes an inversion of the ages a hole in the table. */
  lemma InversionLeavesHole(st: StreamState, retention: nat, now: nat) returns (p: Pressure)
    requires Consistent(st) && !AgesFall(Candidates(Data, st, now), retention)
    ensures p.retentionSeconds == retention && !Consistent(Reclaimed(Data, st, p, now).0)
  {
    var gs := Candidates(Data, st, now);
    var i, j :| 0 <= i < j < |gs| && !gs[i].fullyAcked && gs[i].ageSeconds <= retention && gs[j].ageSeconds > retention;
    CandidatesAreOneStream(Data, st, now);
    p := InversionSparesOlder(gs, retention, i, j);
    ReclaimLeavesHole(st, p, now, i, j);
  }

  /**
   * Whatever the pressure, a reclaim leaves the stream consistent exactly when the
   * ages it sees fall along the table (always, for Logs).
   */
  lemma ReclaimKeepsIff(stream: Stream, st: StreamState, retention: nat, now: nat)
    requires Consistent(st) && stream != Events
    ensures (forall p: Pressure :: p.retentionSeconds == retention ==> Consistent(Reclaimed(stream, st, p, now).0))
       <==> TakesOldest(stream, st, retention, now)
  {
    if TakesOldest(stream, st, retention, now) {
      forall p: Pressure | p.retentionSeconds == retention
        ensures Consistent(Reclaimed(stream, st, p, now).0)
      {
        ReclaimPicksPrefix(stream, st, p, now);
        var k := |Choice(Candidates(stream, st, now), p)|;
        var r := RemovedAll(st, FirstIds(st, k)).0;
        DroppedConsistent(st, r, k);
        SavedGood(r);
      }
    } else {
      var p := InversionLeavesHole(st, retention, now);
    }
  }
}
