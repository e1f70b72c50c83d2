/**
 * Space reclamation seen from the journal (reclaimMount of log/Journal.cpp): the
 * segments deleted are the oldest ones, the invariant survives, and every seq
 * that goes is either acked or inside a returned gap marker. Also: what happens when
 * the segment table is full.
 */
module JournalReclaim {
  import opened Wrappers
  import opened JournalCursor
  import opened JournalTypes
  import opened JournalSteps
  import opened SpaceReclaimer
  import opened JournalInvariant

  function FirstIds(st: StreamState, k: nat): seq<nat>
    requires k <= |st.segments|
  {
    seq(k, i requires 0 <= i < k => st.segments[i].segmentId)
  }

  ghost predicate Marked(gaps: seq<GapMarker>, s: nat) {
    exists i :: 0 <= i < |gaps| && InGap(gaps[i], s)
  }

  /** The markers report exactly the unacked seqs from the cursor's oldest up to `newOldest`. */
  ghost predicate GapsCover(c: Cursor, newOldest: nat, gaps: seq<GapMarker>) {
    forall s: nat :: Marked(gaps, s) <==> c.oldestSeq <= s < newOldest && !IsAcked(c, s)
  }

  /** `t` is `st` without its first `k` segments. */
  ghost predicate Dropped(st: StreamState, t: StreamState, k: nat)
    requires k < |st.segments|
  {
    && t.segments == st.segments[k..]
    && t.cursor == st.cursor.(oldestSeq := st.segments[k].oldestSeq)
    && t.openBytes == st.openBytes && t.handle == st.handle && t.flash.index == st.flash.index
    && (forall id ::
          id in t.flash.files <==> id in st.flash.files && forall i :: 0 <= i < k ==> st.segments[i].segmentId != id)
    && (forall id :: id in t.flash.files ==> t.flash.files[id] == st.flash.files[id])
  }

  lemma FirstGap(c: Cursor, newOldest: nat)
    requires c.oldestSeq <= newOldest
    ensures GapsCover(c, newOldest, Listed(ReclaimedTo(c, newOldest).1))
    ensures Ascending(Listed(ReclaimedTo(c, newOldest).1), c.oldestSeq, newOldest)
  {
    var gap := ReclaimedTo(c, newOldest).1;
    forall s: nat
      ensures Marked(Listed(gap), s) <==> c.oldestSeq <= s < newOldest && !IsAcked(c, s)
    {
      if gap.Some? {
        assert InGap(Listed(gap)[0], s) <==> InGap(gap.value, s);
      }
    }
  }

  lemma WithoutFirst(segments: seq<SegmentRecord>)
    requires |segments| > 1
    ensures IndexOf(segments, segments[0].segmentId) == 0 && segments[..0] + segments[1..] == segments[1..]
  {
    NoneAround(segments[1..]);
  }

  /** Deleting the first segment, piece by piece. */
  lemma RemovedFirst(st: StreamState)
    requires |st.segments| > 1
    ensures var r, c := Removed(st, st.segments[0].segmentId), ReclaimedTo(st.cursor, st.segments[0].newestSeq + 1);
            && r.0 == st.(cursor := c.0, segments := st.segments[1..],
                          flash := st.flash.(files := st.flash.files - {st.segments[0].segmentId}))
            && r.1 == c.1
  {
    WithoutFirst(st.segments);
  }

  lemma FirstEnds(st: StreamState)
    requires Consistent(st) && |st.segments| > 1
    ensures st.segments[1].oldestSeq == st.segments[0].newestSeq + 1 && st.cursor.oldestSeq < st.segments[1].oldestSeq
  {
    assert ClosedOk(st.flash.files, st.segments[0]);
  }

  lemma DroppedOne(st: StreamState, t: StreamState)
    requires |st.segments| > 1
    requires t == st.(cursor := st.cursor.(oldestSeq := st.segments[1].oldestSeq), segments := st.segments[1..],
                      flash := st.flash.(files := st.flash.files - {st.segments[0].segmentId}))
    ensures Dropped(st, t, 1)
  {
    forall id
      ensures id in t.flash.files <==> id in st.flash.files && forall i :: 0 <= i < 1 ==> st.segments[i].segmentId != id
    {
    }
  }

  lemma DropFirst(st: StreamState)
    requires Consistent(st) && |st.segments| > 1
    ensures var r := Removed(st, st.segments[0].segmentId);
            Dropped(st, r.0, 1) && st.cursor.oldestSeq <= r.0.cursor.oldestSeq
            && GapsCover(st.cursor, r.0.cursor.oldestSeq, Listed(r.1))
            && Ascending(Listed(r.1), st.cursor.oldestSeq, r.0.cursor.oldestSeq)
  {
    var r := Removed(st, st.segments[0].segmentId);
    RemovedFirst(st);
    FirstEnds(st);
    DroppedOne(st, r.0);
    FirstGap(st.cursor, st.segments[1].oldestSeq);
  }

  lemma DroppedConsistent(st: StreamState, t: StreamState, k: nat)
    requires Consistent(st) && k < |st.segments| && Dropped(st, t, k)
    ensures Consistent(t) && t.OpenContent() == st.OpenContent() && t.Open() == st.Open()
  {
    DroppedTable(st, t, k);
    DroppedOpen(st, t, k);
    DroppedClosed(st, t, k);
    forall id | id in t.flash.files
      ensures Tracked(t.segments, id)
    {
      DroppedTracked(st, t, k, id);
    }
  }

  lemma DroppedOpen(st: StreamState, t: StreamState, k: nat)
    requires Consistent(st) && k < |st.segments| && Dropped(st, t, k)
    ensures t.OpenContent() == st.OpenContent() && t.Open() == st.Open()
  {
    LastOfSuffix(st.segments, k);
    OpenIsLast(st, k);
    assert st.Open().segmentId in t.flash.files <==> st.Open().segmentId in st.flash.files;
  }

  lemma LastOfSuffix(segments: seq<SegmentRecord>, k: nat)
    requires k < |segments|
    ensures segments[k..][|segments| - k - 1] == segments[|segments| - 1]
  {
  }

  lemma OpenIsLast(st: StreamState, k: nat)
    requires Consistent(st) && k < |st.segments|
    ensures forall i :: 0 <= i < k ==> st.segments[i].segmentId != st.Open().segmentId
  {
    forall i | 0 <= i < k
      ensures st.segments[i].segmentId != st.Open().segmentId
    {
      assert st.segments[i].segmentId < st.segments[|st.segments| - 1].segmentId;
    }
  }

  lemma DroppedClosed(st: StreamState, t: StreamState, k: nat)
    requires Consistent(st) && k < |st.segments| && Dropped(st, t, k)
    ensures forall i :: 0 <= i < |t.segments| - 1 ==> ClosedOk(t.flash.files, t.segments[i])
  {
    forall i | 0 <= i < |t.segments| - 1
      ensures ClosedOk(t.flash.files, t.segments[i])
    {
      assert t.segments[i] == st.segments[k + i] && ClosedOk(st.flash.files, st.segments[k + i]);
    }
  }

  lemma DroppedTracked(st: StreamState, t: StreamState, k: nat, id: nat)
    requires Consistent(st) && k < |st.segments| && Dropped(st, t, k) && id in t.flash.files
    ensures Tracked(t.segments, id)
  {
    assert Tracked(st.segments, id);
    var i :| 0 <= i < |st.segments| && st.segments[i].segmentId == id;
    assert i >= k;
    assert t.segments[i - k].segmentId == id;
  }

  lemma DroppedTable(st: StreamState, t: StreamState, k: nat)
    requires Consistent(st) && k < |st.segments| && t.segments == st.segments[k..]
    ensures TableOk(t.segments, st.segments[k].oldestSeq)
  {
    forall i, j | 0 <= i < j < |t.segments|
      ensures t.segments[i].segmentId < t.segments[j].segmentId
      ensures j == i + 1 ==> t.segments[j].oldestSeq == t.segments[i].newestSeq + 1
    {
      assert t.segments[i] == st.segments[k + i] && t.segments[j] == st.segments[k + j];
      assert st.segments[k + i].segmentId < st.segments[k + j].segmentId;
      if j == i + 1 {
        assert st.segments[k + j].oldestSeq == st.segments[k + i].newestSeq + 1;
      }
    }
    assert forall i :: 0 <= i < |t.segments| ==> t.segments[i] == st.segments[k + i];
  }

  lemma DroppedHolds(st: StreamState, t: StreamState, k: nat)
    requires Consistent(st) && k < |st.segments| && Dropped(st, t, k)
    ensures HoldsOnly(t, st)
  {
    forall q: nat, r: bytes | Holds(t, q, r)
      ensures Holds(st, q, r)
    {
      var i := HoldsAt(t, q, r);
      DroppedFrames(st, t, k, i);
      HoldsMoves(t, i, st, k + i, q, r);
    }
  }

  lemma DroppedFrames(st: StreamState, t: StreamState, k: nat, i: nat)
    requires k < |st.segments| && Dropped(st, t, k) && i < |t.segments|
    ensures t.segments[i] == st.segments[k + i] && FramesOf(t, i) <= FramesOf(st, k + i)
  {
  }

  lemma DroppedTwice(st: StreamState, t: StreamState, u: StreamState, k: nat)
    requires 1 + k < |st.segments| && Dropped(st, t, 1) && Dropped(t, u, k)
    ensures Dropped(st, u, 1 + k)
  {
    assert u.segments == st.segments[1 + k..];
    assert t.segments[k] == st.segments[1 + k];
    forall id
      ensures id in u.flash.files
         <==> id in st.flash.files && forall i :: 0 <= i < 1 + k ==> st.segments[i].segmentId != id
    {
      if id in t.flash.files {
        assert (forall i :: 0 <= i < k ==> t.segments[i].segmentId != id)
               <==> (forall i :: 1 <= i < 1 + k ==> st.segments[i].segmentId != id) by {
          assert forall i :: 0 <= i < k ==> t.segments[i] == st.segments[i + 1];
          assert forall i :: 1 <= i < 1 + k ==> st.segments[i] == t.segments[i - 1];
        }
      }
    }
  }

  /** What deleting the `k` oldest closed segments does and reports. */
  ghost predicate PrefixReclaimed(st: StreamState, t: StreamState, gaps: seq<GapMarker>, k: nat)
    requires k < |st.segments|
  {
    && Dropped(st, t, k) && st.cursor.oldestSeq <= t.cursor.oldestSeq
    && GapsCover(st.cursor, t.cursor.oldestSeq, gaps)
    && Ascending(gaps, st.cursor.oldestSeq, t.cursor.oldestSeq)
  }

  /** Removing the first `k` segments one by one leaves the others, with exact markers. */
  lemma {:induction false} RemovePrefix(st: StreamState, k: nat) returns (r: (StreamState, seq<GapMarker>))
    requires Consistent(st) && k < |st.segments|
    ensures r == RemovedAll(st, FirstIds(st, k)) && PrefixReclaimed(st, r.0, r.1, k)
    decreases k
  {
    if k == 0 {
      r := RemoveNone(st);
    } else {
      var one := FirstDropped(st);
      var rest := RemovePrefix(one, k - 1);
      r := RemoveMore(st, k, one, rest);
    }
  }

  lemma FirstDropped(st: StreamState) returns (one: StreamState)
    requires Consistent(st) && |st.segments| > 1
    ensures one == Removed(st, st.segments[0].segmentId).0
    ensures Consistent(one) && |one.segments| == |st.segments| - 1
  {
    one := Removed(st, st.segments[0].segmentId).0;
    DropFirst(st);
    DroppedConsistent(st, one, 1);
  }

  lemma RemoveMore(st: StreamState, k: nat, one: StreamState, rest: (StreamState, seq<GapMarker>))
    returns (r: (StreamState, seq<GapMarker>))
    requires Consistent(st) && 0 < k < |st.segments| && one == Removed(st, st.segments[0].segmentId).0
    requires |one.segments| == |st.segments| - 1 && rest == RemovedAll(one, FirstIds(one, k - 1))
    requires PrefixReclaimed(one, rest.0, rest.1, k - 1)
    ensures r == RemovedAll(st, FirstIds(st, k)) && PrefixReclaimed(st, r.0, r.1, k)
  {
    var gap := Removed(st, st.segments[0].segmentId).1;
    r := (rest.0, Listed(gap) + rest.1);
    DropFirst(st);
    JoinSteps(st, one, rest.0, gap, rest.1, k);
    UnfoldRemoved(st, k, (one, gap), rest);
  }

  lemma UnfoldRemoved(st: StreamState, k: nat, first: (StreamState, Option<GapMarker>),
    r: (StreamState, seq<GapMarker>))
    requires 0 < k < |st.segments| && first == Removed(st, st.segments[0].segmentId)
             && first.0.segments == st.segments[1..]
    requires r == RemovedAll(first.0, FirstIds(first.0, k - 1))
    ensures RemovedAll(st, FirstIds(st, k)) == (r.0, Listed(first.1) + r.1)
  {
    TailIds(st, first.0, k);
  }

  lemma TailIds(st: StreamState, one: StreamState, k: nat)
    requires 0 < k < |st.segments| && one.segments == st.segments[1..]
    ensures FirstIds(st, k)[0] == st.segments[0].segmentId && FirstIds(st, k)[1..] == FirstIds(one, k - 1)
  {
  }

  lemma RemoveNone(st: StreamState) returns (r: (StreamState, seq<GapMarker>))
    requires Consistent(st)
    ensures r == RemovedAll(st, FirstIds(st, 0)) && PrefixReclaimed(st, r.0, r.1, 0)
  {
    r := (st, []);
    assert st.segments[0..] == st.segments;
  }

  lemma JoinSteps(st: StreamState, one: StreamState, t: StreamState,
    gap: Option<GapMarker>, rest: seq<GapMarker>, k: nat)
    requires 0 < k < |st.segments| && Dropped(st, one, 1) && PrefixReclaimed(one, t, rest, k - 1)
    requires st.cursor.oldestSeq <= one.cursor.oldestSeq && GapsCover(st.cursor, one.cursor.oldestSeq, Listed(gap))
    requires Ascending(Listed(gap), st.cursor.oldestSeq, one.cursor.oldestSeq)
    ensures PrefixReclaimed(st, t, Listed(gap) + rest, k)
  {
    AscendingJoin(Listed(gap), rest, st.cursor.oldestSeq, one.cursor.oldestSeq, t.cursor.oldestSeq);
    DroppedTwice(st, one, t, k - 1);
    GapsJoin(st.cursor, one.cursor.oldestSeq, t.cursor.oldestSeq, Listed(gap), rest);
  }

  lemma GapsJoin(c: Cursor, m: nat, n: nat, a: seq<GapMarker>, b: seq<GapMarker>)
    requires c.oldestSeq <= m <= n && GapsCover(c, m, a) && GapsCover(c.(oldestSeq := m), n, b)
    ensures GapsCover(c, n, a + b)
  {
    MarkedJoin(a, b);
  }

  lemma MarkedJoin(a: seq<GapMarker>, b: seq<GapMarker>)
    ensures forall s: nat :: Marked(a + b, s) <==> Marked(a, s) || Marked(b, s)
  {
    var gaps := a + b;
    forall s: nat
      ensures Marked(gaps, s) <==> Marked(a, s) || Marked(b, s)
    {
      if Marked(a, s) {
        var i :| 0 <= i < |a| && InGap(a[i], s);
        assert gaps[i] == a[i];
      }
      if Marked(b, s) {
        var i :| 0 <= i < |b| && InGap(b[i], s);
        assert gaps[|a| + i] == b[i];
      }
      if Marked(gaps, s) {
        var i :| 0 <= i < |gaps| && InGap(gaps[i], s);
        if i >= |a| {
          assert gaps[i] == b[i - |a|];
        }
      }
    }
  }

  // ---- which segments reclaimMount picks ----

  /**
   * By the ages a reclaim at `now` sees, no unacked segment inside the retention
   * window precedes one past it. Logs need no such thing; Events are never reclaimed.
   */
  ghost predicate TakesOldest(stream: Stream, st: StreamState, retention: nat, now: nat)
    requires |st.segments| > 0
  {
    stream != Events && (stream == Data ==> AgesFall(Candidates(Data, st, now), retention))
  }

  /** No age exceeds the uptime, so it holds until the device has been up for the retention window. */
  lemma TakesOldestAfterBoot(stream: Stream, st: StreamState, retention: nat, now: nat)
    requires |st.segments| > 0 && stream != Events && now <= retention
    ensures TakesOldest(stream, st, retention, now)
  {
  }

  /** It holds at any time when all segments were closed in one boot, the oldest first. */
  lemma TakesOldestInOneBoot(stream: Stream, st: StreamState, retention: nat, now: nat)
    requires |st.segments| > 0 && stream != Events
    requires forall i, j :: 0 <= i < j < |st.segments| - 1 ==> st.segments[i].closedAt <= st.segments[j].closedAt
    ensures TakesOldest(stream, st, retention, now)
  {
  }

  lemma CandidatesAreOneStream(stream: Stream, st: StreamState, now: nat)
    requires Consistent(st)
    ensures OneStream(Candidates(stream, st, now), stream)
  {
    var gs := Candidates(stream, st, now);
    forall i, j | 0 <= i < j < |gs|
      ensures gs[i].segmentId < gs[j].segmentId && (gs[j].fullyAcked ==> gs[i].fullyAcked)
    {
      StartsRise(st, i, j);
      assert ClosedOk(st.flash.files, st.segments[j]);
    }
  }

  /**
   * reclaimMount deletes a prefix of the closed segments, never the open one:
   * always for Logs, and for Data when the ages fall along the table.
   */
  lemma ReclaimPicksPrefix(stream: Stream, st: StreamState, p: Pressure, now: nat)
    requires Consistent(st) && TakesOldest(stream, st, p.retentionSeconds, now)
    ensures var k := |Choice(Candidates(stream, st, now), p)|;
            && k < |st.segments|
            && Ids(Choice(Candidates(stream, st, now), p)) == FirstIds(st, k)
            && var (t, gaps) := Reclaimed(stream, st, p, now);
               var (r, gs) := RemovedAll(st, FirstIds(st, k));
               gaps == gs && t == (if k > 0 then SavedIndex(r) else r) && PrefixReclaimed(st, r, gs, k)
  {
    var gs := Candidates(stream, st, now);
    CandidatesAreOneStream(stream, st, now);
    AgesFallRanks(gs, stream, p.retentionSeconds);
    RankedDeletesPrefix(gs, p);
    var c := Choice(gs, p);
    var k := |c|;
    assert c == gs[..k];
    forall i | 0 <= i < k
      ensures Ids(c)[i] == FirstIds(st, k)[i]
    {
      assert c[i] == gs[i];
    }
    assert Ids(c) == FirstIds(st, k);
    var r := RemovePrefix(st, k);
  }

  lemma SavedGood(st: StreamState)
    requires Consistent(st)
    ensures Good(SavedIndex(st)) && HoldsOnly(SavedIndex(st), st) && HoldsOnly(st, SavedIndex(st))
  {
    var t := SavedIndex(st);
    forall i | 0 <= i < |st.segments| - 1
      ensures ClosedOk(t.flash.files, t.segments[i])
    {
      assert ClosedOk(st.flash.files, st.segments[i]);
    }
    EqualFramesHoldSame(st, t);
  }

  lemma AckKeeps(st: StreamState, upTo: nat)
    requires Good(st)
    ensures var t := Acked(st, upTo);
            Good(t) && HoldsOnly(t, st) && HoldsOnly(st, t) && t.cursor == Acknowledge(st.cursor, upTo)
  {
    var u := st.(cursor := Acknowledge(st.cursor, upTo));
    assert Consistent(u);
    SavedGood(u);
    EqualFramesHoldSame(st, Acked(st, upTo));
  }

  // ---- a full table ----

  /**
   * A rotation keeps the bookkeeping of the open segment true if and only if the
   * table has room for another segment.
   */
  lemma RotationKeepsIff(st: StreamState, now: nat)
    requires Good(st) && st.openBytes >= ROTATE_BYTES
    ensures Consistent(Rotated(st, now)) <==> |st.segments| < MAX_SEGMENTS
  {
    if |st.segments| < MAX_SEGMENTS {
      RotationKeeps(st, now);
    } else {
      var t := Rotated(st, now);
      assert t.openBytes == 0 && t.Open().segmentId == st.Open().segmentId;
      assert t.OpenContent() == st.OpenContent();
    }
  }

  /** With a full table the next failed write is rolled back to an empty file, and every record in it is gone. */
  lemma FullTableLosesRecords(st: StreamState, now: nat, payload: bytes, landed: nat)
    requires Good(st) && st.openBytes >= ROTATE_BYTES && |st.segments| == MAX_SEGMENTS
    ensures |FramesOf(st, MAX_SEGMENTS - 1)| > 0
    ensures var t := FrameWritten(Rotated(st, now), payload, CutShort(landed)).0; FramesOf(t, MAX_SEGMENTS - 1) == []
  {
    NonEmpty(st.OpenContent());
    var r := Rotated(st, now);
    var t := FrameWritten(r, payload, CutShort(landed)).0;
    assert t.OpenContent() == [];
    assert t.segments[MAX_SEGMENTS - 1] == t.Open();
  }
}
