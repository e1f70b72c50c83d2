/**
 * What a reclaim takes, in terms of the records, the close times and the sizes of
 * the segments (reclaimMount of log/Journal.cpp and log/SpaceReclaimer.cpp).
 */
module ReclaimMeaning {
  import opened Wrappers
  import opened JournalCursor
  import opened JournalTypes
  import opened JournalSteps
  import opened SpaceReclaimer
  import opened JournalInvariant
  import opened JournalReclaim
  import opened ReclaimOrder

  /** Every record of the segment has been acked. */
  predicate WholeAcked(g: SegmentRecord, c: Cursor) {
    forall s: nat :: g.oldestSeq <= s <= g.newestSeq ==> IsAcked(c, s)
  }

  /** It was closed longer ago than the retention window, by the uptime. */
  predicate PastWindow(g: SegmentRecord, now: nat, retention: nat) { now - g.closedAt > retention }

  /** How soon a closed segment is given up; 4 only when space is critical. */
  function Kind(stream: Stream, g: SegmentRecord, c: Cursor, now: nat, retention: nat): nat
    requires stream != Events
  {
    if WholeAcked(g, c) then 1
    else if stream == Logs then 3
    else if PastWindow(g, now, retention) then 2
    else 4
  }

  lemma KindIsTier(stream: Stream, st: StreamState, now: nat, retention: nat, i: nat)
    requires Consistent(st) && stream != Events && i < |st.segments| - 1
    ensures Tier(Candidates(stream, st, now)[i], retention) == Kind(stream, st.segments[i], st.cursor, now, retention)
  {
    assert ClosedOk(st.flash.files, st.segments[i]);
    var g := st.segments[i];
    assert WholeAcked(g, st.cursor) <==> IsAcked(st.cursor, g.newestSeq);
  }

  /** The segment leaves the table. */
  predicate Goes(stream: Stream, st: StreamState, p: Pressure, now: nat, g: SegmentRecord)
    requires |st.segments| > 0
  {
    g in st.segments && g !in Reclaimed(stream, st, p, now).0.segments
  }

  lemma GoesById(stream: Stream, st: StreamState, p: Pressure, now: nat, g: SegmentRecord)
    requires Consistent(st) && g in st.segments
    ensures Goes(stream, st, p, now, g) <==> g.segmentId in Ids(Choice(Candidates(stream, st, now), p))
  {
    var ids := Ids(Choice(Candidates(stream, st, now), p));
    RemovedAllMembers(st, ids);
    assert Reclaimed(stream, st, p, now).0.segments == RemovedAll(st, ids).0.segments;
  }

  lemma ChosenAreCandidates(gs: seq<SegmentInfo>, p: Pressure)
    ensures forall g :: g in Choice(gs, p) ==> g in gs
  {
    OrderIs(gs, p.retentionSeconds, Critical(p));
  }

  /** A closed segment goes exactly when it was chosen, and the open one stays. */
  lemma GoesIff(stream: Stream, st: StreamState, p: Pressure, now: nat, i: nat)
    requires Consistent(st) && i < |st.segments|
    ensures Goes(stream, st, p, now, st.segments[i])
       <==> i < |st.segments| - 1 && Candidates(stream, st, now)[i] in Choice(Candidates(stream, st, now), p)
  {
    var gs := Candidates(stream, st, now);
    ChosenAreCandidates(gs, p);
    CandidatesAreOneStream(stream, st, now);
    GoesById(stream, st, p, now, st.segments[i]);
    if i < |st.segments| - 1 {
      ChosenIds(gs, Choice(gs, p), i);
    } else {
      OpenIsNotChosen(stream, st, now, Choice(gs, p));
    }
  }

  // ---- which segments go ----

  /** Less is free than the low water mark asks for. */
  predicate BelowLow(p: Pressure) { p.totalBytes > 0 && p.freeBytes as real * 100.0 / p.totalBytes as real < p.lowMark }

  predicate BelowCritical(p: Pressure) {
    p.totalBytes > 0 && p.freeBytes as real * 100.0 / p.totalBytes as real < p.criticalMark
  }

  /** A closed segment that may go under this pressure. */
  predicate MayGo(stream: Stream, g: SegmentRecord, c: Cursor, now: nat, p: Pressure)
    requires stream != Events
  {
    BelowLow(p) && (Kind(stream, g, c, now, p.retentionSeconds) <= 3 || BelowCritical(p))
  }

  /** The first goes before the second: the kind decides, then the age. */
  predicate Sooner(stream: Stream, g: SegmentRecord, h: SegmentRecord, c: Cursor, now: nat, retention: nat)
    requires stream != Events
  {
    var k, l := Kind(stream, g, c, now, retention), Kind(stream, h, c, now, retention);
    k < l || (k == l && g.segmentId <= h.segmentId)
  }

  lemma ClosedAt(st: StreamState, g: SegmentRecord) returns (i: nat)
    requires Consistent(st) && g in st.segments && g != st.Open()
    ensures i < |st.segments| - 1 && st.segments[i] == g
  {
    i :| 0 <= i < |st.segments| && st.segments[i] == g;
    assert st.segments[|st.segments| - 1] == st.Open();
  }

  /**
   * A segment that goes is closed and may go: space is short; and unless space is
   * critical too, unacked Data goes only when it is past the retention window.
   */
  lemma TakesWhatMayGo(stream: Stream, st: StreamState, p: Pressure, now: nat, g: SegmentRecord)
    requires Consistent(st) && stream != Events && Goes(stream, st, p, now, g)
    ensures g != st.Open() && BelowLow(p)
    ensures stream == Data ==> WholeAcked(g, st.cursor) || PastWindow(g, now, p.retentionSeconds) || BelowCritical(p)
  {
    var gs := Candidates(stream, st, now);
    var i :| 0 <= i < |st.segments| && st.segments[i] == g;
    GoesIff(stream, st, p, now, i);
    OrderIs(gs, p.retentionSeconds, Critical(p));
    KindIsTier(stream, st, now, p.retentionSeconds, i);
    assert gs[i] in Order(gs, p.retentionSeconds, Critical(p));
    assert st.segments[i].segmentId < st.segments[|st.segments| - 1].segmentId;
  }

  /** A closed segment that may go and stays. */
  predicate Spared(stream: Stream, st: StreamState, p: Pressure, now: nat, h: SegmentRecord)
    requires |st.segments| > 0 && stream != Events
  {
    h in st.segments && h != st.Open() && !Goes(stream, st, p, now, h) && MayGo(stream, h, st.cursor, now, p)
  }

  /** Nothing that may go is spared in favour of something that should go later. */
  lemma TakesInOrder(stream: Stream, st: StreamState, p: Pressure, now: nat, g: SegmentRecord, h: SegmentRecord)
    requires Consistent(st) && stream != Events && Goes(stream, st, p, now, g) && Spared(stream, st, p, now, h)
    ensures Sooner(stream, g, h, st.cursor, now, p.retentionSeconds)
  {
    var gs := Candidates(stream, st, now);
    TakesWhatMayGo(stream, st, p, now, g);
    var i := ClosedAt(st, g);
    var j := ClosedAt(st, h);
    GoesIff(stream, st, p, now, i);
    GoesIff(stream, st, p, now, j);
    KindIsTier(stream, st, now, p.retentionSeconds, i);
    KindIsTier(stream, st, now, p.retentionSeconds, j);
    SacrificeOrder(gs, p, gs[i], gs[j]);
  }

  /** While a closed segment that has been acked is spared, nothing with an unacked record goes. */
  lemma AckedGoFirst(stream: Stream, st: StreamState, p: Pressure, now: nat, g: SegmentRecord, h: SegmentRecord)
    requires Consistent(st) && stream != Events && Goes(stream, st, p, now, g)
    requires h in st.segments && h != st.Open() && !Goes(stream, st, p, now, h) && WholeAcked(h, st.cursor)
    ensures WholeAcked(g, st.cursor)
  {
    TakesWhatMayGo(stream, st, p, now, g);
    TakesInOrder(stream, st, p, now, g, h);
  }

  // ---- how many go ----

  function Sizes(segments: seq<SegmentRecord>): nat {
    if |segments| == 0 then 0 else segments[0].sizeBytes + Sizes(segments[1..])
  }

  lemma {:induction false} SizesConcat(a: seq<SegmentRecord>, b: seq<SegmentRecord>)
    ensures Sizes(a + b) == Sizes(a) + Sizes(b)
  {
    if |a| == 0 {
      assert a + b == b;
    } else {
      assert (a + b)[1..] == a[1..] + b;
      SizesConcat(a[1..], b);
    }
  }

  lemma SizesWithout(segments: seq<SegmentRecord>, i: nat)
    requires i < |segments|
    ensures Sizes(Without(segments, i)) + segments[i].sizeBytes == Sizes(segments)
  {
    var front, rest := segments[..i], segments[i..];
    Halves(segments, i);
    assert rest[1..] == segments[i + 1..] && rest[0] == segments[i];
    SizesConcat(front, rest);
    SizesConcat(front, segments[i + 1..]);
  }

  /** The entry is a candidate's: its id and size. */
  predicate Listing(segments: seq<SegmentRecord>, g: SegmentInfo) {
    exists i :: 0 <= i < |segments| && segments[i].segmentId == g.segmentId && segments[i].sizeBytes == g.sizeBytes
  }

  predicate DistinctIds(c: seq<SegmentInfo>) {
    forall i, j :: 0 <= i < j < |c| ==> c[i].segmentId != c[j].segmentId
  }

  lemma RemovedSize(st: StreamState, g: SegmentInfo)
    requires RisingIds(st.segments) && Listing(st.segments, g)
    ensures Sizes(Removed(st, g.segmentId).0.segments) + g.sizeBytes == Sizes(st.segments)
  {
    var i := IndexOf(st.segments, g.segmentId);
    SizesWithout(st.segments, i);
    assert Removed(st, g.segmentId).0.segments == Without(st.segments, i);
  }

  lemma {:induction false} RemovedAllSizes(st: StreamState, c: seq<SegmentInfo>)
    requires RisingIds(st.segments) && DistinctIds(c) && forall k :: 0 <= k < |c| ==> Listing(st.segments, c[k])
    ensures Sizes(RemovedAll(st, Ids(c)).0.segments) + Bytes(c) == Sizes(st.segments)
    decreases |c|
  {
    if |c| == 0 {
    } else {
      var one := Removed(st, c[0].segmentId).0;
      RemovedMembers(st, c[0].segmentId);
      RemovedSize(st, c[0]);
      RestIsListed(st, one, c);
      RemovedAllSizes(one, c[1..]);
      FirstRemoved(st, c);
    }
  }

  lemma FirstRemoved(st: StreamState, c: seq<SegmentInfo>)
    requires |c| > 0
    ensures RemovedAll(st, Ids(c)).0 == RemovedAll(Removed(st, c[0].segmentId).0, Ids(c[1..])).0
  {
    assert Ids(c)[0] == c[0].segmentId && Ids(c)[1..] == Ids(c[1..]);
  }

  lemma RestIsListed(st: StreamState, one: StreamState, c: seq<SegmentInfo>)
    requires |c| > 0 && DistinctIds(c) && forall k :: 0 <= k < |c| ==> Listing(st.segments, c[k])
    requires forall h :: h in one.segments <==> h in st.segments && h.segmentId != c[0].segmentId
    ensures forall k :: 0 <= k < |c[1..]| ==> Listing(one.segments, c[1..][k])
  {
    forall k | 0 <= k < |c[1..]|
      ensures Listing(one.segments, c[1..][k])
    {
      StaysListed(st, one, c[0].segmentId, c[k + 1]);
    }
  }

  lemma StaysListed(st: StreamState, one: StreamState, id: nat, g: SegmentInfo)
    requires Listing(st.segments, g) && g.segmentId != id
    requires forall h :: h in one.segments <==> h in st.segments && h.segmentId != id
    ensures Listing(one.segments, g)
  {
    var i :| 0 <= i < |st.segments|
             && st.segments[i].segmentId == g.segmentId && st.segments[i].sizeBytes == g.sizeBytes;
    assert st.segments[i] in one.segments;
    var j :| 0 <= j < |one.segments| && one.segments[j] == st.segments[i];
  }

  lemma SameIdSameSegment(gs: seq<SegmentInfo>, g: SegmentInfo, h: SegmentInfo)
    requires IdsRise(gs) && g in gs && h in gs && g.segmentId == h.segmentId
    ensures g == h
  {
    var i :| 0 <= i < |gs| && gs[i] == g;
    var j :| 0 <= j < |gs| && gs[j] == h;
  }

  /** Two lists of candidates with nothing in common, one behind the other. */
  lemma JoinDistinct(gs: seq<SegmentInfo>, a: seq<SegmentInfo>, b: seq<SegmentInfo>)
    requires IdsRise(gs) && DistinctIds(a) && DistinctIds(b)
    requires (forall g :: g in a ==> g in gs) && (forall g :: g in b ==> g in gs && g !in a)
    ensures DistinctIds(a + b) && forall g :: g in a + b <==> g in a || g in b
  {
    forall i, j | 0 <= i < j < |a + b|
      ensures (a + b)[i].segmentId != (a + b)[j].segmentId
    {
      if i < |a| <= j && a[i].segmentId == b[j - |a|].segmentId {
        assert a[i] in a && b[j - |a|] in b;
        SameIdSameSegment(gs, a[i], b[j - |a|]);
      }
    }
  }

  lemma TierIsDistinct(gs: seq<SegmentInfo>, tier: nat, retention: nat)
    requires IdsRise(gs)
    ensures DistinctIds(SortedTier(gs, tier, retention))
    ensures forall g :: g in SortedTier(gs, tier, retention) <==> g in gs && Tier(g, retention) == tier
  {
    OfTierRises(gs, tier, retention);
    SortKeeps(OfTier(gs, tier, retention));
    SortedTierIs(gs, tier, retention);
  }

  lemma OrderIsDistinct(gs: seq<SegmentInfo>, retention: nat, critical: bool)
    requires IdsRise(gs)
    ensures DistinctIds(Order(gs, retention, critical))
  {
    var t1, t2, t3 := SortedTier(gs, 1, retention), SortedTier(gs, 2, retention), SortedTier(gs, 3, retention);
    var t4 := if critical then SortedTier(gs, 4, retention) else [];
    TierIsDistinct(gs, 1, retention);
    TierIsDistinct(gs, 2, retention);
    TierIsDistinct(gs, 3, retention);
    TierIsDistinct(gs, 4, retention);
    JoinDistinct(gs, t1, t2);
    JoinDistinct(gs, t1 + t2, t3);
    JoinDistinct(gs, t1 + t2 + t3, t4);
  }

  /** How many bytes leave the table. */
  function BytesGone(stream: Stream, st: StreamState, p: Pressure, now: nat): int
    requires |st.segments| > 0
  {
    Sizes(st.segments) - Sizes(Reclaimed(stream, st, p, now).0.segments)
  }

  lemma ChoiceIsListed(stream: Stream, st: StreamState, p: Pressure, now: nat)
    requires Consistent(st)
    ensures var c := Choice(Candidates(stream, st, now), p);
            DistinctIds(c) && forall k :: 0 <= k < |c| ==> Listing(st.segments, c[k])
  {
    var gs := Candidates(stream, st, now);
    var c := Choice(gs, p);
    CandidatesAreOneStream(stream, st, now);
    OrderIsDistinct(gs, p.retentionSeconds, Critical(p));
    OrderIs(gs, p.retentionSeconds, Critical(p));
    forall k | 0 <= k < |c|
      ensures Listing(st.segments, c[k])
    {
      assert c[k] in gs;
      var i :| 0 <= i < |gs| && gs[i] == c[k];
      assert st.segments[i].segmentId == gs[i].segmentId;
    }
  }

  lemma GoneIsChosen(stream: Stream, st: StreamState, p: Pressure, now: nat)
    requires Consistent(st)
    ensures BytesGone(stream, st, p, now) == Bytes(Choice(Candidates(stream, st, now), p))
  {
    ChoiceIsListed(stream, st, p, now);
    RemovedAllSizes(st, Choice(Candidates(stream, st, now), p));
  }

  /** Free bytes short of the target, after so many have been freed. */
  predicate StillShort(p: Pressure, freed: int) {
    p.freeBytes + freed < (p.totalBytes as real * p.lowMark / 100.0).Floor
  }

  /** Something that may go is spared only when what went reaches the target. */
  lemma EnoughWhenSpared(stream: Stream, st: StreamState, p: Pressure, now: nat, h: SegmentRecord)
    requires Consistent(st) && stream != Events && Spared(stream, st, p, now, h)
    ensures !StillShort(p, BytesGone(stream, st, p, now))
  {
    var gs := Candidates(stream, st, now);
    var j := ClosedAt(st, h);
    GoesIff(stream, st, p, now, j);
    KindIsTier(stream, st, now, p.retentionSeconds, j);
    ChoiceIsMinimal(gs, p);
    OrderIs(gs, p.retentionSeconds, Critical(p));
    assert gs[j] in Order(gs, p.retentionSeconds, Critical(p));
    GoneIsChosen(stream, st, p, now);
  }

  /** The candidate behind a chosen one, as a segment that goes. */
  lemma ChosenGoes(stream: Stream, st: StreamState, p: Pressure, now: nat, k: nat) returns (g: SegmentRecord)
    requires Consistent(st) && k < |Choice(Candidates(stream, st, now), p)|
    ensures Goes(stream, st, p, now, g) && g.sizeBytes == Choice(Candidates(stream, st, now), p)[k].sizeBytes
  {
    var gs := Candidates(stream, st, now);
    var c := Choice(gs, p);
    OrderIs(gs, p.retentionSeconds, Critical(p));
    assert c[k] in gs;
    var i :| 0 <= i < |gs| && gs[i] == c[k];
    g := st.segments[i];
    GoesIff(stream, st, p, now, i);
  }

  lemma LastOfChoice(gs: seq<SegmentInfo>, p: Pressure)
    requires |Choice(gs, p)| > 0
    ensures var c := Choice(gs, p); StillShort(p, Bytes(c) - c[|c| - 1].sizeBytes)
  {
    var c := Choice(gs, p);
    var n := |c| - 1;
    ChoiceIsMinimal(gs, p);
    assert c[..n] + [c[n]] == c && [c[n]][1..] == [];
    BytesConcat(c[..n], [c[n]]);
  }

  /** And nothing goes for nothing: without some one segment that went, the target would not be reached. */
  lemma NoneTooMany(stream: Stream, st: StreamState, p: Pressure, now: nat, g: SegmentRecord)
    returns (last: SegmentRecord)
    requires Consistent(st) && stream != Events && Goes(stream, st, p, now, g)
    ensures Goes(stream, st, p, now, last) && StillShort(p, BytesGone(stream, st, p, now) - last.sizeBytes)
  {
    var gs := Candidates(stream, st, now);
    SomeIsChosen(stream, st, p, now, g);
    last := ChosenGoes(stream, st, p, now, |Choice(gs, p)| - 1);
    LastOfChoice(gs, p);
    GoneIsChosen(stream, st, p, now);
  }

  lemma SomeIsChosen(stream: Stream, st: StreamState, p: Pressure, now: nat, g: SegmentRecord)
    requires Consistent(st) && stream != Events && Goes(stream, st, p, now, g)
    ensures |Choice(Candidates(stream, st, now), p)| > 0
  {
    TakesWhatMayGo(stream, st, p, now, g);
    var j := ClosedAt(st, g);
    GoesIff(stream, st, p, now, j);
  }
}
