/**
 * The invariant the journal rests on (log/Journal.h): a record's seq is its
 * position in its segment. `Consistent` is the invariant, `Holds` reads the log
 * off the files through it, and the lemmas say what every step keeps.
 */
module JournalInvariant {
  import opened Wrappers
  import opened Frames
  import opened JournalTypes
  import opened JournalSteps

  /** A closed segment is not empty and its file, unless a reclaim lost it, is exactly its records. */
  ghost predicate ClosedOk(files: map<nat, bytes>, g: SegmentRecord) {
    && g.oldestSeq <= g.newestSeq && g.sizeBytes > 0
    && (g.segmentId in files ==>
        var c := files[g.segmentId];
        ValidLen(c) == |c| == g.sizeBytes && |Payloads(c)| == g.newestSeq - g.oldestSeq + 1)
  }

  /** The open segment's record, size and the next seq all agree with its file. */
  ghost predicate OpenOk(st: StreamState)
    requires |st.segments| > 0
  {
    var g, c := st.Open(), st.OpenContent();
    && ValidLen(c) == |c| == st.openBytes == g.sizeBytes
    && st.cursor.nextSeq == g.oldestSeq + |Payloads(c)|
    && g.newestSeq == (if |Payloads(c)| > 0 then st.cursor.nextSeq - 1 else g.oldestSeq)
    && (st.handle.Writing? ==> g.segmentId in st.flash.files && st.handle.synced <= |c|)
  }

  /** Ids rise, each segment starts where the previous one ends, and the first starts at the cursor's oldest seq. */
  ghost predicate TableOk(segments: seq<SegmentRecord>, oldestSeq: nat) {
    && 0 < |segments| <= MAX_SEGMENTS
    && (forall i, j :: 0 <= i < j < |segments| ==> segments[i].segmentId < segments[j].segmentId)
    && (forall i, j :: 0 <= i < j < |segments| && j == i + 1 ==> segments[j].oldestSeq == segments[i].newestSeq + 1)
    && segments[0].oldestSeq == oldestSeq
    && (forall i :: 0 <= i < |segments| && segments[i].segmentId == 0 ==> segments[i].oldestSeq == 0)
  }

  ghost predicate Consistent(st: StreamState) {
    && TableOk(st.segments, st.cursor.oldestSeq)
    && (forall i :: 0 <= i < |st.segments| - 1 ==> ClosedOk(st.flash.files, st.segments[i]))
    && OpenOk(st)
    && (forall id :: id in st.flash.files ==> Tracked(st.segments, id))
  }

  /**
   * What the last saved index knows: everything but the open segment's progress.
   * With no index on flash the stream is still in its first segment.
   */
  ghost predicate Persisted(st: StreamState)
    requires |st.segments| > 0
  {
    match st.flash.index
    case None =>
      |st.segments| == 1 && st.segments[0].segmentId == 0 && st.segments[0].oldestSeq == 0
      && st.cursor.oldestSeq == 0 && st.cursor.acked == None
    case Some(index) =>
      && |index.segments| == |st.segments|
      && (forall i :: 0 <= i < |st.segments| - 1 ==> index.segments[i] == st.segments[i])
      && index.segments[|st.segments| - 1].segmentId == st.Open().segmentId
      && index.segments[|st.segments| - 1].oldestSeq == st.Open().oldestSeq
      && index.cursor.oldestSeq == st.cursor.oldestSeq && index.cursor.acked == st.cursor.acked
  }

  ghost predicate Good(st: StreamState) { Consistent(st) && Persisted(st) }

  // ---- the log ----

  function FramesOf(st: StreamState, i: nat): seq<bytes>
    requires i < |st.segments|
  {
    Payloads(Content(st.flash.files, st.segments[i].segmentId))
  }

  /** The flash holds payload `p` for seq `s`: it is frame s - oldestSeq of some tracked segment. */
  ghost predicate HoldsIn(st: StreamState, i: nat, s: nat, p: bytes)
    requires i < |st.segments|
  {
    st.segments[i].oldestSeq <= s < st.segments[i].oldestSeq + |FramesOf(st, i)|
    && FramesOf(st, i)[s - st.segments[i].oldestSeq] == p
  }

  ghost predicate Holds(st: StreamState, s: nat, p: bytes) {
    exists i :: 0 <= i < |st.segments| && HoldsIn(st, i, s, p)
  }

  ghost predicate IsHeld(st: StreamState, s: nat) { exists p :: Holds(st, s, p) }

  /** The seqs a segment's record claims. */
  predicate Covers(g: SegmentRecord, s: nat) { g.oldestSeq <= s <= g.newestSeq }

  /** `t` holds nothing that `st` does not, except possibly `p` for `s`. */
  ghost predicate HoldsNoMore(t: StreamState, st: StreamState, s: nat, p: bytes) {
    forall q: nat, r: bytes :: Holds(t, q, r) ==> Holds(st, q, r) || (q == s && r == p)
  }

  ghost predicate HoldsOnly(t: StreamState, st: StreamState) {
    forall q: nat, r: bytes :: Holds(t, q, r) ==> Holds(st, q, r)
  }

  // ---- small steps shared by the proofs ----

  /** Same ids, same starts, same ends except for the last segment. */
  ghost predicate SameTable(a: seq<SegmentRecord>, b: seq<SegmentRecord>) {
    && |a| == |b|
    && (forall i :: 0 <= i < |a| ==> a[i].segmentId == b[i].segmentId && a[i].oldestSeq == b[i].oldestSeq)
    && (forall i :: 0 <= i < |a| - 1 ==> a[i].newestSeq == b[i].newestSeq)
  }

  lemma TableTransfers(a: seq<SegmentRecord>, b: seq<SegmentRecord>, oldest: nat)
    requires TableOk(a, oldest) && SameTable(a, b)
    ensures TableOk(b, oldest)
  {
    forall i, j | 0 <= i < j < |b|
      ensures b[i].segmentId < b[j].segmentId
    {
      assert a[i].segmentId < a[j].segmentId;
    }
    forall i, j | 0 <= i < j < |b| && j == i + 1
      ensures b[j].oldestSeq == b[i].newestSeq + 1
    {
      assert a[j].oldestSeq == a[i].newestSeq + 1;
    }
  }

  lemma TrackedTransfers(a: seq<SegmentRecord>, b: seq<SegmentRecord>, id: nat)
    requires Tracked(a, id) && |a| <= |b|
    requires forall i :: 0 <= i < |a| ==> a[i].segmentId == b[i].segmentId
    ensures Tracked(b, id)
  {
    var i :| 0 <= i < |a| && a[i].segmentId == id;
    assert b[i].segmentId == id;
  }

  lemma HoldsAt(st: StreamState, q: nat, r: bytes) returns (i: nat)
    requires Holds(st, q, r)
    ensures i < |st.segments| && HoldsIn(st, i, q, r)
  {
    i :| 0 <= i < |st.segments| && HoldsIn(st, i, q, r);
  }

  /** A frame keeps its seq in a segment with the same start and at least the same frames up to it. */
  lemma HoldsMoves(t: StreamState, i: nat, st: StreamState, j: nat, q: nat, r: bytes)
    requires i < |t.segments| && j < |st.segments| && HoldsIn(t, i, q, r)
    requires t.segments[i].oldestSeq == st.segments[j].oldestSeq
    requires FramesOf(t, i) <= FramesOf(st, j)
          || (FramesOf(st, j) <= FramesOf(t, i) && q < st.segments[j].oldestSeq + |FramesOf(st, j)|)
    ensures HoldsIn(st, j, q, r) && Holds(st, q, r)
  {
    var k := q - t.segments[i].oldestSeq;
    assert FramesOf(t, i)[k] == FramesOf(st, j)[k];
    assert HoldsIn(st, j, q, r);
  }

  /** A segment's frames lie between its own start and the next segment's. */
  lemma SegmentRange(st: StreamState, i: nat)
    requires Consistent(st) && i < |st.segments|
    ensures i + 1 < |st.segments| ==> st.segments[i].oldestSeq + |FramesOf(st, i)| <= st.segments[i + 1].oldestSeq
    ensures i + 1 == |st.segments| ==> st.segments[i].oldestSeq + |FramesOf(st, i)| == st.cursor.nextSeq
  {
    if i + 1 < |st.segments| {
      assert ClosedOk(st.flash.files, st.segments[i]);
    }
  }

  lemma {:induction false} StartsRise(st: StreamState, i: nat, j: nat)
    requires Consistent(st) && i < j < |st.segments|
    ensures st.segments[i].newestSeq < st.segments[j].oldestSeq
    ensures st.segments[i].oldestSeq < st.segments[j].oldestSeq
    ensures st.segments[i].oldestSeq + |FramesOf(st, i)| <= st.segments[j].oldestSeq
    decreases j - i
  {
    assert ClosedOk(st.flash.files, st.segments[i]);
    SegmentRange(st, i);
    if i + 1 < j {
      StartsRise(st, i + 1, j);
    } else {
      assert st.segments[j].oldestSeq == st.segments[i].newestSeq + 1;
    }
  }

  /** Only seqs from the oldest to below nextSeq are held. */
  lemma HoldsRange(st: StreamState, i: nat, s: nat, p: bytes)
    requires Consistent(st) && i < |st.segments| && HoldsIn(st, i, s, p)
    ensures st.cursor.oldestSeq <= s < st.cursor.nextSeq
  {
    var n := |st.segments| - 1;
    SegmentRange(st, n);
    if 0 < i {
      StartsRise(st, 0, i);
    }
    if i < n {
      StartsRise(st, i, n);
    }
  }

  /** No seq is held by two segments. */
  lemma HeldOnce(st: StreamState, i: nat, j: nat, s: nat, p: bytes, q: bytes)
    requires Consistent(st) && i < j < |st.segments| && HoldsIn(st, i, s, p)
    ensures !HoldsIn(st, j, s, q)
  {
    SegmentRange(st, i);
    if i + 1 < j {
      StartsRise(st, i + 1, j);
    }
  }

  lemma HeldAlike(st: StreamState, i: nat, j: nat, s: nat, p: bytes, q: bytes)
    requires Consistent(st) && i < |st.segments| && j < |st.segments| && HoldsIn(st, i, s, p) && HoldsIn(st, j, s, q)
    ensures p == q
  {
    if i < j {
      HeldOnce(st, i, j, s, p, q);
    } else if j < i {
      HeldOnce(st, j, i, s, q, p);
    }
  }

  /** A seq names at most one payload. */
  lemma HoldsUnique(st: StreamState, s: nat, p: bytes, q: bytes)
    requires Consistent(st) && Holds(st, s, p) && Holds(st, s, q)
    ensures p == q && st.cursor.oldestSeq <= s < st.cursor.nextSeq
  {
    var i := HoldsAt(st, s, p);
    var j := HoldsAt(st, s, q);
    HoldsRange(st, i, s, p);
    HeldAlike(st, i, j, s, p, q);
  }

  // ---- append ----

  /** Adding frames to the open file changes no other segment's frames. */
  lemma OtherFiles(st: StreamState, content: bytes, i: nat)
    requires TableOk(st.segments, st.cursor.oldestSeq) && i < |st.segments| - 1
    ensures var t := st.WithFile(st.Open().segmentId, content);
            Content(t.flash.files, st.segments[i].segmentId) == Content(st.flash.files, st.segments[i].segmentId)
            && (st.segments[i].segmentId in t.flash.files <==> st.segments[i].segmentId in st.flash.files)
  {
    assert st.segments[i].segmentId < st.segments[|st.segments| - 1].segmentId;
  }

  /** Replacing the open file by a content that fits the bookkeeping. */
  lemma OpenReplaced(st: StreamState, t: StreamState, content: bytes)
    requires Good(st)
    requires |t.segments| == |st.segments| > 0
    requires forall i :: 0 <= i < |st.segments| - 1 ==> t.segments[i] == st.segments[i]
    requires t.Open().segmentId == st.Open().segmentId && t.Open().oldestSeq == st.Open().oldestSeq
    requires t.flash == st.flash.(files := st.flash.files[st.Open().segmentId := content])
    requires t.cursor.oldestSeq == st.cursor.oldestSeq && t.cursor.acked == st.cursor.acked
    requires OpenOk(t)
    ensures Good(t)
    ensures forall i :: 0 <= i < |st.segments| - 1 ==> FramesOf(t, i) == FramesOf(st, i)
    ensures FramesOf(t, |t.segments| - 1) == Payloads(content)
  {
    var n := |st.segments| - 1;
    forall i | 0 <= i < n
      ensures FramesOf(t, i) == FramesOf(st, i) && ClosedOk(t.flash.files, t.segments[i])
    {
      OtherFiles(st, content, i);
      ClosedTransfers(st, t, i);
    }
    assert SameTable(st.segments, t.segments) by {
      assert t.segments[n] == t.Open();
    }
    TableTransfers(st.segments, t.segments, st.cursor.oldestSeq);
    forall id | id in t.flash.files
      ensures Tracked(t.segments, id)
    {
      if id == st.Open().segmentId {
        assert t.segments[n].segmentId == id;
      } else {
        TrackedTransfers(st.segments, t.segments, id);
      }
    }
    PersistedTransfers(st, t);
  }

  lemma ClosedTransfers(st: StreamState, t: StreamState, i: nat)
    requires i < |st.segments| && i < |t.segments| && ClosedOk(st.flash.files, st.segments[i])
    requires t.segments[i] == st.segments[i]
    requires st.segments[i].segmentId in t.flash.files <==> st.segments[i].segmentId in st.flash.files
    requires Content(t.flash.files, st.segments[i].segmentId) == Content(st.flash.files, st.segments[i].segmentId)
    ensures ClosedOk(t.flash.files, t.segments[i]) && FramesOf(t, i) == FramesOf(st, i)
  {
  }

  lemma PersistedTransfers(st: StreamState, t: StreamState)
    requires |t.segments| == |st.segments| > 0 && Persisted(st)
    requires forall i :: 0 <= i < |st.segments| - 1 ==> t.segments[i] == st.segments[i]
    requires t.Open().segmentId == st.Open().segmentId && t.Open().oldestSeq == st.Open().oldestSeq
    requires t.flash.index == st.flash.index
    requires t.cursor.oldestSeq == st.cursor.oldestSeq && t.cursor.acked == st.cursor.acked
    ensures Persisted(t)
  {
  }

  /** Whatever part of a frame landed, cutting the file back to its old size restores it. */
  lemma RolledBack(c: bytes, part: bytes)
    ensures Truncated(c + part, |c|) == c
  {
    Parted(c, part);
  }

  lemma FailedShape(st: StreamState, payload: bytes, outcome: WriteOutcome)
    requires |st.segments| > 0 && OpenOk(st) && !outcome.Written?
    ensures var r := FrameWritten(st, payload, outcome);
            && !r.1 && r.0.cursor == st.cursor && r.0.segments == st.segments && r.0.openBytes == st.openBytes
            && (r.0 == st
                || (r.0.handle == Closed
                    && r.0.flash == st.flash.(files := st.flash.files[st.Open().segmentId := st.OpenContent()])))
  {
    if !(st.handle.Closed? && outcome.OpenFailed?) {
      var frame := Frame(payload);
      RolledBack(st.OpenContent(), frame[..if outcome.CutShort? then Min(outcome.landed, |frame|) else 0]);
    }
  }

  /** A failed write, rolled back, changes nothing but the handle. */
  lemma FailedWrite(st: StreamState, payload: bytes, outcome: WriteOutcome)
    requires Good(st) && !outcome.Written?
    ensures var t := FrameWritten(st, payload, outcome).0;
            && Good(t) && !FrameWritten(st, payload, outcome).1
            && t.cursor == st.cursor && t.segments == st.segments && t.openBytes == st.openBytes
            && t.OpenContent() == st.OpenContent() && HoldsOnly(t, st) && HoldsOnly(st, t)
  {
    var t := FrameWritten(st, payload, outcome).0;
    FailedShape(st, payload, outcome);
    if t != st {
      Rewritten(st, t);
    }
  }

  /** Writing the open file's own content over it changes nothing. */
  lemma Rewritten(st: StreamState, t: StreamState)
    requires Good(st) && t.segments == st.segments && t.cursor == st.cursor
             && t.openBytes == st.openBytes && t.handle == Closed
    requires t.flash == st.flash.(files := st.flash.files[st.Open().segmentId := st.OpenContent()])
    ensures Good(t) && t.OpenContent() == st.OpenContent() && HoldsOnly(t, st) && HoldsOnly(st, t)
  {
    OpenReplaced(st, t, st.OpenContent());
    EqualFramesHoldSame(st, t);
  }

  lemma EqualFramesHoldSame(st: StreamState, t: StreamState)
    requires |t.segments| == |st.segments|
    requires forall i :: 0 <= i < |st.segments| ==>
      t.segments[i].oldestSeq == st.segments[i].oldestSeq && FramesOf(t, i) == FramesOf(st, i)
    ensures HoldsOnly(t, st) && HoldsOnly(st, t)
  {
    SameFramesHoldSame(st, t);
    SameFramesHoldSame(t, st);
  }

  lemma SameFramesHoldSame(st: StreamState, t: StreamState)
    requires |t.segments| == |st.segments|
    requires forall i :: 0 <= i < |st.segments| ==>
      t.segments[i].oldestSeq == st.segments[i].oldestSeq && FramesOf(t, i) <= FramesOf(st, i)
    ensures HoldsOnly(t, st)
  {
    forall q: nat, r: bytes | Holds(t, q, r)
      ensures Holds(st, q, r)
    {
      var i := HoldsAt(t, q, r);
      HoldsMoves(t, i, st, i, q, r);
    }
  }

  /** `t` has one more frame at the end of its open segment. */
  lemma OneMoreFrame(st: StreamState, t: StreamState, s: nat, payload: bytes)
    requires |t.segments| == |st.segments| > 0
    requires forall i :: 0 <= i < |st.segments| ==> t.segments[i].oldestSeq == st.segments[i].oldestSeq
    requires forall i :: 0 <= i < |st.segments| - 1 ==> FramesOf(t, i) == FramesOf(st, i)
    requires FramesOf(t, |t.segments| - 1) == FramesOf(st, |st.segments| - 1) + [payload]
    requires s == st.Open().oldestSeq + |FramesOf(st, |st.segments| - 1)|
    ensures Holds(t, s, payload) && HoldsNoMore(t, st, s, payload) && HoldsOnly(st, t)
  {
    var n := |st.segments| - 1;
    assert HoldsIn(t, n, s, payload);
    forall q: nat, r: bytes | Holds(t, q, r)
      ensures Holds(st, q, r) || (q == s && r == payload)
    {
      var i := HoldsAt(t, q, r);
      if i < n || q < s {
        HoldsMoves(t, i, st, i, q, r);
      }
    }
    SameFramesHoldSame(t, st);
  }

  /** A successful write, counted, field by field. */
  lemma WrittenShape(st: StreamState, payload: bytes)
    requires |st.segments| > 0
    ensures var t, size := Counted(FrameWritten(st, payload, Written).0, payload), st.openBytes + |payload| + 2;
            && t.cursor == st.cursor.(nextSeq := st.cursor.nextSeq + 1) && t.openBytes == size
            && |t.segments| == |st.segments|
            && (forall i :: 0 <= i < |st.segments| - 1 ==> t.segments[i] == st.segments[i])
            && t.Open() == st.Open().(newestSeq := st.cursor.nextSeq, sizeBytes := size)
            && t.flash == st.flash.(files := st.flash.files[st.Open().segmentId := st.OpenContent() + Frame(payload)])
            && t.OpenContent() == st.OpenContent() + Frame(payload)
            && t.handle == Writing(st.Durable())
  {
    var c, id := st.OpenContent(), st.Open().segmentId;
    assert st.flash.files[id := c][id := c + Frame(payload)] == st.flash.files[id := c + Frame(payload)];
    assert OpenedForAppend(st).OpenContent() == c;
  }

  /** `t` is `st` with the payload's frame at the end of its open file. */
  ghost predicate WrittenFrom(st: StreamState, t: StreamState, payload: bytes) {
    && |t.segments| == |st.segments| > 0
    && (forall i :: 0 <= i < |st.segments| - 1 ==> t.segments[i] == st.segments[i])
    && t.Open() == st.Open().(newestSeq := st.cursor.nextSeq, sizeBytes := t.openBytes)
    && t.cursor == st.cursor.(nextSeq := st.cursor.nextSeq + 1) && t.openBytes == st.openBytes + |payload| + 2
    && t.flash == st.flash.(files := st.flash.files[st.Open().segmentId := st.OpenContent() + Frame(payload)])
    && t.OpenContent() == st.OpenContent() + Frame(payload) && t.handle == Writing(st.Durable())
  }

  lemma WrittenGood(st: StreamState, t: StreamState, payload: bytes)
    requires Good(st) && |payload| <= MAX_PAYLOAD && WrittenFrom(st, t, payload)
    ensures Good(t)
    ensures forall i :: 0 <= i < |st.segments| - 1 ==> FramesOf(t, i) == FramesOf(st, i)
    ensures FramesOf(t, |t.segments| - 1) == FramesOf(st, |st.segments| - 1) + [payload]
  {
    AppendFrame(st.OpenContent(), payload);
    WrittenOpenOk(st, t, payload);
    OpenReplaced(st, t, st.OpenContent() + Frame(payload));
  }

  lemma WrittenHolds(st: StreamState, t: StreamState, payload: bytes)
    requires Good(st) && |payload| <= MAX_PAYLOAD && WrittenFrom(st, t, payload)
    ensures Holds(t, st.cursor.nextSeq, payload) && HoldsNoMore(t, st, st.cursor.nextSeq, payload) && HoldsOnly(st, t)
  {
    WrittenGood(st, t, payload);
    forall i | 0 <= i < |st.segments|
      ensures t.segments[i].oldestSeq == st.segments[i].oldestSeq
    {
      assert i < |st.segments| - 1 || (st.segments[i] == st.Open() && t.segments[i] == t.Open());
    }
    OneMoreFrame(st, t, st.cursor.nextSeq, payload);
  }

  /** A successful write, counted: one more record, at the position of its seq. */
  lemma WrittenFrame(st: StreamState, payload: bytes)
    requires Good(st) && |payload| <= MAX_PAYLOAD
    ensures var t := Counted(FrameWritten(st, payload, Written).0, payload);
            && Good(t)
            && Holds(t, st.cursor.nextSeq, payload)
            && HoldsNoMore(t, st, st.cursor.nextSeq, payload) && HoldsOnly(st, t)
  {
    var t := Counted(FrameWritten(st, payload, Written).0, payload);
    WrittenShape(st, payload);
    WrittenGood(st, t, payload);
    WrittenHolds(st, t, payload);
  }

  lemma WrittenOpenOk(st: StreamState, t: StreamState, payload: bytes)
    requires |st.segments| == |t.segments| > 0 && OpenOk(st)
    requires var c := st.OpenContent() + Frame(payload);
             && Payloads(c) == Payloads(st.OpenContent()) + [payload]
             && ValidLen(c) == |st.OpenContent()| + 2 + |payload|
             && t.OpenContent() == c && t.flash.files == st.flash.files[st.Open().segmentId := c]
    requires t.openBytes == st.openBytes + |payload| + 2 && t.cursor.nextSeq == st.cursor.nextSeq + 1
    requires t.Open() == st.Open().(newestSeq := st.cursor.nextSeq, sizeBytes := t.openBytes)
    requires t.handle == Writing(st.Durable())
    ensures OpenOk(t)
  {
  }

  lemma RotatedShape(st: StreamState, now: nat)
    requires |st.segments| > 0 && st.openBytes >= ROTATE_BYTES && |st.segments| < MAX_SEGMENTS
    ensures var t, n := Rotated(st, now), |st.segments| - 1;
            && |t.segments| == n + 2
            && (forall i :: 0 <= i < n ==> t.segments[i] == st.segments[i])
            && t.segments[n] == st.Open().(closedAt := now)
            && t.segments[n + 1] == SegmentRecord(st.Open().segmentId + 1, st.cursor.nextSeq, st.cursor.nextSeq, 0, 0)
            && t.Open() == t.segments[n + 1]
            && t.cursor == st.cursor && t.openBytes == 0 && t.handle == Closed
            && t.flash.files == st.flash.files && t.flash.index == Some(Index(t.cursor, t.segments, 0))
  {
  }

  /** `t` is `st` with its open segment closed and an empty one behind it. */
  ghost predicate GrownFrom(st: StreamState, t: StreamState, now: nat) {
    && |st.segments| > 0 && |t.segments| == |st.segments| + 1 <= MAX_SEGMENTS
    && (forall i :: 0 <= i < |st.segments| - 1 ==> t.segments[i] == st.segments[i])
    && t.segments[|st.segments| - 1] == st.Open().(closedAt := now)
    && t.segments[|st.segments|] == SegmentRecord(st.Open().segmentId + 1, st.cursor.nextSeq, st.cursor.nextSeq, 0, 0)
    && t.cursor == st.cursor && t.openBytes == 0 && t.handle == Closed
    && st.Open().segmentId + 1 !in st.flash.files && t.flash.files == st.flash.files
  }

  lemma GrownConsistent(st: StreamState, t: StreamState, now: nat)
    requires Good(st) && |Payloads(st.OpenContent())| > 0 && st.openBytes > 0 && GrownFrom(st, t, now)
    ensures Consistent(t)
  {
    ClosedAfterRotation(st, t, now);
    RotatedConsistent(st, t, now);
  }

  lemma GrownHolds(st: StreamState, t: StreamState, now: nat)
    requires Good(st) && |Payloads(st.OpenContent())| > 0 && st.openBytes > 0 && GrownFrom(st, t, now)
    ensures HoldsOnly(t, st) && HoldsOnly(st, t)
  {
    ClosedAfterRotation(st, t, now);
    GrownStarts(st, t, now);
    RotationHoldsSame(st, t);
  }

  lemma GrownStarts(st: StreamState, t: StreamState, now: nat)
    requires GrownFrom(st, t, now)
    ensures forall i :: 0 <= i < |st.segments| ==> t.segments[i].oldestSeq == st.segments[i].oldestSeq
  {
    forall i | 0 <= i < |st.segments|
      ensures t.segments[i].oldestSeq == st.segments[i].oldestSeq
    {
      assert i < |st.segments| - 1 || st.segments[i] == st.Open();
    }
  }

  /** A rotation into a table with room keeps the invariant and the log, and makes all of it durable. */
  lemma RotationKeeps(st: StreamState, now: nat)
    requires Good(st) && st.openBytes >= ROTATE_BYTES && |st.segments| < MAX_SEGMENTS
    ensures var t := Rotated(st, now);
            && Good(t) && t.cursor == st.cursor && HoldsOnly(t, st) && HoldsOnly(st, t)
            && t.OpenContent() == [] && t.handle == Closed && t.Open().oldestSeq == st.cursor.nextSeq
  {
    var t := Rotated(st, now);
    RotatedShape(st, now);
    NewIdIsFree(st);
    NonEmpty(st.OpenContent());
    GrownConsistent(st, t, now);
    GrownHolds(st, t, now);
    JustSaved(t);
  }

  lemma JustSaved(t: StreamState)
    requires |t.segments| > 0 && t.flash.index == Some(Index(t.cursor, t.segments, 0))
    ensures Persisted(t)
  {
  }

  lemma RotatedConsistent(st: StreamState, t: StreamState, now: nat)
    requires Consistent(st) && |Payloads(st.OpenContent())| > 0
    requires |t.segments| == |st.segments| + 1 <= MAX_SEGMENTS
    requires forall i :: 0 <= i < |st.segments| - 1 ==> t.segments[i] == st.segments[i]
    requires t.segments[|st.segments| - 1] == st.Open().(closedAt := now)
    requires t.Open() == SegmentRecord(st.Open().segmentId + 1, st.cursor.nextSeq, st.cursor.nextSeq, 0, 0)
    requires t.Open().segmentId !in t.flash.files && t.flash.files == st.flash.files
    requires t.cursor == st.cursor && t.openBytes == 0 && t.handle == Closed
    requires forall i :: 0 <= i < |st.segments| ==> ClosedOk(t.flash.files, t.segments[i])
    ensures Consistent(t)
  {
    TableGrows(st.segments, t.segments, st.cursor.oldestSeq);
    forall id | id in t.flash.files
      ensures Tracked(t.segments, id)
    {
      TrackedTransfers(st.segments, t.segments, id);
    }
  }

  lemma ClosedAfterRotation(st: StreamState, t: StreamState, now: nat)
    requires Good(st) && |Payloads(st.OpenContent())| > 0 && st.openBytes > 0
    requires |t.segments| == |st.segments| + 1
    requires forall i :: 0 <= i < |st.segments| - 1 ==> t.segments[i] == st.segments[i]
    requires t.segments[|st.segments| - 1] == st.Open().(closedAt := now)
    requires t.segments[|st.segments|].segmentId !in st.flash.files
    requires t.flash.files == st.flash.files
    ensures forall i :: 0 <= i < |st.segments| ==>
              ClosedOk(t.flash.files, t.segments[i]) && FramesOf(t, i) == FramesOf(st, i)
    ensures FramesOf(t, |st.segments|) == []
  {
    var n := |st.segments| - 1;
    forall i | 0 <= i <= n
      ensures ClosedOk(t.flash.files, t.segments[i]) && FramesOf(t, i) == FramesOf(st, i)
    {
      if i < n {
        ClosedTransfers(st, t, i);
      }
    }
  }

  lemma NewIdIsFree(st: StreamState)
    requires Consistent(st)
    ensures st.Open().segmentId + 1 !in st.flash.files
  {
    var n := |st.segments| - 1;
    forall i | 0 <= i <= n
      ensures st.segments[i].segmentId <= st.segments[n].segmentId
    {
    }
  }

  lemma TableGrows(a: seq<SegmentRecord>, b: seq<SegmentRecord>, oldest: nat)
    requires TableOk(a, oldest) && |b| == |a| + 1 <= MAX_SEGMENTS
    requires forall i :: 0 <= i < |a| - 1 ==> b[i] == a[i]
    requires var last := |a| - 1; b[last].segmentId == a[last].segmentId && b[last].oldestSeq == a[last].oldestSeq
    requires b[|a|].segmentId == b[|a| - 1].segmentId + 1 && b[|a|].oldestSeq == b[|a| - 1].newestSeq + 1
    ensures TableOk(b, oldest)
  {
    forall i, j | 0 <= i < j < |b|
      ensures b[i].segmentId < b[j].segmentId
    {
      if i < |a| - 1 {
        assert a[i].segmentId < a[|a| - 1].segmentId;
      }
      if j < |a| {
        assert a[i].segmentId < a[j].segmentId;
      }
    }
    forall i, j | 0 <= i < j < |b| && j == i + 1
      ensures b[j].oldestSeq == b[i].newestSeq + 1
    {
      if j < |a| {
        assert a[j].oldestSeq == a[i].newestSeq + 1;
      }
    }
  }

  lemma RotationHoldsSame(st: StreamState, t: StreamState)
    requires |t.segments| == |st.segments| + 1
    requires forall i :: 0 <= i < |st.segments| ==>
               t.segments[i].oldestSeq == st.segments[i].oldestSeq && FramesOf(t, i) == FramesOf(st, i)
    requires FramesOf(t, |st.segments|) == []
    ensures HoldsOnly(t, st) && HoldsOnly(st, t)
  {
    forall q: nat, r: bytes | Holds(t, q, r)
      ensures Holds(st, q, r)
    {
      var i := HoldsAt(t, q, r);
      HoldsMoves(t, i, st, i, q, r);
    }
    forall q: nat, r: bytes | Holds(st, q, r)
      ensures Holds(t, q, r)
    {
      var i := HoldsAt(st, q, r);
      HoldsMoves(st, i, t, i, q, r);
    }
  }

  lemma NonEmpty(c: bytes)
    requires ValidLen(c) == |c| > 0
    ensures |Payloads(c)| > 0
  {
  }
}
