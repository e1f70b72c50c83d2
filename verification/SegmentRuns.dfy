/**
 * When a segment is closed and what its record then says (appendRaw and
 * rotateIfNeeded of log/Journal.cpp), for one append and over every run.
 */
module SegmentRuns {
  import opened Wrappers
  import opened Frames
  import C = JournalCursor
  import opened JournalTypes
  import opened JournalSteps
  import opened SpaceReclaimer
  import opened JournalInvariant
  import opened JournalRecovery
  import opened JournalReading
  import opened JournalReclaim
  import opened Protocol
  import opened ProtocolRuns

  // ---- one append ----

  /** The record is the last thing in the open file, and nothing is saved. */
  ghost predicate GoesOnTheEnd(st: StreamState, t: StreamState, payload: bytes) {
    && |st.segments| == |t.segments| > 0
    && (forall i :: 0 <= i < |st.segments| - 1 ==> t.segments[i] == st.segments[i])
    && t.Open() == st.Open().(newestSeq := st.cursor.nextSeq, sizeBytes := |t.OpenContent()|)
    && t.OpenContent() == st.OpenContent() + Frame(payload) && t.openBytes == |t.OpenContent()|
    && t.handle == Writing(st.Durable()) && t.flash.index == st.flash.index
  }

  /** The record was the last of its segment: that is closed as it is, the next one is empty, and both are saved. */
  ghost predicate FillsSegment(st: StreamState, t: StreamState, payload: bytes, now: nat)
    requires |st.segments| > 0
  {
    var n, s, size := |st.segments| - 1, st.cursor.nextSeq, |st.OpenContent()| + |Frame(payload)|;
    && |t.segments| == n + 2
    && (forall i :: 0 <= i < n ==> t.segments[i] == st.segments[i])
    && t.segments[n] == SegmentRecord(st.Open().segmentId, st.Open().oldestSeq, s, size, now)
    && t.segments[n + 1] == SegmentRecord(st.Open().segmentId + 1, s + 1, s + 1, 0, 0)
    && Content(t.flash.files, st.Open().segmentId) == st.OpenContent() + Frame(payload)
    && t.OpenContent() == [] && t.openBytes == 0
    && t.handle == Closed && t.flash.index == Some(Index(t.cursor, t.segments, 0))
  }

  lemma AppendGrows(st: StreamState, payload: bytes, now: nat)
    requires Good(st) && |payload| <= MAX_PAYLOAD && |st.OpenContent() + Frame(payload)| < 65536
    ensures GoesOnTheEnd(st, Appended(st, payload, Written, now), payload)
    ensures Appended(st, payload, Written, now).cursor == st.cursor.(nextSeq := st.cursor.nextSeq + 1)
  {
    var w := Counted(FrameWritten(st, payload, Written).0, payload);
    WrittenShape(st, payload);
    assert Appended(st, payload, Written, now) == w;
  }

  lemma FullIsClosed(st: StreamState, w: StreamState, payload: bytes, now: nat)
    requires |st.segments| > 0 && Consistent(w) && WrittenFrom(st, w, payload) && w.openBytes >= 65536
    requires |st.OpenContent()| == st.openBytes && |st.segments| < 64
    ensures FillsSegment(st, Rotated(w, now), payload, now)
  {
    RotatedShape(w, now);
    NextIsEmpty(w);
  }

  lemma AppendFills(st: StreamState, payload: bytes, now: nat)
    requires Good(st) && |payload| <= MAX_PAYLOAD && |st.OpenContent() + Frame(payload)| >= 65536
    requires |st.segments| < 64
    ensures FillsSegment(st, Appended(st, payload, Written, now), payload, now)
    ensures Appended(st, payload, Written, now).cursor == st.cursor.(nextSeq := st.cursor.nextSeq + 1)
  {
    var w := Counted(FrameWritten(st, payload, Written).0, payload);
    WrittenShape(st, payload);
    WrittenFrame(st, payload);
    assert w.openBytes == |st.OpenContent() + Frame(payload)|;
    FullIsClosed(st, w, payload, now);
    assert Rotated(w, now).cursor == w.cursor;
  }

  /** A successful append closes the segment exactly when its file has reached 64 KiB and the table has room. */
  lemma AppendClosesIff(st: StreamState, payload: bytes, now: nat)
    requires Good(st) && |payload| <= MAX_PAYLOAD
    requires |st.OpenContent() + Frame(payload)| < 65536 || |st.segments| < 64
    ensures var t, size := Appended(st, payload, Written, now), |st.OpenContent() + Frame(payload)|;
            && t.cursor == st.cursor.(nextSeq := st.cursor.nextSeq + 1)
            && (size < 65536 <==> GoesOnTheEnd(st, t, payload))
            && (size >= 65536 <==> FillsSegment(st, t, payload, now))
  {
    if |st.OpenContent() + Frame(payload)| < 65536 {
      AppendGrows(st, payload, now);
    } else {
      AppendFills(st, payload, now);
    }
  }

  /** The next file does not exist yet. */
  lemma NextIsEmpty(st: StreamState)
    requires Consistent(st)
    ensures st.Open().segmentId + 1 !in st.flash.files
  {
    forall i | 0 <= i < |st.segments|
      ensures st.segments[i].segmentId <= st.Open().segmentId
    {
      assert i < |st.segments| - 1 ==> st.segments[i].segmentId < st.segments[|st.segments| - 1].segmentId;
    }
  }

  // ---- over runs ----

  /** Event `j` closed the segment: it appended the last of its records, at its close time. */
  ghost predicate FilledBy(run: seq<System>, events: seq<Event>, j: nat, g: SegmentRecord)
    requires j < |events| && j < |run|
  {
    var y, e := run[j].st, events[j];
    && |y.segments| > 0 && e.Append? && e.outcome.Written?
    && g == SegmentRecord(y.Open().segmentId, y.Open().oldestSeq, y.cursor.nextSeq,
                          |y.OpenContent()| + |Frame(e.payload)|, e.now)
    && g.sizeBytes >= 65536
  }

  predicate IsClosed(st: StreamState, g: SegmentRecord) {
    exists i :: 0 <= i < |st.segments| - 1 && st.segments[i] == g
  }

  /** An append that closes nothing, or just the open segment. */
  lemma ClosedByAppend(stream: Stream, y: System, e: Event, g: SegmentRecord)
    requires Inv(stream, y) && Enabled(stream, y, e) && e.Append?
    requires IsClosed(Appended(y.st, e.payload, e.outcome, e.now), g)
    ensures IsClosed(y.st, g) || FilledBy([y], [e], 0, g)
  {
    var st, t := y.st, Appended(y.st, e.payload, e.outcome, e.now);
    if !e.outcome.Written? {
      FailedWrite(st, e.payload, e.outcome);
      assert t.segments == st.segments;
    } else {
      AppendClosesIff(st, e.payload, e.now);
      if |st.OpenContent() + Frame(e.payload)| < 65536 {
        ClosedAlike(st, t, g);
      } else {
        ClosedOneMore(st, t, e.payload, e.now, g);
      }
    }
  }

  lemma ClosedAlike(st: StreamState, t: StreamState, g: SegmentRecord)
    requires |t.segments| == |st.segments| && IsClosed(t, g)
    requires forall i :: 0 <= i < |st.segments| - 1 ==> t.segments[i] == st.segments[i]
    ensures IsClosed(st, g)
  {
    var i :| 0 <= i < |t.segments| - 1 && t.segments[i] == g;
    assert st.segments[i] == g;
  }

  lemma ClosedOneMore(st: StreamState, t: StreamState, payload: bytes, now: nat, g: SegmentRecord)
    requires |st.segments| > 0 && FillsSegment(st, t, payload, now) && IsClosed(t, g)
    ensures IsClosed(st, g)
         || g == SegmentRecord(st.Open().segmentId, st.Open().oldestSeq, st.cursor.nextSeq,
                               |st.OpenContent()| + |Frame(payload)|, now)
  {
    var i :| 0 <= i < |t.segments| - 1 && t.segments[i] == g;
    if i < |st.segments| - 1 {
      assert st.segments[i] == g;
    }
  }

  lemma ClosedInFront(st: StreamState, t: StreamState, k: nat, g: SegmentRecord)
    requires k < |st.segments| && t.segments == st.segments[k..] && IsClosed(t, g)
    ensures IsClosed(st, g)
  {
    var i :| 0 <= i < |t.segments| - 1 && t.segments[i] == g;
    assert st.segments[i + k] == g;
  }

  lemma ClosedBeforeCut(st: StreamState, inflight: Option<bytes>, cut: nat, gone: set<nat>, g: SegmentRecord)
    requires Good(st) && CanCrash(st, inflight, cut, gone)
    requires IsClosed(Booted(Crashed(st, inflight, cut, gone)), g)
    ensures IsClosed(st, g)
  {
    CrashedTracked(st, inflight, cut, gone);
    BootedShape(st, Crashed(st, inflight, cut, gone));
    ClosedAlike(st, Booted(Crashed(st, inflight, cut, gone)), g);
  }

  /** Where a closed segment comes from. */
  lemma ClosedComesFrom(stream: Stream, y: System, e: Event, g: SegmentRecord)
    requires Inv(stream, y) && Enabled(stream, y, e) && IsClosed(Apply(stream, y, e).st, g)
    ensures IsClosed(y.st, g) || FilledBy([y], [e], 0, g)
  {
    match e
    case Append(_, _, _) => ClosedByAppend(stream, y, e, g);
    case Reclaim(p, now) =>
      var k := ReclaimLeaves(stream, y.st, p, now);
      ClosedInFront(y.st, Reclaimed(stream, y.st, p, now).0, k, g);
    case PowerCut(inflight, cut, gone) => ClosedBeforeCut(y.st, inflight, cut, gone, g);
    case _ =>
      assert Apply(stream, y, e).st.segments == y.st.segments;
  }

  lemma ClosedStep(stream: Stream, run: seq<System>, events: seq<Event>, n: nat, g: SegmentRecord)
    requires Run(stream, run, events) && n < |events| && IsClosed(run[n + 1].st, g)
    ensures IsClosed(run[n].st, g) || FilledBy(run, events, n, g)
  {
    RunInv(stream, run, events, n);
    assert StepAt(stream, run, events, n);
    ClosedComesFrom(stream, run[n], events[n], g);
  }

  /**
   * At every moment of every run each closed segment was closed by a successful append
   * that brought its file to 64 KiB: of the newest of its seqs, at its close time.
   */
  lemma {:induction false} ClosedWhenFilled(stream: Stream, run: seq<System>, events: seq<Event>, n: nat,
    g: SegmentRecord)
    requires Run(stream, run, events) && n < |run| && IsClosed(run[n].st, g)
    ensures exists j: nat :: j < n && FilledBy(run, events, j, g)
  {
    if n == 0 {
    } else {
      ClosedStep(stream, run, events, n - 1, g);
      if IsClosed(run[n - 1].st, g) {
        ClosedWhenFilled(stream, run, events, n - 1, g);
      }
    }
  }

  /** A record got into the open file without having been counted, before power was cut. */
  predicate CutSinceAppend(events: seq<Event>, j: nat, n: nat)
    requires j < n <= |events|
  {
    events[j].PowerCut? && forall k :: j < k < n ==> !(events[k].Append? && events[k].outcome.Written?)
  }

  /** What an event does to the size of the open file. */
  lemma OpenGrows(stream: Stream, y: System, e: Event)
    requires Inv(stream, y) && Enabled(stream, y, e) && !e.PowerCut?
    ensures var t := Apply(stream, y, e).st;
            && |t.segments| > 0
            && if e.Append? && e.outcome.Written? then |t.OpenContent()| < 65536
               else t.OpenContent() == y.st.OpenContent()
  {
    match e
    case Append(payload, outcome, now) =>
      if outcome.Written? {
        AppendClosesIff(y.st, payload, now);
      } else {
        FailedWrite(y.st, payload, outcome);
      }
    case Reclaim(p, now) => var k := ReclaimLeaves(stream, y.st, p, now);
    case Send(lim) => ReadIsDurable(y.st, C.FirstUnacked(y.st.cursor), lim);
    case _ =>
  }

  /** A reclaim takes segments from the front of the table and leaves the open one alone. */
  lemma ReclaimLeaves(stream: Stream, st: StreamState, p: Pressure, now: nat) returns (k: nat)
    requires Good(st) && TakesOldest(stream, st, p.retentionSeconds, now)
    ensures var t := Reclaimed(stream, st, p, now).0;
            && k < |st.segments| && t.segments == st.segments[k..]
            && t.Open() == st.Open() && t.OpenContent() == st.OpenContent()
  {
    ReclaimPicksPrefix(stream, st, p, now);
    k := |Choice(Candidates(stream, st, now), p)|;
    var r := RemovedAll(st, FirstIds(st, k)).0;
    DroppedConsistent(st, r, k);
    assert Reclaimed(stream, st, p, now).0.segments == st.segments[k..];
  }

  /** A segment that has reached 64 KiB stays open only from a power cut to the next successful append. */
  lemma {:induction false} FullOnlyAfterACut(stream: Stream, run: seq<System>, events: seq<Event>, n: nat)
    requires Run(stream, run, events) && n < |run| && |run[n].st.segments| > 0
    requires |run[n].st.OpenContent()| >= 65536
    ensures exists j: nat :: j < n && CutSinceAppend(events, j, n)
  {
    if n == 0 {
    } else if events[n - 1].PowerCut? {
      assert CutSinceAppend(events, n - 1, n);
    } else {
      RunInv(stream, run, events, n - 1);
      assert StepAt(stream, run, events, n - 1);
      OpenGrows(stream, run[n - 1], events[n - 1]);
      FullOnlyAfterACut(stream, run, events, n - 1);
      var j: nat :| j < n - 1 && CutSinceAppend(events, j, n - 1);
      assert CutSinceAppend(events, j, n);
    }
  }
}
