/**
 * One stream of the journal (log/Journal.cpp) in its own form: a fixed table of
 * 64 segment records, a segment count, the open segment's size, an append handle
 * and the cursor, updated in place. Every method is proved to compute the state
 * function of JournalSteps. Clocks, the partition's usage and the outcome of a
 * write are parameters.
 */
module Journal {
  import opened Wrappers
  import opened Frames
  import opened FrameAccumulator
  import opened JournalCursor
  import opened JournalTypes
  import opened JournalSteps
  import opened SpaceReclaimer
  import opened Cbor
  import opened LogRecords
  import opened BatchEnvelope

  class Journal {
    const stream: Stream
    const cursor: JournalCursor
    const segments: array<SegmentRecord>
    var segmentCount: nat
    var openSegmentBytes: nat
    var handle: Handle
    var flash: Flash

    ghost predicate Valid()
      reads this
    {
      segments.Length == MAX_SEGMENTS && 0 < segmentCount <= MAX_SEGMENTS
    }

    ghost function State(): StreamState
      requires segments.Length == MAX_SEGMENTS && segmentCount <= MAX_SEGMENTS
      reads this, cursor, segments
    {
      StreamState(cursor.View(), segments[..segmentCount], openSegmentBytes, handle, flash)
    }

    /** Mounts the stream: everything in memory comes from what the flash holds. */
    constructor (stream: Stream, found: Flash)
      ensures Valid() && fresh(cursor) && fresh(segments)
      ensures this.stream == stream && State() == Booted(found)
    {
      this.stream := stream;
      cursor := new JournalCursor();
      segments := new SegmentRecord[MAX_SEGMENTS](_ => FRESH);
      segmentCount, openSegmentBytes := 0, 0;
      handle, flash := Closed, found;
      new;
      LoadIndex();
      RemoveOrphanSegments();
      RecoverOpenSegment();
    }

    method LoadIndex()
      requires segments.Length == MAX_SEGMENTS && segmentCount == 0 && openSegmentBytes == 0 && handle == Closed
      requires cursor.View() == Cursor(0, 0, None)
      modifies this, cursor, segments
      ensures Valid() && State() == Loaded(flash) && flash == old(flash)
    {
      if flash.index.Some? {
        var index := flash.index.value;
        cursor.Restore(index.cursor.nextSeq, index.cursor.oldestSeq, index.cursor.acked);
        segmentCount := if |index.segments| > MAX_SEGMENTS then MAX_SEGMENTS else |index.segments|;
        openSegmentBytes := index.openBytes;
        for i := 0 to segmentCount
          invariant segments[..i] == index.segments[..i]
          modifies segments
        {
          segments[i] := index.segments[i];
        }
      }
      if segmentCount == 0 {
        segments[0] := SegmentRecord(0, cursor.nextSeq, cursor.nextSeq, 0, 0);
        segmentCount := 1;
      }
    }

    /** Deletes every segment file the table does not track, in directory order. */
    method RemoveOrphanSegments()
      requires Valid()
      modifies this`flash
      ensures State() == WithoutOrphans(old(State()))
    {
      var names := flash.files.Keys;
      ghost var before := State();
      while names != {}
        invariant names <= before.flash.files.Keys
        invariant State() == before.(flash := before.flash.(files := flash.files))
        invariant forall id ::
          id in flash.files <==> id in before.flash.files && (id in names || Tracked(before.segments, id))
        invariant forall id :: id in flash.files ==> flash.files[id] == before.flash.files[id]
        decreases names
      {
        var id :| id in names;
        var tracked := false;
        for i := 0 to segmentCount
          invariant tracked == exists k :: 0 <= k < i && segments[k].segmentId == id
        {
          tracked := tracked || segments[i].segmentId == id;
        }
        assert tracked == Tracked(before.segments, id) by {
          assert forall k :: 0 <= k < segmentCount ==> before.segments[k] == segments[k];
        }
        names := names - {id};
        if !tracked {
          flash := flash.(files := flash.files - {id});
        }
      }
      assert flash.files == WithoutOrphans(before).flash.files;
    }

    /** The scanner of FrameCodec.h over the open segment's file, 256 bytes at a time. */
    method RecoverOpenSegment()
      requires Valid()
      modifies this`openSegmentBytes, this`flash, cursor, segments
      ensures State() == Recovered(old(State()))
    {
      ghost var before := State();
      var open := segments[segmentCount - 1];
      var content := Content(flash.files, open.segmentId);
      var frames, validBytes, totalBytes := ScanFile(content, 256);
      if totalBytes > validBytes {
        flash := flash.(files := flash.files[open.segmentId := content[..validBytes]]);
      }
      var next := open.oldestSeq + frames;
      segments[segmentCount - 1] :=
        open.(newestSeq := if frames > 0 then next - 1 else open.oldestSeq, sizeBytes := validBytes);
      openSegmentBytes := validBytes;
      var acked := if cursor.hasAck then Some(cursor.ackedSeq) else None;
      cursor.Restore(next, cursor.oldestSeq, acked);
      assert segments[..segmentCount] == Recovered(before).segments;
    }

    method SaveIndex()
      requires segments.Length == MAX_SEGMENTS && segmentCount <= MAX_SEGMENTS
      modifies this`flash
      ensures State() == SavedIndex(old(State()))
      ensures flash.index == Some(Index(State().cursor, segments[..segmentCount], openSegmentBytes))
    {
      var acked := if cursor.hasAck then Some(cursor.ackedSeq) else None;
      var index := Index(Cursor(cursor.nextSeq, cursor.oldestSeq, acked), segments[..segmentCount], openSegmentBytes);
      flash := flash.(index := Some(index));
    }

    method WriteFrame(payload: bytes, outcome: WriteOutcome) returns (ok: bool)
      requires Valid()
      modifies this`handle, this`flash
      ensures (State(), ok) == FrameWritten(old(State()), payload, outcome)
    {
      var openId := segments[segmentCount - 1].segmentId;
      assert openId == State().Open().segmentId;
      if handle.Closed? {
        if outcome.OpenFailed? {
          return false;
        }
        var found := Content(flash.files, openId);
        flash := flash.(files := flash.files[openId := found]);
        handle := Writing(|found|);
      }
      var content := Content(flash.files, openId);
      var header := Header(|payload|);
      var frame := header + payload;
      if outcome.Written? {
        flash := flash.(files := flash.files[openId := content + frame]);
        return true;
      }
      var landed := if outcome.CutShort? then Min(outcome.landed, |frame|) else 0;
      handle := Closed;
      flash := flash.(files := flash.files[openId := Truncated(content + frame[..landed], openSegmentBytes)]);
      return false;
    }

    /** The common tail of appendToStream and appendRaw: no seq without a frame in the file. */
    method Append(payload: bytes, outcome: WriteOutcome, now: nat) returns (given: Option<nat>)
      requires Valid()
      modifies this, cursor, segments
      ensures Valid() && State() == Appended(old(State()), payload, outcome, now)
      ensures given
           == if FrameWritten(old(State()), payload, outcome).1 then Some(old(State()).cursor.nextSeq) else None
    {
      var ok := WriteFrame(payload, outcome);
      if !ok {
        return None;
      }
      ghost var written := State();
      var s := cursor.AssignSeq();
      openSegmentBytes := openSegmentBytes + |payload| + 2;
      var open := segments[segmentCount - 1];
      segments[segmentCount - 1] := open.(newestSeq := s, sizeBytes := openSegmentBytes);
      assert State() == Counted(written, payload);
      RotateIfNeeded(now);
      return Some(s);
    }

    /** appendLog / appendEvent: the record is stamped with the seq it is about to get. */
    method AppendRecord(record: LogRecord, outcome: WriteOutcome, now: nat) returns (given: Option<nat>)
      requires Valid() && FieldsFit(record.(seqNo := cursor.nextSeq))
      modifies this, cursor, segments
      ensures Valid()
      ensures State() == Appended(old(State()), RecordBytes(record.(seqNo := old(cursor.nextSeq))), outcome, now)
    {
      var payload := EncodeLogRecord(record.(seqNo := cursor.nextSeq));
      given := Append(payload, outcome, now);
    }

    method RotateIfNeeded(now: nat)
      requires Valid()
      modifies this, segments
      ensures Valid() && State() == Rotated(old(State()), now)
    {
      if openSegmentBytes < ROTATE_BYTES {
        return;
      }
      ghost var before := State();
      handle := Closed;
      var last := segments[segmentCount - 1];
      segments[segmentCount - 1] := last.(closedAt := now);
      if segmentCount < MAX_SEGMENTS {
        segments[segmentCount] := SegmentRecord(last.segmentId + 1, cursor.nextSeq, cursor.nextSeq, 0, 0);
        segmentCount := segmentCount + 1;
      }
      openSegmentBytes := 0;
      SaveIndex();
      assert State().segments == Rotated(before, now).segments;
    }

    method Ack(upTo: nat)
      requires Valid()
      modifies this`flash, cursor
      ensures Valid() && State() == Acked(old(State()), upTo)
    {
      cursor.Ack(upTo);
      SaveIndex();
    }

    method FirstUnackedSeq() returns (s: nat)
      requires Valid()
      ensures s == FirstUnacked(State().cursor)
    {
      s := if cursor.hasAck then cursor.ackedSeq + 1 else 0;
    }

    /** One deletion of reclaimMount: the file goes, the cursor moves, the table closes up. */
    method RemoveSegment(id: nat) returns (gap: Option<GapMarker>)
      requires segments.Length == MAX_SEGMENTS && segmentCount <= MAX_SEGMENTS
      modifies this, cursor, segments
      ensures segmentCount <= MAX_SEGMENTS && (State(), gap) == Removed(old(State()), id)
    {
      ghost var before := State();
      var i := 0;
      while i < segmentCount && segments[i].segmentId != id
        invariant 0 <= i <= segmentCount
        invariant forall j :: 0 <= j < i ==> segments[j].segmentId != id
      {
        i := i + 1;
      }
      assert forall j :: 0 <= j < segmentCount ==> before.segments[j] == segments[j];
      assert i == IndexOf(before.segments, id);
      if i == segmentCount {
        return None;
      }
      flash := flash.(files := flash.files - {id});
      gap := cursor.ReclaimTo(segments[i].newestSeq + 1);
      assert segments[..i] == before.segments[..i] && segments[i + 1..segmentCount] == before.segments[i + 1..];
      CloseUp(i);
    }

    /** Moves every later record one place down. */
    method CloseUp(i: nat)
      requires segments.Length == MAX_SEGMENTS && i < segmentCount <= MAX_SEGMENTS
      modifies this`segmentCount, segments
      ensures segmentCount == old(segmentCount) - 1
      ensures segments[..segmentCount] == old(segments[..i] + segments[i + 1..segmentCount])
    {
      ghost var before := segments[..segmentCount];
      var j := i;
      while j + 1 < segmentCount
        invariant i <= j < segmentCount
        invariant segments[..j] == before[..i] + before[i + 1..j + 1]
        invariant segments[j..segmentCount] == before[j..]
        modifies segments
      {
        assert segments[j + 1] == before[j + 1];
        ghost var later := segments[j + 1..segmentCount];
        segments[j] := segments[j + 1];
        j := j + 1;
        assert segments[j..segmentCount] == later;
      }
      segmentCount := segmentCount - 1;
    }

    /** What the reclaimer is told about: every segment but the open one. */
    method ReclaimCandidates(now: nat) returns (candidates: seq<SegmentInfo>)
      requires Valid()
      ensures candidates == Candidates(stream, State(), now)
    {
      candidates := [];
      for i := 0 to segmentCount - 1
        invariant candidates == Candidates(stream, State(), now)[..i]
      {
        var segment := segments[i];
        assert segment == State().segments[i];
        var acked := cursor.hasAck && segment.newestSeq <= cursor.ackedSeq;
        var age := if now > segment.closedAt then now - segment.closedAt else 0;
        candidates := candidates + [SegmentInfo(stream, segment.segmentId, segment.sizeBytes, acked, age)];
      }
    }

    /** The deletion loop of reclaimMount. */
    method RemoveSegments(ids: seq<nat>) returns (gaps: seq<GapMarker>)
      requires segments.Length == MAX_SEGMENTS && segmentCount <= MAX_SEGMENTS
      modifies this, cursor, segments
      ensures segmentCount <= MAX_SEGMENTS && (State(), gaps) == RemovedAll(old(State()), ids)
    {
      ghost var before := State();
      ghost var cur := before;
      gaps := [];
      assert ids[0..] == ids && ids[|ids|..] == [];
      assert [] + RemovedAll(before, ids).1 == RemovedAll(before, ids).1;
      for k := 0 to |ids|
        invariant segmentCount <= MAX_SEGMENTS && State() == cur
        invariant RemovedAll(before, ids) == Prepend(gaps, RemovedAll(cur, ids[k..]))
      {
        RemovedAllStep(cur, ids, k, gaps);
        var gap := RemoveSegment(ids[k]);
        cur := State();
        if gap.Some? {
          gaps := gaps + [gap.value];
        }
      }
      assert gaps + [] == gaps;
    }

    /** reclaimMount, given the partition's usage; returns the gap markers in the order they arose. */
    method ReclaimMount(p: Pressure, now: nat) returns (gaps: seq<GapMarker>)
      requires Valid()
      modifies this, cursor, segments
      ensures segmentCount <= MAX_SEGMENTS && (State(), gaps) == Reclaimed(stream, old(State()), p, now)
    {
      var candidates := ReclaimCandidates(now);
      var result := SpaceReclaimer.Reclaim(candidates, p);
      gaps := RemoveSegments(result.segmentIdsToDelete);
      if |result.segmentIdsToDelete| > 0 {
        SaveIndex();
      }
    }

    /** Builds a batch from file positions, segment by segment, 512 bytes at a time. */
    method ReadFrom(from: nat, lim: Limits) returns (batch: Option<RawBatch>)
      requires Valid()
      modifies this`handle
      ensures (State(), batch) == JournalSteps.ReadFrom(old(State()), from, lim)
    {
      if lim.maxRecords == 0 {
        return None;
      }
      ghost var before := State();
      ghost var whole := ReadLoop(before, 0, EMPTY, from, lim);
      ghost var touched := false;
      var acc, wanted := EMPTY, from;
      var i := 0;
      while i < segmentCount
        invariant 0 <= i <= segmentCount
        invariant var rest := ReadLoop(before, i, acc, wanted, lim); whole == (rest.0, touched || rest.1)
        invariant handle == (if touched then Closed else before.handle)
      {
        var segment := segments[i];
        assert segment == before.segments[i];
        if segment.sizeBytes == 0 || segment.newestSeq < wanted {
          i := i + 1;
          continue;
        }
        if i + 1 == segmentCount {
          touched := true;
          if !handle.Closed? {
            handle := Closed;
          }
        }
        if segment.segmentId !in flash.files {
          assert whole.0 == acc && whole.1 == touched;
          break;
        }
        var limitReached;
        acc, limitReached := ReadSegment(flash.files[segment.segmentId], 512,
          acc.(seqNo := segment.oldestSeq), wanted, lim);
        wanted := acc.seqNo;
        if limitReached || acc.count >= lim.maxRecords || |acc.frames| >= lim.maxBytes {
          assert whole.0 == acc && whole.1 == touched;
          break;
        }
        i := i + 1;
      }
      if !acc.started {
        return None;
      }
      return Some(RawBatch(acc.firstSeq, acc.count, acc.frames));
    }
  }
}
