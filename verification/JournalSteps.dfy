/**
 * What each Journal method does to a stream, as functions on its state
 * (log/Journal.cpp). The class in Journal.dfy is proved to compute them; the
 * invariants and the crash argument are proved about them.
 */
module JournalSteps {
  import opened Wrappers
  import opened Frames
  import opened FrameAccumulator
  import opened JournalCursor
  import opened JournalTypes
  import opened SpaceReclaimer

  /** How the file system answered one append: done, no handle, or only some bytes landed. */
  datatype WriteOutcome = Written | OpenFailed | CutShort(landed: nat)

  function SavedIndex(st: StreamState): StreamState {
    st.(flash := st.flash.(index := Some(Index(st.cursor, st.segments, st.openBytes))))
  }

  // ---- append ----

  /** fopen "ab": creates a missing file and appends at its end. */
  function OpenedForAppend(st: StreamState): StreamState
    requires |st.segments| > 0
  {
    if st.handle.Writing? then st
    else st.WithFile(st.Open().segmentId, st.OpenContent()).(handle := Writing(|st.OpenContent()|))
  }

  /** truncate(2): shortens, or pads with zeros. */
  function Truncated(b: bytes, n: nat): bytes {
    if n <= |b| then b[..n] else b + seq(n - |b|, _ => 0)
  }

  function FrameWritten(st: StreamState, payload: bytes, outcome: WriteOutcome): (StreamState, bool)
    requires |st.segments| > 0
  {
    if st.handle.Closed? && outcome.OpenFailed? then (st, false)
    else
      var o := OpenedForAppend(st);
      var id, content, frame := o.Open().segmentId, o.OpenContent(), Frame(payload);
      if outcome.Written? then (o.WithFile(id, content + frame), true)
      else
        var landed := if outcome.CutShort? then Min(outcome.landed, |frame|) else 0;
        (o.WithFile(id, Truncated(content + frame[..landed], st.openBytes)).(handle := Closed), false)
  }

  /** The open segment reached its size: close it and, while the table has room, start the next. */
  function Rotated(st: StreamState, now: nat): StreamState
    requires |st.segments| > 0
  {
    if st.openBytes < ROTATE_BYTES then st
    else
      var closed := st.(handle := Closed).WithOpen(st.Open().(closedAt := now));
      var next := SegmentRecord(st.Open().segmentId + 1, st.cursor.nextSeq, st.cursor.nextSeq, 0, 0);
      var grown := if |st.segments| < MAX_SEGMENTS then closed.(segments := closed.segments + [next]) else closed;
      SavedIndex(grown.(openBytes := 0))
  }

  /** The bookkeeping after a successful write, before any rotation. */
  function Counted(st: StreamState, payload: bytes): StreamState
    requires |st.segments| > 0
  {
    var size := st.openBytes + |payload| + 2;
    st.(cursor := st.cursor.(nextSeq := st.cursor.nextSeq + 1), openBytes := size)
      .WithOpen(st.Open().(newestSeq := st.cursor.nextSeq, sizeBytes := size))
  }

  function Appended(st: StreamState, payload: bytes, outcome: WriteOutcome, now: nat): StreamState
    requires |st.segments| > 0
  {
    var (w, ok) := FrameWritten(st, payload, outcome);
    if ok then Rotated(Counted(w, payload), now) else w
  }

  // ---- acks ----

  function Acked(st: StreamState, upTo: nat): StreamState {
    SavedIndex(st.(cursor := Acknowledge(st.cursor, upTo)))
  }

  // ---- reclaim ----

  function IndexOf(segments: seq<SegmentRecord>, id: nat): (i: nat)
    ensures i <= |segments| && (i < |segments| ==> segments[i].segmentId == id)
    ensures forall j :: 0 <= j < i ==> segments[j].segmentId != id
  {
    if |segments| == 0 || segments[0].segmentId == id then 0 else 1 + IndexOf(segments[1..], id)
  }

  /** One iteration of the deletion loop. */
  function Removed(st: StreamState, id: nat): (StreamState, Option<GapMarker>) {
    var i := IndexOf(st.segments, id);
    if i == |st.segments| then (st, None)
    else
      var (c, gap) := ReclaimedTo(st.cursor, st.segments[i].newestSeq + 1);
      (st.(cursor := c,
           segments := st.segments[..i] + st.segments[i + 1..],
           flash := st.flash.(files := st.flash.files - {id})), gap)
  }

  function RemovedAll(st: StreamState, ids: seq<nat>): (StreamState, seq<GapMarker>)
    decreases |ids|
  {
    if |ids| == 0 then (st, [])
    else
      var (one, gap) := Removed(st, ids[0]);
      var (all, gaps) := RemovedAll(one, ids[1..]);
      (all, Listed(gap) + gaps)
  }

  function Listed(gap: Option<GapMarker>): seq<GapMarker> { if gap.Some? then [gap.value] else [] }

  function Prepend(gaps: seq<GapMarker>, r: (StreamState, seq<GapMarker>)): (StreamState, seq<GapMarker>) {
    (r.0, gaps + r.1)
  }

  lemma RemovedAllStep(st: StreamState, ids: seq<nat>, k: nat, gaps: seq<GapMarker>)
    requires k < |ids|
    ensures var (one, gap) := Removed(st, ids[k]);
            Prepend(gaps, RemovedAll(st, ids[k..]))
            == Prepend(if gap.Some? then gaps + [gap.value] else gaps, RemovedAll(one, ids[k + 1..]))
  {
    assert ids[k..][0] == ids[k] && ids[k..][1..] == ids[k + 1..];
    var (one, gap) := Removed(st, ids[k]);
    var rest := RemovedAll(one, ids[k + 1..]).1;
    var head := Listed(gap);
    assert gaps + (head + rest) == (if gap.Some? then gaps + [gap.value] else gaps) + rest;
  }

  function Candidate(stream: Stream, g: SegmentRecord, cursor: Cursor, now: nat): SegmentInfo {
    SegmentInfo(stream, g.segmentId, g.sizeBytes, IsAcked(cursor, g.newestSeq),
                if now > g.closedAt then now - g.closedAt else 0)
  }

  /** Every segment but the open one. */
  function Candidates(stream: Stream, st: StreamState, now: nat): seq<SegmentInfo>
    requires |st.segments| > 0
  {
    seq(|st.segments| - 1, i requires 0 <= i < |st.segments| - 1 => Candidate(stream, st.segments[i], st.cursor, now))
  }

  function Reclaimed(stream: Stream, st: StreamState, p: Pressure, now: nat): (StreamState, seq<GapMarker>)
    requires |st.segments| > 0
  {
    var ids := Ids(Choice(Candidates(stream, st, now), p));
    var (r, gaps) := RemovedAll(st, ids);
    (if |ids| > 0 then SavedIndex(r) else r, gaps)
  }

  // ---- boot ----

  const FRESH := SegmentRecord(0, 0, 0, 0, 0)

  predicate Tracked(segments: seq<SegmentRecord>, id: nat) {
    exists i :: 0 <= i < |segments| && segments[i].segmentId == id
  }

  /** The table the index file holds, or a fresh one when there is no index. */
  function Loaded(fl: Flash): (st: StreamState)
    ensures 0 < |st.segments| <= MAX_SEGMENTS && st.handle == Closed && st.flash == fl
  {
    var cursor := if fl.index.Some? then fl.index.value.cursor else Cursor(0, 0, None);
    var stored :=
      if fl.index.Some? then fl.index.value.segments[..Min(|fl.index.value.segments|, MAX_SEGMENTS)] else [];
    var segments :=
      if |stored| == 0 then [FRESH.(oldestSeq := cursor.nextSeq, newestSeq := cursor.nextSeq)] else stored;
    StreamState(cursor, segments, if fl.index.Some? then fl.index.value.openBytes else 0, Closed, fl)
  }

  function WithoutOrphans(st: StreamState): StreamState {
    st.(flash := st.flash.(files := map id | id in st.flash.files && Tracked(st.segments, id) :: st.flash.files[id]))
  }

  /** Rebuilds the open segment's bookkeeping from its file and cuts a torn tail. */
  function Recovered(st: StreamState): StreamState
    requires |st.segments| > 0
  {
    var open, content := st.Open(), st.OpenContent();
    var frames, valid := |Payloads(content)|, ValidLen(content);
    var next := open.oldestSeq + frames;
    var cut := if |content| > valid then st.WithFile(open.segmentId, content[..valid]) else st;
    cut.(cursor := st.cursor.(nextSeq := next), openBytes := valid)
       .WithOpen(open.(newestSeq := if frames > 0 then next - 1 else open.oldestSeq, sizeBytes := valid))
  }

  function Booted(fl: Flash): StreamState { Recovered(WithoutOrphans(Loaded(fl))) }

  // ---- read ----

  /** The segment loop of readFrom; `touched` says whether it closed the append handle. */
  function ReadLoop(st: StreamState, i: nat, acc: Acc, wanted: nat, lim: Limits): (r: (Acc, bool))
    requires i <= |st.segments|
    decreases |st.segments| - i
  {
    if i == |st.segments| then (acc, false)
    else
      var g := st.segments[i];
      if g.sizeBytes == 0 || g.newestSeq < wanted then ReadLoop(st, i + 1, acc, wanted, lim)
      else
        var touched := i + 1 == |st.segments|;
        if g.segmentId !in st.flash.files then (acc, touched)
        else
          var w := Walk(Payloads(st.flash.files[g.segmentId]), acc.(seqNo := g.oldestSeq), wanted, lim);
          if w.limit || AtLimit(w.acc, lim) then (w.acc, touched)
          else
            var rest := ReadLoop(st, i + 1, w.acc, w.acc.seqNo, lim);
            (rest.0, touched || rest.1)
  }

  const EMPTY := Acc(0, false, 0, [], 0)

  function ReadFrom(st: StreamState, from: nat, lim: Limits): (StreamState, Option<RawBatch>) {
    if lim.maxRecords == 0 then (st, None)
    else
      var (acc, touched) := ReadLoop(st, 0, EMPTY, from, lim);
      (if touched then st.(handle := Closed) else st,
       if acc.started then Some(RawBatch(acc.firstSeq, acc.count, acc.frames)) else None)
  }
}
