/**
 * A run that fills the segment table, and what the next rotation then makes of
 * the books (rotateIfNeeded of log/Journal.cpp).
 */
module FullTable {
  import opened Wrappers
  import opened JournalTypes
  import opened JournalSteps
  import opened JournalInvariant
  import opened JournalReclaim
  import opened Protocol
  import R = ProtocolRuns

  /** One record that fills a segment by itself. */
  predicate Whole(record: bytes) { |record| == ROTATE_BYTES - 2 }

  /** Written to an empty open segment, it closes it and opens the next. */
  lemma FillsOneSegment(st: StreamState, record: bytes)
    requires Good(st) && st.openBytes == 0 && |st.segments| < MAX_SEGMENTS && Whole(record)
    ensures var t := Appended(st, record, Written, 0); |t.segments| == |st.segments| + 1 && t.openBytes == 0
  {
    WrittenShape(st, record);
    RotatedShape(Counted(FrameWritten(st, record, Written).0, record), 0);
  }

  lemma {:induction false} TableFills(record: bytes, k: nat) returns (run: seq<System>, events: seq<Event>)
    requires k < MAX_SEGMENTS && Whole(record)
    ensures R.Run(Data, run, events) && |events| == k
    ensures |run[k].st.segments| == k + 1 && run[k].st.openBytes == 0
  {
    if k == 0 {
      run, events := [R.Start0()], [];
    } else {
      var r, es := TableFills(record, k - 1);
      var e := Append(record, Written, 0);
      R.RunInv(Data, r, es, k - 1);
      FillsOneSegment(r[k - 1].st, record);
      R.OneMoreStep(Data, r, es, e);
      run, events := r + [Apply(Data, r[k - 1], e)], es + [e];
    }
  }

  /**
   * With any record of that size there is a run after which one more of it brings the
   * stream to a rotation with a full table, and that rotation gets the open file's
   * size wrong.
   */
  lemma FullTableIsReached(record: bytes) returns (run: seq<System>, events: seq<Event>, st: StreamState)
    requires Whole(record)
    ensures R.Run(Data, run, events)
    ensures |run[|events|].st.segments| > 0
            && st == Counted(FrameWritten(run[|events|].st, record, Written).0, record)
    ensures Good(st) && st.openBytes >= ROTATE_BYTES && |st.segments| == MAX_SEGMENTS
    ensures !Consistent(Rotated(st, 0))
  {
    run, events := TableFills(record, MAX_SEGMENTS - 1);
    var last := run[|events|].st;
    R.RunInv(Data, run, events, |events|);
    WrittenShape(last, record);
    WrittenFrame(last, record);
    st := Counted(FrameWritten(last, record, Written).0, record);
    RotationKeepsIff(st, 0);
  }
}
