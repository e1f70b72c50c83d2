/**
 * What the journal keeps over whole runs. Only a power cut in the middle of a
 * reclaim can leave an entry of the table without its file; every other seq that
 * was not given up is held, and a durable record stays, unchanged, until a reclaim
 * passes it or such a cut takes its file. And what such a cut costs: nothing when
 * the segment was acked, and nothing any more once a later reclaim has passed it.
 */
module RetentionRuns {
  import opened Wrappers
  import opened Frames
  import opened FrameAccumulator
  import C = JournalCursor
  import opened JournalTypes
  import opened JournalSteps
  import opened SpaceReclaimer
  import opened JournalInvariant
  import opened JournalRecovery
  import opened JournalReading
  import opened JournalReclaim
  import opened Protocol
  import opened ProtocolRuns

  // ---- which files are there ----

  /** Every closed segment has its file, but for those in `lost`. */
  ghost predicate PresentBut(st: StreamState, lost: set<nat>) {
    forall i :: 0 <= i < |st.segments| - 1 && st.segments[i].segmentId !in lost ==>
      st.segments[i].segmentId in st.flash.files
  }

  lemma WrittenPresent(st: StreamState, payload: bytes, lost: set<nat>)
    requires |st.segments| > 0 && PresentBut(st, lost)
    ensures var w := Counted(FrameWritten(st, payload, Written).0, payload);
            PresentBut(w, lost) && w.Open().segmentId in w.flash.files
  {
    WrittenShape(st, payload);
  }

  lemma RotatedPresent(st: StreamState, now: nat, lost: set<nat>)
    requires |st.segments| > 0 && st.openBytes >= ROTATE_BYTES && |st.segments| < MAX_SEGMENTS
    requires PresentBut(st, lost) && st.Open().segmentId in st.flash.files
    ensures PresentBut(Rotated(st, now), lost)
  {
    RotatedShape(st, now);
  }

  lemma AppendPresent(st: StreamState, payload: bytes, outcome: WriteOutcome, now: nat, lost: set<nat>)
    requires Good(st) && PresentBut(st, lost)
    requires st.openBytes + |payload| + 2 >= ROTATE_BYTES ==> |st.segments| < MAX_SEGMENTS
    ensures PresentBut(Appended(st, payload, outcome, now), lost)
  {
    if outcome.Written? {
      var w := Counted(FrameWritten(st, payload, Written).0, payload);
      WrittenShape(st, payload);
      WrittenPresent(st, payload, lost);
      if w.openBytes >= ROTATE_BYTES {
        RotatedPresent(w, now, lost);
      }
    } else {
      FailedShape(st, payload, outcome);
    }
  }

  /** Dropping the oldest segments leaves the others their files. */
  lemma DroppedFile(st: StreamState, t: StreamState, k: nat, j: nat)
    requires Consistent(st) && k < |st.segments| && Dropped(st, t, k) && j < |t.segments|
    ensures t.segments[j] == st.segments[k + j]
    ensures t.segments[j].segmentId in t.flash.files <==> st.segments[k + j].segmentId in st.flash.files
  {
    assert forall i :: 0 <= i < k ==> st.segments[i].segmentId < st.segments[k + j].segmentId;
  }

  lemma ReclaimPresent(stream: Stream, st: StreamState, p: Pressure, now: nat, lost: set<nat>)
    requires Good(st) && PresentBut(st, lost) && TakesOldest(stream, st, p.retentionSeconds, now)
    ensures PresentBut(Reclaimed(stream, st, p, now).0, lost)
  {
    ReclaimPicksPrefix(stream, st, p, now);
    var k := |Choice(Candidates(stream, st, now), p)|;
    var t := RemovedAll(st, FirstIds(st, k)).0;
    forall j | 0 <= j < |t.segments| - 1 && t.segments[j].segmentId !in lost
      ensures t.segments[j].segmentId in t.flash.files
    {
      DroppedFile(st, t, k, j);
    }
  }

  lemma CutPresent(st: StreamState, inflight: Option<bytes>, cut: nat, gone: set<nat>, lost: set<nat>)
    requires Good(st) && PresentBut(st, lost) && CanCrash(st, inflight, cut, gone)
    ensures PresentBut(Booted(Crashed(st, inflight, cut, gone)), lost + gone)
  {
    RebootKeeps(st, inflight, cut, gone);
    var t, n := Booted(Crashed(st, inflight, cut, gone)), |st.segments| - 1;
    forall i | 0 <= i < n && t.segments[i].segmentId !in lost + gone
      ensures t.segments[i].segmentId in t.flash.files
    {
      CutSegment(st, inflight, cut, gone, i);
    }
  }

  lemma CutSegment(st: StreamState, inflight: Option<bytes>, cut: nat, gone: set<nat>, i: nat)
    requires Good(st) && CanCrash(st, inflight, cut, gone) && i < |st.segments| - 1
    ensures var t := Booted(Crashed(st, inflight, cut, gone));
            |t.segments| == |st.segments| && t.segments[i].segmentId == st.segments[i].segmentId
            && (st.segments[i].segmentId !in gone ==> SameSegment(st, t, i))
  {
    var fl := Crashed(st, inflight, cut, gone);
    RebootKeeps(st, inflight, cut, gone);
    CrashedTracked(st, inflight, cut, gone);
    BootedShape(st, fl);
  }

  /** The files a cut finds a reclaim deleting. */
  function Taken(e: Event): set<nat> { if e.PowerCut? then e.gone else {} }

  lemma EventPresent(stream: Stream, y: System, e: Event, lost: set<nat>)
    requires Inv(stream, y) && Enabled(stream, y, e) && PresentBut(y.st, lost)
    ensures PresentBut(Apply(stream, y, e).st, lost + Taken(e))
  {
    match e
    case Append(payload, outcome, now) => AppendPresent(y.st, payload, outcome, now, lost);
    case Reclaim(p, now) => ReclaimPresent(stream, y.st, p, now, lost);
    case PowerCut(inflight, cut, gone) => CutPresent(y.st, inflight, cut, gone, lost);
    case _ =>
  }

  /** The files that power cuts have taken, up to moment `n`. */
  function TakenBy(events: seq<Event>, n: nat): set<nat>
    requires n <= |events|
  {
    if n == 0 then {} else TakenBy(events, n - 1) + Taken(events[n - 1])
  }

  lemma {:induction false} FilesArePresent(stream: Stream, run: seq<System>, events: seq<Event>, n: nat)
    requires Run(stream, run, events) && n < |run|
    ensures PresentBut(run[n].st, TakenBy(events, n))
  {
    if n == 0 {
    } else {
      FilesArePresent(stream, run, events, n - 1);
      RunInv(stream, run, events, n - 1);
      assert StepAt(stream, run, events, n - 1);
      EventPresent(stream, run[n - 1], events[n - 1], TakenBy(events, n - 1));
    }
  }

  /** The entry for this seq is there, and its file is among `lost`. */
  ghost predicate LostTo(st: StreamState, s: nat, lost: set<nat>) {
    exists i :: 0 <= i < |st.segments| - 1 && Covers(st.segments[i], s) && st.segments[i].segmentId in lost
  }

  lemma PresentIsHeld(st: StreamState, s: nat, lost: set<nat>)
    requires Consistent(st) && PresentBut(st, lost) && st.cursor.oldestSeq <= s < st.cursor.nextSeq
    ensures IsHeld(st, s) || LostTo(st, s, lost)
  {
    var i := CoveringSegment(st, s);
    if i == |st.segments| - 1 {
      assert st.segments[i] == st.Open();
    }
    SegmentHeldIff(st, i, s);
  }

  /**
   * At every moment of every run, every seq that was not reclaimed is held, unless
   * a power cut in the middle of a reclaim has taken the file of its segment.
   */
  lemma NothingIsMissing(stream: Stream, run: seq<System>, events: seq<Event>, n: nat, s: nat)
    requires Run(stream, run, events) && n < |run|
    requires run[n].st.cursor.oldestSeq <= s < run[n].st.cursor.nextSeq
    ensures IsHeld(run[n].st, s) || LostTo(run[n].st, s, TakenBy(events, n))
  {
    RunInv(stream, run, events, n);
    FilesArePresent(stream, run, events, n);
    PresentIsHeld(run[n].st, s, TakenBy(events, n));
  }

  // ---- a record stays ----

  /** No power cut can take the record of this seq from the open file. */
  ghost predicate Settled(st: StreamState, s: nat) {
    |st.segments| > 0 && st.Durable() <= |st.OpenContent()| && s < DurableNext(st)
  }

  /** The event takes the file that holds this record. */
  ghost predicate Takes(st: StreamState, e: Event, s: nat, r: bytes) {
    exists i :: 0 <= i < |st.segments| - 1 && HoldsIn(st, i, s, r) && st.segments[i].segmentId in Taken(e)
  }

  lemma AppendKeepsRecord(stream: Stream, st: StreamState, payload: bytes, outcome: WriteOutcome, now: nat)
    requires Good(st) && Appendable(stream, st, payload)
    requires st.openBytes + |payload| + 2 >= ROTATE_BYTES ==> |st.segments| < MAX_SEGMENTS
    ensures HoldsOnly(st, Appended(st, payload, outcome, now))
  {
    if outcome.Written? {
      var w := Counted(FrameWritten(st, payload, Written).0, payload);
      WrittenShape(st, payload);
      WrittenFrame(st, payload);
      if w.openBytes >= ROTATE_BYTES {
        RotationKeeps(w, now);
      }
    } else {
      FailedWrite(st, payload, outcome);
    }
  }

  lemma KeptFrames(st: StreamState, t: StreamState, k: nat, j: nat)
    requires Consistent(st) && k < |st.segments| && Dropped(st, t, k) && j < |t.segments|
    ensures t.segments[j].oldestSeq == st.segments[k + j].oldestSeq && FramesOf(t, j) == FramesOf(st, k + j)
  {
    DroppedFile(st, t, k, j);
  }

  /** A record that is not passed lies in a segment that is kept. */
  lemma NotPassed(st: StreamState, k: nat, i: nat, s: nat, r: bytes)
    requires Consistent(st) && k < |st.segments| && i < |st.segments|
    requires HoldsIn(st, i, s, r) && st.segments[k].oldestSeq <= s
    ensures k <= i
  {
    if i < k {
      StartsRise(st, i, k);
    }
  }

  lemma KeptRecord(st: StreamState, t: StreamState, k: nat, i: nat, s: nat, r: bytes)
    requires Consistent(st) && k <= i < |st.segments| && Dropped(st, t, k) && HoldsIn(st, i, s, r)
    ensures Holds(t, s, r)
  {
    KeptFrames(st, t, k, i - k);
    HoldsMoves(st, i, t, i - k, s, r);
  }

  lemma DroppedKeepsRecord(st: StreamState, t: StreamState, k: nat, s: nat, r: bytes)
    requires Consistent(st) && k < |st.segments| && Dropped(st, t, k) && Holds(st, s, r) && t.cursor.oldestSeq <= s
    ensures Holds(t, s, r)
  {
    var i := HoldsAt(st, s, r);
    NotPassed(st, k, i, s, r);
    KeptRecord(st, t, k, i, s, r);
  }

  lemma ReclaimKeepsRecord(stream: Stream, st: StreamState, p: Pressure, now: nat, s: nat, r: bytes)
    requires Good(st) && TakesOldest(stream, st, p.retentionSeconds, now) && Holds(st, s, r)
    requires Reclaimed(stream, st, p, now).0.cursor.oldestSeq <= s
    ensures Holds(Reclaimed(stream, st, p, now).0, s, r)
  {
    ReclaimPicksPrefix(stream, st, p, now);
    var k := |Choice(Candidates(stream, st, now), p)|;
    var t := RemovedAll(st, FirstIds(st, k)).0;
    DroppedKeepsRecord(st, t, k, s, r);
    DroppedConsistent(st, t, k);
    SavedGood(t);
  }

  lemma CutKeepsClosed(st: StreamState, inflight: Option<bytes>, cut: nat, gone: set<nat>, i: nat, s: nat, r: bytes)
    requires Good(st) && CanCrash(st, inflight, cut, gone) && i < |st.segments| - 1
    requires HoldsIn(st, i, s, r) && st.segments[i].segmentId !in gone
    ensures Holds(Booted(Crashed(st, inflight, cut, gone)), s, r)
  {
    CutSegment(st, inflight, cut, gone, i);
    HoldsMoves(st, i, Booted(Crashed(st, inflight, cut, gone)), i, s, r);
  }

  lemma CutKeepsRecord(st: StreamState, inflight: Option<bytes>, cut: nat, gone: set<nat>, s: nat, r: bytes)
    requires Good(st) && CanCrash(st, inflight, cut, gone) && Holds(st, s, r) && Settled(st, s)
    requires !Takes(st, PowerCut(inflight, cut, gone), s, r)
    ensures Holds(Booted(Crashed(st, inflight, cut, gone)), s, r)
  {
    var i := HoldsAt(st, s, r);
    if i < |st.segments| - 1 {
      CutKeepsClosed(st, inflight, cut, gone, i, s, r);
    } else {
      RebootKeeps(st, inflight, cut, gone);
      DurableFrameStays(st, Booted(Crashed(st, inflight, cut, gone)), s, r);
    }
  }

  lemma DurableFrameStays(st: StreamState, t: StreamState, s: nat, r: bytes)
    requires |t.segments| == |st.segments| > 0 && HoldsIn(st, |st.segments| - 1, s, r) && Settled(st, s)
    requires t.segments[|st.segments| - 1].oldestSeq == st.segments[|st.segments| - 1].oldestSeq
    requires Payloads(st.OpenContent()[..st.Durable()]) <= FramesOf(t, |st.segments| - 1)
    ensures Holds(t, s, r)
  {
    var n, c := |st.segments| - 1, st.OpenContent();
    PrefixFrames(c, st.Durable());
    var k := s - st.segments[n].oldestSeq;
    assert st.segments[n] == st.Open() && FramesOf(st, n) == Payloads(c);
    assert FramesOf(t, n)[k] == Payloads(c[..st.Durable()])[k] == Payloads(c)[k];
    assert HoldsIn(t, n, s, r);
  }

  lemma ReadKeepsRecord(st: StreamState, from: nat, lim: Limits)
    ensures HoldsOnly(st, ReadFrom(st, from, lim).0)
  {
    var t := ReadFrom(st, from, lim).0;
    assert forall i :: 0 <= i < |st.segments| ==> FramesOf(t, i) == FramesOf(st, i);
    SameFramesHoldSame(t, st);
  }

  /**
   * No event takes a durable record, but a reclaim that passes it and a power cut
   * in the middle of a reclaim that was deleting its file.
   */
  lemma EventKeepsRecord(stream: Stream, y: System, e: Event, s: nat, r: bytes)
    requires Inv(stream, y) && Enabled(stream, y, e) && Holds(y.st, s, r) && Settled(y.st, s)
    requires Apply(stream, y, e).st.cursor.oldestSeq <= s && !Takes(y.st, e, s, r)
    ensures Holds(Apply(stream, y, e).st, s, r)
  {
    var st, t := y.st, Apply(stream, y, e).st;
    match e
    case Append(payload, outcome, now) => AppendKeepsRecord(stream, st, payload, outcome, now);
    case Reclaim(p, now) => ReclaimKeepsRecord(stream, st, p, now, s, r);
    case Send(lim) => ReadKeepsRecord(st, C.FirstUnacked(st.cursor), lim);
    case ReceiveAck(upTo) => AckKeeps(st, upTo);
    case PowerCut(inflight, cut, gone) => CutKeepsRecord(st, inflight, cut, gone, s, r);
    case _ =>
  }

  /** Every event is a step of the stream: what is durable stays so, and the oldest seq never goes back. */
  lemma EventIsStreamStep(stream: Stream, y: System, e: Event) returns (p: Option<bytes>)
    requires Inv(stream, y) && Enabled(stream, y, e)
    ensures StreamStep(y.st, Apply(stream, y, e).st, p)
    ensures y.st.cursor.oldestSeq <= Apply(stream, y, e).st.cursor.oldestSeq
  {
    p := None;
    match e
    case Append(payload, outcome, now) =>
      AppendStep(stream, y.st, payload, outcome, now);
      p := Some(payload);
    case Reclaim(pressure, now) => ReclaimStep(stream, y.st, pressure, now);
    case Send(lim) =>
      var t := Apply(stream, y, e).st;
      ReadIsDurable(y.st, C.FirstUnacked(y.st.cursor), lim);
      ClosingKeeps(y.st, t);
    case ReceiveAck(upTo) => AckStep(y.st, upTo);
    case PowerCut(inflight, cut, gone) =>
      RebootKeeps(y.st, inflight, cut, gone);
      p := inflight;
    case _ =>
  }

  /** Some event from moment `n` to before `m` took the file that held this record. */
  ghost predicate WasTaken(run: seq<System>, events: seq<Event>, n: nat, m: nat, s: nat, r: bytes)
    requires n <= m <= |events| && |run| == |events| + 1
  {
    exists j :: n <= j < m && Takes(run[j].st, events[j], s, r)
  }

  lemma StepKeepsRecord(stream: Stream, run: seq<System>, events: seq<Event>, n: nat, s: nat, r: bytes)
    requires Run(stream, run, events) && n + 1 < |run|
    requires Holds(run[n].st, s, r) && Settled(run[n].st, s) && run[n + 1].st.cursor.oldestSeq <= s
    ensures (Holds(run[n + 1].st, s, r) && Settled(run[n + 1].st, s)) || Takes(run[n].st, events[n], s, r)
  {
    RunInv(stream, run, events, n);
    assert StepAt(stream, run, events, n);
    if !Takes(run[n].st, events[n], s, r) {
      EventKeepsRecord(stream, run[n], events[n], s, r);
      var p := EventIsStreamStep(stream, run[n], events[n]);
    }
  }

  lemma OldestRises(stream: Stream, run: seq<System>, events: seq<Event>, n: nat)
    requires Run(stream, run, events) && n + 1 < |run|
    ensures run[n].st.cursor.oldestSeq <= run[n + 1].st.cursor.oldestSeq
  {
    RunInv(stream, run, events, n);
    assert StepAt(stream, run, events, n);
    var p := EventIsStreamStep(stream, run[n], events[n]);
  }

  /**
   * Over every run a durable record stays, with the same payload, until a reclaim
   * passes it or a power cut catches a reclaim deleting its file: through every
   * failed write, rotation, read, ack and other cut.
   */
  lemma {:induction false} DurableRecordsStay(stream: Stream, run: seq<System>, events: seq<Event>,
                                              n: nat, m: nat, s: nat, r: bytes)
    requires Run(stream, run, events) && n <= m < |run|
    requires Holds(run[n].st, s, r) && Settled(run[n].st, s) && run[m].st.cursor.oldestSeq <= s
    ensures (Holds(run[m].st, s, r) && Settled(run[m].st, s)) || WasTaken(run, events, n, m, s, r)
    decreases m
  {
    if n == m {
    } else {
      OldestRises(stream, run, events, m - 1);
      DurableRecordsStay(stream, run, events, n, m - 1, s, r);
      if Holds(run[m - 1].st, s, r) && Settled(run[m - 1].st, s) {
        StepKeepsRecord(stream, run, events, m - 1, s, r);
      }
    }
  }

  // ---- what a lost file costs ----

  /** Everything from the oldest seq to below nextSeq is held. */
  ghost predicate AllHeld(st: StreamState) {
    forall s: nat :: st.cursor.oldestSeq <= s < st.cursor.nextSeq ==> IsHeld(st, s)
  }

  lemma AllHeldIff(st: StreamState)
    requires Consistent(st)
    ensures AllHeld(st) <==> PresentBut(st, {})
  {
    if PresentBut(st, {}) {
      forall s: nat | st.cursor.oldestSeq <= s < st.cursor.nextSeq
        ensures IsHeld(st, s)
      {
        PresentIsHeld(st, s, {});
      }
    } else {
      var i :| 0 <= i < |st.segments| - 1 && st.segments[i].segmentId !in st.flash.files;
      MissingSeq(st, i);
    }
  }

  lemma MissingSeq(st: StreamState, i: nat)
    requires Consistent(st) && i < |st.segments| - 1 && st.segments[i].segmentId !in st.flash.files
    ensures !AllHeld(st)
  {
    var s := st.segments[i].oldestSeq;
    assert ClosedOk(st.flash.files, st.segments[i]);
    SegmentHeldIff(st, i, s);
    StartsRise(st, i, |st.segments| - 1);
    SegmentRange(st, |st.segments| - 1);
    if i > 0 {
      StartsRise(st, 0, i);
    }
  }

  /** The closed segments from the `k`-th on have their files. */
  ghost predicate PresentFrom(st: StreamState, k: nat) {
    forall i :: k <= i < |st.segments| - 1 ==> st.segments[i].segmentId in st.flash.files
  }

  lemma DroppedPresentIff(st: StreamState, r: StreamState, k: nat)
    requires Consistent(st) && k < |st.segments| && Dropped(st, r, k)
    ensures PresentBut(r, {}) <==> PresentFrom(st, k)
  {
    forall j | 0 <= j < |r.segments|
      ensures r.segments[j].segmentId in r.flash.files <==> st.segments[k + j].segmentId in st.flash.files
    {
      DroppedFile(st, r, k, j);
    }
    assert forall i :: k <= i < |st.segments| - 1 ==>
      (st.segments[i].segmentId in st.flash.files <==> r.segments[i - k].segmentId in r.flash.files);
  }

  /**
   * A lost file is forgotten when a reclaim passes it, whether it was there or not:
   * after a reclaim of `k` segments nothing is missing exactly when the closed
   * segments from `k` on have their files.
   */
  lemma ReclaimHealsIff(stream: Stream, st: StreamState, p: Pressure, now: nat)
    requires Good(st) && TakesOldest(stream, st, p.retentionSeconds, now)
    ensures var k, t := |Choice(Candidates(stream, st, now), p)|, Reclaimed(stream, st, p, now).0;
            Good(t) && (AllHeld(t) <==> PresentFrom(st, k))
  {
    var k, t := |Choice(Candidates(stream, st, now), p)|, Reclaimed(stream, st, p, now).0;
    ReclaimStep(stream, st, p, now);
    AllHeldIff(t);
    ReclaimPicksPrefix(stream, st, p, now);
    var r := RemovedAll(st, FirstIds(st, k)).0;
    DroppedPresentIff(st, r, k);
    assert PresentBut(t, {}) <==> PresentBut(r, {});
  }

  /** Only acked segments have lost their files. */
  ghost predicate LostWereAcked(st: StreamState) {
    forall i :: 0 <= i < |st.segments| - 1 && st.segments[i].segmentId !in st.flash.files ==>
      C.IsAcked(st.cursor, st.segments[i].newestSeq)
  }

  /** Where the next batch starts. */
  function Wanted(st: StreamState): nat { Max(C.FirstUnacked(st.cursor), st.cursor.oldestSeq) }

  /**
   * Sending goes on past lost files whose records had all been acked: something is
   * read for the next batch exactly when there is something unacked.
   */
  lemma AckedLossIsHarmless(st: StreamState, lim: Limits)
    requires Consistent(st) && LostWereAcked(st) && lim.maxRecords > 0 && lim.maxBytes > 0
    ensures ReadFrom(st, C.FirstUnacked(st.cursor), lim).1.Some? <==> Wanted(st) < st.cursor.nextSeq
  {
    var run, recs := ReadFromSpec(st, C.FirstUnacked(st.cursor), lim);
    if Wanted(st) < st.cursor.nextSeq {
      var i := CoveringSegment(st, Wanted(st));
      if i == |st.segments| - 1 {
        assert st.segments[i] == st.Open();
      }
      SegmentHeldIff(st, i, Wanted(st));
    } else {
      NotBeyondNext(st, Wanted(st));
    }
  }

  lemma NotBeyondNext(st: StreamState, s: nat)
    requires Consistent(st) && s >= st.cursor.nextSeq
    ensures !IsHeld(st, s)
  {
    if p :| Holds(st, s, p) {
      HeldIsBelowNext(st, s, p);
    }
  }
}
