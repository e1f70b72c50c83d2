/**
 * The journal and its uplink end to end, one stream at a time (log/Journal.cpp,
 * telemetry/Uplink.cpp): appends that may fail, rotations, reclaims, reads, sends
 * over a network that loses, repeats and reorders, acks that come late or twice,
 * and power cuts anywhere. A run is any sequence of enabled events.
 */
module Protocol {
  import opened Wrappers
  import opened Frames
  import opened FrameAccumulator
  import opened JournalCursor
  import opened JournalTypes
  import opened JournalSteps
  import opened SpaceReclaimer
  import opened JournalInvariant
  import opened JournalRecovery
  import opened JournalReading
  import opened JournalReclaim
  import opened BatchEnvelope

  /** A batch as read, with its payloads listed one by one. */
  datatype Batch = Batch(firstSeq: nat, records: seq<bytes>)

  predicate Carries(b: Batch, s: nat) { b.firstSeq <= s < b.firstSeq + |b.records| }

  function Last(b: Batch): int { b.firstSeq + |b.records| - 1 }

  /**
   * The stream and its in-flight slot on the device; everything ever published,
   * everything the server has received, every ack it has issued, and every gap
   * marker that a reclaim has returned.
   */
  datatype System = System(st: StreamState, slot: Option<Batch>, sent: set<Batch>,
                           received: set<Batch>, acks: set<nat>, gaps: seq<GapMarker>)

  datatype Event =
    | Append(payload: bytes, outcome: WriteOutcome, now: nat)
    | Reclaim(pressure: Pressure, now: nat)
    | Send(lim: Limits)
    | Resend
    | GiveUp
    | Deliver(batch: Batch)
    | Commit(batch: Batch)
    | ReceiveAck(upTo: nat)
    | PowerCut(inflight: Option<bytes>, cut: nat, gone: set<nat>)

  /** What may be appended: it fits a frame and, for Logs and Events, is stamped with the next seq. */
  ghost predicate Appendable(stream: Stream, st: StreamState, payload: bytes) {
    |payload| <= MAX_PAYLOAD && (stream != Data ==> Stamped(payload, st.cursor.nextSeq))
  }

  ghost predicate Enabled(stream: Stream, y: System, e: Event) {
    match e
    case Append(payload, _, _) =>
      Appendable(stream, y.st, payload)
      && (y.st.openBytes + |payload| + 2 >= ROTATE_BYTES ==> |y.st.segments| < MAX_SEGMENTS)
    case Reclaim(p, now) => |y.st.segments| > 0 && TakesOldest(stream, y.st, p.retentionSeconds, now)
    case Send(lim) => y.slot.None? && lim.maxRecords > 0 && lim.maxBytes > 0
    case Resend => y.slot.Some?
    case GiveUp => y.slot.Some?
    case Deliver(batch) => batch in y.sent
    case Commit(batch) => batch in y.received
    case ReceiveAck(upTo) => upTo in y.acks
    case PowerCut(inflight, cut, gone) =>
      CanCrash(y.st, inflight, cut, gone) && (inflight.Some? ==> Appendable(stream, y.st, inflight.value))
  }

  ghost function Apply(stream: Stream, y: System, e: Event): System
    requires Enabled(stream, y, e) && |y.st.segments| > 0
  {
    match e
    case Append(payload, outcome, now) => y.(st := Appended(y.st, payload, outcome, now))
    case Reclaim(p, now) =>
      var r := Reclaimed(stream, y.st, p, now);
      y.(st := r.0, gaps := y.gaps + r.1)
    case Send(lim) =>
      // a batch starts after the last acked seq; the slot remembers it for resending
      var r := ReadFrom(y.st, FirstUnacked(y.st.cursor), lim);
      if r.1.None? then y.(st := r.0)
      else y.(st := r.0, slot := Some(BatchRead(y.st, lim)), sent := y.sent + {BatchRead(y.st, lim)})
    case Resend => y
    case GiveUp => y.(slot := None)
    case Deliver(batch) => y.(received := y.received + {batch})
    case Commit(batch) => if |batch.records| > 0 then y.(acks := y.acks + {Last(batch)}) else y
    case ReceiveAck(upTo) =>
      y.(st := Acked(y.st, upTo),
         slot := if y.slot.Some? && upTo + 1 >= y.slot.value.firstSeq then None else y.slot)
    case PowerCut(inflight, cut, gone) => y.(st := Booted(Crashed(y.st, inflight, cut, gone)), slot := None)
  }

  /** A seq is accounted for: the server has received it, or a reclaim has returned a marker for it. */
  ghost predicate Covered(y: System, s: nat) {
    (exists b :: b in y.received && Carries(b, s)) || Marked(y.gaps, s)
  }

  ghost predicate CoveredBelow(y: System, n: nat) { forall s: nat :: s < n ==> Covered(y, s) }

  /** The batch is durable and agrees with everything the flash still holds. */
  ghost predicate Named(st: StreamState, b: Batch)
    requires Consistent(st)
  {
    && |b.records| > 0 && b.firstSeq + |b.records| <= DurableNext(st)
    && (forall s: nat, p: bytes :: Holds(st, s, p) && Carries(b, s) ==> p == b.records[s - b.firstSeq])
  }

  ghost predicate Agree(b: Batch, c: Batch) {
    forall s: nat :: Carries(b, s) && Carries(c, s) ==> b.records[s - b.firstSeq] == c.records[s - c.firstSeq]
  }

  ghost predicate Stamps(stream: Stream, st: StreamState) {
    stream != Data ==> forall s: nat, p: bytes :: Holds(st, s, p) ==> Stamped(p, s)
  }

  /** Everything about what is on flash and what has been read from it. */
  ghost predicate NamesOk(stream: Stream, y: System) {
    && Good(y.st) && Stamps(stream, y.st)
    && (forall b :: b in y.sent ==> Named(y.st, b))
    && (forall b, c :: b in y.sent && c in y.sent ==> Agree(b, c))
    && (stream != Data ==> forall b :: b in y.sent ==> AllStamped(b.records, b.firstSeq))
  }

  /** Everything about what has been confirmed. */
  ghost predicate CoverOk(y: System)
    requires Consistent(y.st)
  {
    && y.received <= y.sent && (y.slot.Some? ==> y.slot.value in y.sent)
    && CoveredBelow(y, y.st.cursor.oldestSeq)
    && (forall b :: b in y.sent ==> CoveredBelow(y, b.firstSeq))
    && FirstUnacked(y.st.cursor) <= DurableNext(y.st) && CoveredBelow(y, FirstUnacked(y.st.cursor))
    && (forall a :: a in y.acks ==> a < DurableNext(y.st) && CoveredBelow(y, a + 1))
  }

  ghost predicate Inv(stream: Stream, y: System) { NamesOk(stream, y) && CoverOk(y) }

  // ---- names ----

  lemma DurableBelowNext(st: StreamState)
    requires Consistent(st)
    ensures DurableNext(st) <= st.cursor.nextSeq
  {
    PrefixFrames(st.OpenContent(), st.Durable());
  }

  /** A step that keeps the durable part and holds at most one new frame, at nextSeq, keeps every name. */
  lemma NameSurvives(st: StreamState, t: StreamState, p: bytes, b: Batch)
    requires Consistent(st) && Consistent(t) && Named(st, b)
    requires DurableNext(st) <= DurableNext(t)
    requires HoldsOnly(t, st) || HoldsNoMore(t, st, st.cursor.nextSeq, p)
    ensures Named(t, b)
  {
    DurableBelowNext(st);
    forall s: nat, q: bytes | Holds(t, s, q) && Carries(b, s)
      ensures q == b.records[s - b.firstSeq]
    {
      assert Holds(st, s, q);
    }
  }

  /** The steps that change the stream without sending anything. */
  ghost predicate StreamStep(st: StreamState, t: StreamState, p: Option<bytes>)
    requires Consistent(st)
  {
    && Good(t) && DurableNext(st) <= DurableNext(t)
    && (if p.Some? then HoldsNoMore(t, st, st.cursor.nextSeq, p.value) else HoldsOnly(t, st))
  }

  lemma NamesKept(stream: Stream, y: System, t: StreamState, p: Option<bytes>)
    requires NamesOk(stream, y) && StreamStep(y.st, t, p)
    requires p.Some? ==> Appendable(stream, y.st, p.value)
    ensures NamesOk(stream, y.(st := t))
  {
    forall b | b in y.sent
      ensures Named(t, b)
    {
      NameSurvives(y.st, t, if p.Some? then p.value else [], b);
    }
  }

  lemma AppendStep(stream: Stream, st: StreamState, payload: bytes, outcome: WriteOutcome, now: nat)
    requires Good(st) && Appendable(stream, st, payload)
    requires st.openBytes + |payload| + 2 >= ROTATE_BYTES ==> |st.segments| < MAX_SEGMENTS
    ensures var t := Appended(st, payload, outcome, now);
            && StreamStep(st, t, Some(payload))
            && t.cursor.oldestSeq == st.cursor.oldestSeq && t.cursor.acked == st.cursor.acked
  {
    if outcome.Written? {
      WrittenStep(st, payload);
      var w := Counted(FrameWritten(st, payload, Written).0, payload);
      if w.openBytes >= ROTATE_BYTES {
        RotatedStep(st, w, payload, now);
      }
    } else {
      FailedWrite(st, payload, outcome);
      FailedWriteDurable(st, payload, outcome);
    }
  }

  lemma WrittenStep(st: StreamState, payload: bytes)
    requires Good(st) && |payload| <= MAX_PAYLOAD
    ensures var w := Counted(FrameWritten(st, payload, Written).0, payload);
            && StreamStep(st, w, Some(payload)) && |w.segments| == |st.segments|
            && w.openBytes == st.openBytes + |payload| + 2
            && w.cursor == st.cursor.(nextSeq := st.cursor.nextSeq + 1)
  {
    WrittenShape(st, payload);
    WrittenFrame(st, payload);
    CutWithin(st.OpenContent(), Frame(payload), st.Durable());
  }

  lemma RotatedStep(st: StreamState, w: StreamState, payload: bytes, now: nat)
    requires Good(st) && StreamStep(st, w, Some(payload)) && w.openBytes >= ROTATE_BYTES && |w.segments| < MAX_SEGMENTS
    ensures StreamStep(st, Rotated(w, now), Some(payload)) && Rotated(w, now).cursor == w.cursor
  {
    var t := Rotated(w, now);
    RotationKeeps(w, now);
    DurableBelowNext(w);
    assert DurableNext(t) == w.cursor.nextSeq;
  }

  lemma FailedWriteDurable(st: StreamState, payload: bytes, outcome: WriteOutcome)
    requires Good(st) && !outcome.Written?
    requires var t := FrameWritten(st, payload, outcome).0;
             Good(t) && t.segments == st.segments && t.cursor == st.cursor && t.OpenContent() == st.OpenContent()
    ensures DurableNext(st) <= DurableNext(FrameWritten(st, payload, outcome).0)
  {
    var t := FrameWritten(st, payload, outcome).0;
    if t.handle == Closed {
      PrefixFrames(t.OpenContent(), st.Durable());
      assert t.OpenContent()[..|t.OpenContent()|] == t.OpenContent();
    }
  }

  lemma ReclaimStep(stream: Stream, st: StreamState, p: Pressure, now: nat)
    requires Good(st) && TakesOldest(stream, st, p.retentionSeconds, now)
    ensures var r := Reclaimed(stream, st, p, now);
            && StreamStep(st, r.0, None)
            && r.0.cursor.acked == st.cursor.acked && st.cursor.oldestSeq <= r.0.cursor.oldestSeq
            && GapsCover(st.cursor, r.0.cursor.oldestSeq, r.1)
            && Ascending(r.1, st.cursor.oldestSeq, r.0.cursor.oldestSeq)
            && DurableNext(r.0) == DurableNext(st)
  {
    ReclaimPicksPrefix(stream, st, p, now);
    var k := |Choice(Candidates(stream, st, now), p)|;
    DroppedStep(st, RemovedAll(st, FirstIds(st, k)).0, k);
  }

  /** Deleting the oldest segments, and saving the index if there were any. */
  lemma DroppedStep(st: StreamState, r: StreamState, k: nat)
    requires Good(st) && k < |st.segments| && Dropped(st, r, k)
    ensures var t := if k > 0 then SavedIndex(r) else r; StreamStep(st, t, None) && DurableNext(t) == DurableNext(st)
  {
    DroppedConsistent(st, r, k);
    DroppedHolds(st, r, k);
    if k > 0 {
      SavedStep(st, r);
    } else {
      NothingDropped(st, r);
    }
  }

  lemma SavedStep(st: StreamState, r: StreamState)
    requires Good(st) && Consistent(r) && HoldsOnly(r, st)
    requires r.Open() == st.Open() && r.OpenContent() == st.OpenContent() && r.handle == st.handle
    ensures StreamStep(st, SavedIndex(r), None) && DurableNext(SavedIndex(r)) == DurableNext(st)
  {
    SavedGood(r);
    var t := SavedIndex(r);
    assert t.Open() == st.Open() && t.OpenContent() == st.OpenContent() && t.handle == st.handle;
  }

  lemma NothingDropped(st: StreamState, t: StreamState)
    requires Good(st) && Dropped(st, t, 0) && Consistent(t)
    ensures Good(t)
  {
    assert t.segments == st.segments;
    assert t.cursor == st.cursor;
  }

  // ---- cover ----

  lemma CoverGrows(y: System, z: System, n: nat)
    requires y.received <= z.received && (y.gaps == z.gaps || y.gaps <= z.gaps) && CoveredBelow(y, n)
    ensures CoveredBelow(z, n)
  {
    forall s: nat | s < n
      ensures Covered(z, s)
    {
      assert Covered(y, s);
      if Marked(y.gaps, s) {
        var i :| 0 <= i < |y.gaps| && InGap(y.gaps[i], s);
        assert z.gaps[i] == y.gaps[i];
      }
    }
  }

  /** Cover survives when nothing is forgotten and the acks and the oldest seq stay. */
  lemma CoverKept(y: System, z: System)
    requires Consistent(y.st) && Consistent(z.st) && CoverOk(y)
    requires z.sent == y.sent && y.received <= z.received <= z.sent && z.gaps == y.gaps && z.acks == y.acks
    requires z.slot.None? || z.slot == y.slot
    requires z.st.cursor.oldestSeq == y.st.cursor.oldestSeq && z.st.cursor.acked == y.st.cursor.acked
    requires DurableNext(y.st) <= DurableNext(z.st)
    ensures CoverOk(z)
  {
    CoverGrows(y, z, y.st.cursor.oldestSeq);
    CoverGrows(y, z, FirstUnacked(y.st.cursor));
    forall b | b in z.sent
      ensures CoveredBelow(z, b.firstSeq)
    {
      CoverGrows(y, z, b.firstSeq);
    }
    forall a | a in z.acks
      ensures CoveredBelow(z, a + 1)
    {
      CoverGrows(y, z, a + 1);
    }
  }

  /** After a reclaim every seq below the new oldest one is acked, hence covered, or in a marker. */
  lemma CoverAfterReclaim(y: System, t: StreamState, gaps: seq<GapMarker>)
    requires Consistent(y.st) && Consistent(t) && CoverOk(y)
    requires t.cursor.acked == y.st.cursor.acked && DurableNext(t) == DurableNext(y.st)
    requires GapsCover(y.st.cursor, t.cursor.oldestSeq, gaps)
    ensures CoverOk(y.(st := t, gaps := y.gaps + gaps))
  {
    var z := y.(st := t, gaps := y.gaps + gaps);
    CoverGrows(y, z, y.st.cursor.oldestSeq);
    CoverGrows(y, z, FirstUnacked(y.st.cursor));
    forall s: nat | s < t.cursor.oldestSeq
      ensures Covered(z, s)
    {
      if s >= y.st.cursor.oldestSeq && !IsAcked(y.st.cursor, s) {
        assert Marked(gaps, s);
        var i :| 0 <= i < |gaps| && InGap(gaps[i], s);
        assert z.gaps[|y.gaps| + i] == gaps[i];
      }
    }
    forall b | b in z.sent
      ensures CoveredBelow(z, b.firstSeq)
    {
      CoverGrows(y, z, b.firstSeq);
    }
    forall a | a in z.acks
      ensures CoveredBelow(z, a + 1)
    {
      CoverGrows(y, z, a + 1);
    }
  }

  /** An ack of the last seq of a received batch covers everything up to it. */
  lemma AckedBatchCovers(y: System, b: Batch)
    requires b in y.received && CoveredBelow(y, b.firstSeq)
    ensures CoveredBelow(y, b.firstSeq + |b.records|)
  {
    forall s: nat | s < b.firstSeq + |b.records|
      ensures Covered(y, s)
    {
      assert s < b.firstSeq || Carries(b, s);
    }
  }

  // ---- sending ----

  /** The batch a read from the first unacked seq puts in the slot. */
  function BatchRead(st: StreamState, lim: Limits): Batch {
    Batch(Max(FirstUnacked(st.cursor), st.cursor.oldestSeq), ReadRecords(st, FirstUnacked(st.cursor), lim))
  }

  /** A batch just read is the raw one, held seq by seq, and durable. */
  lemma ReadStep(st: StreamState, lim: Limits)
    requires Good(st) && lim.maxRecords > 0 && lim.maxBytes > 0
    requires ReadFrom(st, FirstUnacked(st.cursor), lim).1.Some?
    ensures var r, b := ReadFrom(st, FirstUnacked(st.cursor), lim), BatchRead(st, lim);
            && r.1.value == RawBatch(b.firstSeq, |b.records|, Flatten(b.records))
            && HeldBatch(st, b) && |b.records| > 0
            && (r.0 == st || r.0 == st.(handle := Closed))
            && b.firstSeq + |b.records| <= DurableNext(r.0)
  {
    ReadIs(st, FirstUnacked(st.cursor), lim);
    ReadIsDurable(st, FirstUnacked(st.cursor), lim);
    ReadIsHeld(st, FirstUnacked(st.cursor), lim);
  }

  ghost predicate HeldBatch(st: StreamState, b: Batch) {
    HeldRun(st, b.firstSeq, b.records)
  }

  /** A seq names at most one payload. */
  ghost predicate Unambiguous(st: StreamState) {
    forall s: nat, p: bytes, q: bytes :: Holds(st, s, p) && Holds(st, s, q) ==> p == q
  }

  lemma ConsistentIsUnambiguous(st: StreamState)
    requires Consistent(st)
    ensures Unambiguous(st)
  {
    forall s: nat, p: bytes, q: bytes | Holds(st, s, p) && Holds(st, s, q)
      ensures p == q
    {
      HoldsUnique(st, s, p, q);
    }
  }

  /** A held batch agrees with whatever is held. */
  lemma HeldMatches(st: StreamState, b: Batch)
    requires Unambiguous(st) && HeldBatch(st, b)
    ensures forall s: nat, p: bytes :: Holds(st, s, p) && Carries(b, s) ==> p == b.records[s - b.firstSeq]
  {
    forall s: nat, p: bytes | Holds(st, s, p) && Carries(b, s)
      ensures p == b.records[s - b.firstSeq]
    {
      assert Holds(st, b.firstSeq + (s - b.firstSeq), b.records[s - b.firstSeq]);
    }
  }

  /** Closing the append handle only makes more of the file durable. */
  lemma ClosingKeeps(st: StreamState, t: StreamState)
    requires Good(st) && (t == st || t == st.(handle := Closed))
    ensures StreamStep(st, t, None) && t.cursor == st.cursor
  {
    if t != st {
      PrefixFrames(st.OpenContent(), st.Durable());
      assert t.OpenContent()[..t.Durable()] == t.OpenContent();
      assert forall i :: 0 <= i < |st.segments| ==> FramesOf(t, i) == FramesOf(st, i);
      ClosedConsistent(st);
      SameFramesHoldSame(st, t);
    } else {
      assert HoldsOnly(t, st);
    }
  }

  lemma ClosedConsistent(st: StreamState)
    requires Good(st)
    ensures Good(st.(handle := Closed))
  {
    var t := st.(handle := Closed);
    forall i | 0 <= i < |t.segments| - 1
      ensures ClosedOk(t.flash.files, t.segments[i])
    {
      assert ClosedOk(st.flash.files, st.segments[i]);
    }
  }

  lemma NamedIsHeld(st: StreamState, b: Batch, c: Batch, s: nat)
    requires Consistent(st) && Named(st, c) && HeldBatch(st, b) && Carries(b, s) && Carries(c, s)
    ensures b.records[s - b.firstSeq] == c.records[s - c.firstSeq]
  {
    assert Holds(st, b.firstSeq + (s - b.firstSeq), b.records[s - b.firstSeq]);
  }

  lemma SentAgrees(stream: Stream, y: System, b: Batch, c: Batch)
    requires NamesOk(stream, y) && c in y.sent && HeldBatch(y.st, b)
    ensures Agree(b, c) && Agree(c, b)
  {
    assert Named(y.st, c);
    forall s: nat | Carries(b, s) && Carries(c, s)
      ensures b.records[s - b.firstSeq] == c.records[s - c.firstSeq]
    {
      NamedIsHeld(y.st, b, c, s);
    }
  }

  lemma SendKeeps(stream: Stream, y: System, lim: Limits)
    requires Inv(stream, y) && Enabled(stream, y, Send(lim))
    ensures Inv(stream, Apply(stream, y, Send(lim)))
  {
    var r := ReadFrom(y.st, FirstUnacked(y.st.cursor), lim);
    if r.1.None? {
      ReadIsDurable(y.st, FirstUnacked(y.st.cursor), lim);
      ClosingKeeps(y.st, r.0);
      StreamEventKeeps(stream, y, r.0, None, y.slot);
    } else {
      ReadStep(y.st, lim);
      SentKeeps(stream, y, r.0, BatchRead(y.st, lim));
    }
  }

  lemma SentKeeps(stream: Stream, y: System, t: StreamState, b: Batch)
    requires Inv(stream, y) && (t == y.st || t == y.st.(handle := Closed))
    requires HeldBatch(y.st, b) && |b.records| > 0 && b.firstSeq + |b.records| <= DurableNext(t)
    requires b.firstSeq == Max(FirstUnacked(y.st.cursor), y.st.cursor.oldestSeq)
    ensures Inv(stream, y.(st := t, slot := Some(b), sent := y.sent + {b}))
  {
    ClosingKeeps(y.st, t);
    ConsistentIsUnambiguous(y.st);
    HeldMatches(y.st, b);
    assert Named(t, b);
    NamesKept(stream, y, t, None);
    SentNames(stream, y, t, b);
    CoverKept(y, y.(st := t, slot := None));
    SentCover(y, t, b);
  }

  lemma HeldIsStamped(stream: Stream, st: StreamState, b: Batch)
    requires stream != Data && Stamps(stream, st) && HeldBatch(st, b)
    ensures AllStamped(b.records, b.firstSeq)
  {
    forall k | 0 <= k < |b.records|
      ensures Stamped(b.records[k], b.firstSeq + k)
    {
      assert Holds(st, b.firstSeq + k, b.records[k]);
    }
  }

  lemma OneMoreAgrees(sent: set<Batch>, b: Batch)
    requires forall c, d :: c in sent && d in sent ==> Agree(c, d)
    requires forall c :: c in sent ==> Agree(b, c) && Agree(c, b)
    ensures forall c, d :: c in sent + {b} && d in sent + {b} ==> Agree(c, d)
  {
    assert Agree(b, b);
  }

  lemma SentNames(stream: Stream, y: System, t: StreamState, b: Batch)
    requires NamesOk(stream, y) && NamesOk(stream, y.(st := t)) && Named(t, b) && HeldBatch(y.st, b)
    ensures NamesOk(stream, y.(st := t, slot := Some(b), sent := y.sent + {b}))
  {
    forall c | c in y.sent
      ensures Agree(b, c) && Agree(c, b)
    {
      SentAgrees(stream, y, b, c);
    }
    OneMoreAgrees(y.sent, b);
    if stream != Data {
      HeldIsStamped(stream, y.st, b);
    }
  }

  lemma SentCover(y: System, t: StreamState, b: Batch)
    requires Consistent(y.st) && Consistent(t) && CoverOk(y) && CoverOk(y.(st := t, slot := None))
    requires b.firstSeq == Max(FirstUnacked(y.st.cursor), y.st.cursor.oldestSeq)
    ensures CoverOk(y.(st := t, slot := Some(b), sent := y.sent + {b}))
  {
    var w, z := y.(st := t, slot := None), y.(st := t, slot := Some(b), sent := y.sent + {b});
    assert forall s: nat :: Covered(w, s) <==> Covered(z, s);
    assert CoveredBelow(y, b.firstSeq);
    CoverGrows(y, z, b.firstSeq);
    forall c | c in z.sent
      ensures CoveredBelow(z, c.firstSeq)
    {
      if c in y.sent {
        CoverGrows(y, z, c.firstSeq);
      }
    }
  }

  // ---- every event keeps the invariant ----

  lemma StreamEventKeeps(stream: Stream, y: System, t: StreamState, p: Option<bytes>, slot: Option<Batch>)
    requires Inv(stream, y) && StreamStep(y.st, t, p) && (p.Some? ==> Appendable(stream, y.st, p.value))
    requires t.cursor.oldestSeq == y.st.cursor.oldestSeq && t.cursor.acked == y.st.cursor.acked
    requires slot.None? || slot == y.slot
    ensures Inv(stream, y.(st := t, slot := slot))
  {
    NamesKept(stream, y, t, p);
    CoverKept(y, y.(st := t, slot := slot));
  }

  lemma CommitKeeps(stream: Stream, y: System, b: Batch)
    requires Inv(stream, y) && b in y.received && |b.records| > 0
    ensures Inv(stream, y.(acks := y.acks + {Last(b)}))
  {
    var z := y.(acks := y.acks + {Last(b)});
    assert Named(y.st, b);
    AckedBatchCovers(y, b);
    CoverGrows(y, z, Last(b) + 1);
    CoverGrows(y, z, y.st.cursor.oldestSeq);
    CoverGrows(y, z, FirstUnacked(y.st.cursor));
    forall c | c in z.sent
      ensures CoveredBelow(z, c.firstSeq)
    {
      CoverGrows(y, z, c.firstSeq);
    }
    forall a | a in z.acks
      ensures a < DurableNext(z.st) && CoveredBelow(z, a + 1)
    {
      if a in y.acks {
        CoverGrows(y, z, a + 1);
      }
    }
  }

  lemma AckStep(st: StreamState, upTo: nat)
    requires Good(st) && upTo < DurableNext(st)
    ensures var t := Acked(st, upTo);
            && StreamStep(st, t, None) && DurableNext(t) == DurableNext(st) && t.cursor.oldestSeq == st.cursor.oldestSeq
            && FirstUnacked(t.cursor) == Max(FirstUnacked(st.cursor), upTo + 1)
  {
    AckKeeps(st, upTo);
    DurableBelowNext(st);
  }

  lemma ReceiveAckKeeps(stream: Stream, y: System, upTo: nat)
    requires Inv(stream, y) && upTo in y.acks
    ensures Inv(stream, Apply(stream, y, ReceiveAck(upTo)))
  {
    var z := Apply(stream, y, ReceiveAck(upTo));
    AckStep(y.st, upTo);
    NamesKept(stream, y, z.st, None);
    AckedCover(y, z, upTo);
  }

  lemma AckedCover(y: System, z: System, upTo: nat)
    requires Consistent(y.st) && Consistent(z.st) && CoverOk(y) && upTo in y.acks
    requires z.sent == y.sent && z.received == y.received && z.gaps == y.gaps && z.acks == y.acks
    requires z.slot.None? || z.slot == y.slot
    requires z.st.cursor.oldestSeq == y.st.cursor.oldestSeq && DurableNext(z.st) == DurableNext(y.st)
    requires FirstUnacked(z.st.cursor) == Max(FirstUnacked(y.st.cursor), upTo + 1)
    ensures CoverOk(z)
  {
    CoverGrows(y, z, upTo + 1);
    CoverGrows(y, z, FirstUnacked(y.st.cursor));
    CoverGrows(y, z, y.st.cursor.oldestSeq);
    forall c | c in z.sent
      ensures CoveredBelow(z, c.firstSeq)
    {
      CoverGrows(y, z, c.firstSeq);
    }
    forall a | a in z.acks
      ensures a < DurableNext(z.st) && CoveredBelow(z, a + 1)
    {
      CoverGrows(y, z, a + 1);
    }
  }

  lemma EventKeepsInv(stream: Stream, y: System, e: Event)
    requires Inv(stream, y) && Enabled(stream, y, e)
    ensures Inv(stream, Apply(stream, y, e))
  {
    match e
    case Append(payload, outcome, now) =>
      AppendStep(stream, y.st, payload, outcome, now);
      StreamEventKeeps(stream, y, Appended(y.st, payload, outcome, now), Some(payload), y.slot);
    case Reclaim(p, now) =>
      var r := Reclaimed(stream, y.st, p, now);
      ReclaimStep(stream, y.st, p, now);
      NamesKept(stream, y, r.0, None);
      CoverAfterReclaim(y, r.0, r.1);
    case Send(lim) => SendKeeps(stream, y, lim);
    case Resend =>
    case GiveUp => CoverKept(y, y.(slot := None));
    case Deliver(batch) => CoverKept(y, y.(received := y.received + {batch}));
    case Commit(batch) =>
      if |batch.records| > 0 {
        CommitKeeps(stream, y, batch);
      }
    case ReceiveAck(upTo) => ReceiveAckKeeps(stream, y, upTo);
    case PowerCut(inflight, cut, gone) =>
      RebootKeeps(y.st, inflight, cut, gone);
      StreamEventKeeps(stream, y, Booted(Crashed(y.st, inflight, cut, gone)), inflight, None);
  }
}
