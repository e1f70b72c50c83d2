/**
 * What happens when the ages do not fall along a Data table: a run with one reboot
 * after which a reclaim takes the newer segment and keeps the older one, and what is
 * then read (reclaimMount, readFrom of log/Journal.cpp and log/FrameAccumulator.cpp).
 */
module OutOfOrder {
  import opened Wrappers
  import opened Frames
  import opened FrameAccumulator
  import opened JournalCursor
  import opened JournalTypes
  import opened JournalSteps
  import opened SpaceReclaimer
  import opened JournalInvariant
  import opened JournalRecovery
  import opened JournalReclaim
  import opened Protocol
  import R = ProtocolRuns

  // ---- two ways to append ----

  /** A record that fills an empty open segment closes it. */
  lemma Fills(st: StreamState, payload: bytes, now: nat)
    requires Good(st) && st.openBytes == 0 && |st.segments| < MAX_SEGMENTS && |payload| == ROTATE_BYTES - 2
    ensures var t, n, id := Appended(st, payload, Written, now), |st.segments| - 1, st.Open().segmentId;
            && |t.segments| == n + 2 && t.segments[..n] == st.segments[..n]
            && t.segments[n] == SegmentRecord(id, st.Open().oldestSeq, st.cursor.nextSeq, ROTATE_BYTES, now)
            && t.segments[n + 1] == SegmentRecord(id + 1, st.cursor.nextSeq + 1, st.cursor.nextSeq + 1, 0, 0)
            && t.cursor == st.cursor.(nextSeq := st.cursor.nextSeq + 1) && t.openBytes == 0 && t.handle == Closed
            && t.flash.files == st.flash.files[id := Frame(payload)]
  {
    var w := Counted(FrameWritten(st, payload, Written).0, payload);
    WrittenShape(st, payload);
    RotatedShape(w, now);
    assert st.OpenContent() == [];
    NoneAround(Frame(payload));
  }

  /** A small record stays in the open segment. */
  lemma Writes(st: StreamState, payload: bytes, now: nat)
    requires Good(st) && st.openBytes + |payload| + 2 < ROTATE_BYTES
    ensures var t, n, size := Appended(st, payload, Written, now), |st.segments| - 1, st.openBytes + |payload| + 2;
            && |t.segments| == n + 1 && t.segments[..n] == st.segments[..n]
            && t.Open() == st.Open().(newestSeq := st.cursor.nextSeq, sizeBytes := size)
            && t.cursor == st.cursor.(nextSeq := st.cursor.nextSeq + 1) && t.openBytes == size
            && t.flash.files == st.flash.files[st.Open().segmentId := st.OpenContent() + Frame(payload)]
  {
    WrittenShape(st, payload);
  }

  // ---- the run ----

  /** Two records that fill a segment each, and two small ones. */
  datatype Records = Records(a: bytes, b: bytes, c: bytes, d: bytes)
  {
    predicate Sized() { |a| == |b| == ROTATE_BYTES - 2 && |c| == |d| == 1 }

    /** What the open file holds in the end. */
    function Tail(): bytes { Frame(c) + Frame(d) }
  }

  /** The first segment is closed after 200000 seconds; then the device reboots. */
  const LONG_AFTER_BOOT: nat := 200_000
  const SOON_AFTER_BOOT: nat := 10
  const NOW: nat := 180_000
  const LIM := Limits(1_000_000, 100)

  /** A tenth of the partition is free: below the low water mark, above the critical one. */
  const TIGHT := Pressure(1_000_000, 100_000, 172_800, 20.0, 5.0)

  /** One step of the run, with its invariant. */
  lemma Goes(run: seq<System>, events: seq<Event>, e: Event) returns (next: seq<System>)
    requires R.Run(Data, run, events) && Enabled(Data, run[|events|], e)
    ensures R.Run(Data, next, events + [e]) && |next| == |events| + 2
    ensures |run[|events|].st.segments| > 0 && next[|events| + 1] == Apply(Data, run[|events|], e)
    ensures Inv(Data, next[|events| + 1])
  {
    R.RunInv(Data, run, events, |events|);
    R.OneMoreStep(Data, run, events, e);
    next := run + [Apply(Data, run[|events|], e)];
    R.RunInv(Data, next, events + [e], |events| + 1);
  }

  /** After the first segment and the reboot. */
  ghost predicate Rebooted(st: StreamState, x: Records) {
    && |st.segments| == 2 && st.cursor == Cursor(1, 0, None) && st.openBytes == 0
    && st.segments[0] == SegmentRecord(0, 0, 0, ROTATE_BYTES, LONG_AFTER_BOOT)
    && st.segments[1].segmentId == 1 && st.segments[1].oldestSeq == 1
    && st.flash.files == map[0 := Frame(x.a), 1 := []]
  }

  lemma Reboots(st: StreamState, x: Records)
    requires Good(st) && |st.segments| == 2 && st.cursor == Cursor(1, 0, None) && st.handle == Closed
    requires st.segments[0] == SegmentRecord(0, 0, 0, ROTATE_BYTES, LONG_AFTER_BOOT)
    requires st.segments[1] == SegmentRecord(1, 1, 1, 0, 0) && st.flash.files == map[0 := Frame(x.a)]
    ensures CanCrash(st, None, 0, {}) && Rebooted(Booted(Crashed(st, None, 0, {})), x)
  {
    assert st.OpenContent() == [];
    var fl := Crashed(st, None, 0, {});
    assert fl.files == map[0 := Frame(x.a), 1 := []];
    CrashedTracked(st, None, 0, {});
    BootedShape(st, fl);
    var t := Booted(fl);
    assert t.OpenContent() == [] && t.segments[1] == t.Open();
    assert t.flash.files == fl.files;
  }

  lemma FillsFirst(st: StreamState, x: Records)
    requires x.Sized() && st == R.Start0().st && Good(st)
    ensures var t := Appended(st, x.a, Written, LONG_AFTER_BOOT);
            && |t.segments| == 2 && t.cursor == Cursor(1, 0, None) && t.handle == Closed
            && t.segments[0] == SegmentRecord(0, 0, 0, ROTATE_BYTES, LONG_AFTER_BOOT)
            && t.segments[1] == SegmentRecord(1, 1, 1, 0, 0) && t.flash.files == map[0 := Frame(x.a)]
  {
    Fills(st, x.a, LONG_AFTER_BOOT);
  }

  lemma FirstHalf(x: Records) returns (run: seq<System>, events: seq<Event>)
    requires x.Sized()
    ensures R.Run(Data, run, events) && Inv(Data, run[|events|]) && Rebooted(run[|events|].st, x)
  {
    run, events := [R.Start0()], [];
    R.StartInv(Data);
    FillsFirst(R.Start0().st, x);
    run, events := Appends(run, events, x.a, LONG_AFTER_BOOT);
    Reboots(run[|events|].st, x);
    run := Goes(run, events, PowerCut(None, 0, {}));
    events := events + [PowerCut(None, 0, {})];
  }

  /** After the second segment, `k` small records in the open one. */
  ghost predicate Filled(st: StreamState, x: Records, k: nat, content: bytes) {
    && |st.segments| == 3 && st.cursor == Cursor(2 + k, 0, None) && st.openBytes == |content|
    && st.segments[0] == SegmentRecord(0, 0, 0, ROTATE_BYTES, LONG_AFTER_BOOT)
    && st.segments[1] == SegmentRecord(1, 1, 1, ROTATE_BYTES, SOON_AFTER_BOOT)
    && st.segments[2].segmentId == 2 && st.segments[2].oldestSeq == 2
    && (k > 0 ==> st.segments[2].newestSeq == 1 + k && st.segments[2].sizeBytes == |content|)
    && st.flash.files - {2} == map[0 := Frame(x.a), 1 := Frame(x.b)] && st.OpenContent() == content
    && (k > 0 ==> 2 in st.flash.files)
  }

  lemma FillsSecond(st: StreamState, x: Records)
    requires x.Sized() && Good(st) && Rebooted(st, x)
    ensures Filled(Appended(st, x.b, Written, SOON_AFTER_BOOT), x, 0, [])
  {
    var t := Appended(st, x.b, Written, SOON_AFTER_BOOT);
    Fills(st, x.b, SOON_AFTER_BOOT);
    assert t.segments[0] == t.segments[..1][0] == st.segments[..1][0];
    assert t.Open() == t.segments[2];
    assert t.flash.files == map[0 := Frame(x.a), 1 := Frame(x.b)];
  }

  lemma WritesOne(st: StreamState, x: Records, k: nat, content: bytes, payload: bytes)
    requires Good(st) && Filled(st, x, k, content) && |content| + |payload| + 2 < ROTATE_BYTES
    ensures Filled(Appended(st, payload, Written, NOW), x, k + 1, content + Frame(payload))
  {
    var t := Appended(st, payload, Written, NOW);
    Writes(st, payload, NOW);
    assert t.segments[0] == t.segments[..2][0] && t.segments[1] == t.segments[..2][1];
    assert st.segments[0] == st.segments[..2][0] && st.segments[1] == st.segments[..2][1];
    assert t.segments[2] == t.Open();
    assert t.flash.files - {2} == st.flash.files - {2};
  }

  /** The second segment, closed soon after the reboot, and two small records. */
  lemma SecondHalf(run: seq<System>, events: seq<Event>, x: Records) returns (run': seq<System>, events': seq<Event>)
    requires x.Sized() && R.Run(Data, run, events) && Inv(Data, run[|events|]) && Rebooted(run[|events|].st, x)
    ensures R.Run(Data, run', events') && |run'[|events'|].st.segments| > 0
    ensures Filled(run'[|events'|].st, x, 2, x.Tail())
  {
    FillsSecond(run[|events|].st, x);
    run', events' := Appends(run, events, x.b, SOON_AFTER_BOOT);
    WritesOne(run'[|events'|].st, x, 0, [], x.c);
    run', events' := Appends(run', events', x.c, NOW);
    NoneAround(Frame(x.c));
    WritesOne(run'[|events'|].st, x, 1, Frame(x.c), x.d);
    run', events' := Appends(run', events', x.d, NOW);
  }

  lemma Appends(run: seq<System>, events: seq<Event>, payload: bytes, now: nat)
    returns (run': seq<System>, events': seq<Event>)
    requires R.Run(Data, run, events) && |run[|events|].st.segments| < MAX_SEGMENTS && |payload| < ROTATE_BYTES - 1
    ensures R.Run(Data, run', events') && Inv(Data, run'[|events'|]) && |run[|events|].st.segments| > 0
    ensures run'[|events'|].st == Appended(run[|events|].st, payload, Written, now)
  {
    run' := Goes(run, events, Append(payload, Written, now));
    events' := events + [Append(payload, Written, now)];
  }

  // ---- what is read ----

  /** A segment that fits what is left of the limits is read whole. */
  lemma ReadsWhole(st: StreamState, i: nat, acc: Acc, wanted: nat, lim: Limits, ps: seq<bytes>)
    requires i < |st.segments| && st.segments[i].sizeBytes > 0 && st.segments[i].newestSeq >= wanted
    requires st.segments[i].segmentId in st.flash.files && FramesOf(st, i) == ps != []
    requires wanted <= st.segments[i].oldestSeq
    requires acc.count + |ps| < lim.maxRecords && |acc.frames| + |Flatten(ps)| < lim.maxBytes
    ensures var first := st.segments[i].oldestSeq;
            var a := Acc(first + |ps|, true, if acc.started then acc.firstSeq else first,
                         acc.frames + Flatten(ps), acc.count + |ps|);
            ReadLoop(st, i, acc, wanted, lim).0 == ReadLoop(st, i + 1, a, a.seqNo, lim).0
  {
    var b := acc.(seqNo := st.segments[i].oldestSeq);
    var w := Walk(ps, b, wanted, lim);
    WalkTakes(ps, b, wanted, lim);
    Halves(ps, w.taken);
    FlattenConcat(ps[..w.taken], ps[w.taken..]);
    TakeAll(ps);
  }

  /** The three segments as read: two records fill one each, two small ones follow. */
  ghost predicate Files(st: StreamState, x: Records) {
    && |st.segments| == 3 && x.Sized()
    && st.segments[0].oldestSeq == st.segments[0].newestSeq == 0 && st.segments[0].sizeBytes == ROTATE_BYTES
    && st.segments[1].oldestSeq == st.segments[1].newestSeq == 1 && st.segments[1].sizeBytes == ROTATE_BYTES
    && st.segments[2].oldestSeq == 2 && st.segments[2].newestSeq == 3 && st.segments[2].sizeBytes == 6
    && (forall i :: 0 <= i < 3 ==> st.segments[i].segmentId == i && i in st.flash.files)
    && FramesOf(st, 0) == [x.a] && FramesOf(st, 1) == [x.b] && FramesOf(st, 2) == [x.c, x.d]
  }

  lemma Decode(a: bytes, b: bytes)
    requires |a| <= MAX_PAYLOAD && |b| <= MAX_PAYLOAD
    ensures Payloads(Frame(a)) == [a] && Payloads(Frame(a) + Frame(b)) == [a, b]
  {
    FrameRoundTripIff(a);
    FrameRoundTripIff(b);
    FrameThen(a, Frame(b));
    assert [a] + [b] == [a, b];
  }

  predicate Stored(files: map<nat, bytes>, f0: bytes, f1: bytes, f2: bytes) {
    {0, 1, 2} <= files.Keys && files[0] == f0 && files[1] == f1 && files[2] == f2
  }

  lemma FilesAre(st: StreamState, f0: bytes, f1: bytes, f2: bytes, x: Records)
    requires Payloads(f0) == [x.a] && Payloads(f1) == [x.b] && Payloads(f2) == [x.c, x.d]
    requires Stored(st.flash.files, f0, f1, f2)
    requires |st.segments| == 3 && x.Sized() && st.segments[2].segmentId == 2
    requires st.segments[0] == SegmentRecord(0, 0, 0, ROTATE_BYTES, LONG_AFTER_BOOT)
    requires st.segments[1] == SegmentRecord(1, 1, 1, ROTATE_BYTES, SOON_AFTER_BOOT)
    requires st.segments[2].oldestSeq == 2 && st.segments[2].newestSeq == 3 && st.segments[2].sizeBytes == 6
    ensures Files(st, x)
  {
  }

  lemma FilesOf(st: StreamState, f0: bytes, f1: bytes, f2: bytes)
    requires |st.segments| == 3 && st.segments[2].segmentId == 2 && 2 in st.flash.files && st.OpenContent() == f2
    requires st.flash.files - {2} == map[0 := f0, 1 := f1]
    ensures Stored(st.flash.files, f0, f1, f2)
  {
    var others := st.flash.files - {2};
    assert 0 in others && 1 in others && st.flash.files[0] == others[0] && st.flash.files[1] == others[1];
  }

  lemma FilesDecode(st: StreamState, x: Records)
    requires x.Sized() && Filled(st, x, 2, x.Tail())
    ensures Files(st, x)
  {
    var f0, f1, f2 := Frame(x.a), Frame(x.b), x.Tail();
    FilesOf(st, f0, f1, f2);
    Decode(x.a, x.b);
    Decode(x.b, x.a);
    Decode(x.c, x.d);
    FilesAre(st, f0, f1, f2, x);
  }

  lemma FlattenOne(a: bytes)
    ensures Flatten([a]) == a
  {
    assert [a][1..] == [];
    NoneAround(a);
  }

  lemma FlattenTwo(a: bytes, b: bytes)
    ensures Flatten([a, b]) == a + b
  {
    assert [a, b][1..] == [b];
    FlattenOne(b);
  }

  /** Before the reclaim all four records are read. */
  lemma ReadsFour(st: StreamState, x: Records)
    requires Files(st, x)
    ensures ReadFrom(st, 0, LIM).1 == Some(RawBatch(0, 4, x.a + x.b + (x.c + x.d)))
  {
    FlattenOne(x.a);
    FlattenOne(x.b);
    FlattenTwo(x.c, x.d);
    NoneAround(x.a);
    ReadsWhole(st, 0, EMPTY, 0, LIM, [x.a]);
    ReadsWhole(st, 1, Acc(1, true, 0, x.a, 1), 1, LIM, [x.b]);
    ReadsWhole(st, 2, Acc(2, true, 0, x.a + x.b, 2), 2, LIM, [x.c, x.d]);
  }

  /** The newer of the two closed segments has left; the older one is still in front of the open one. */
  ghost predicate Torn(st: StreamState, t: StreamState) {
    && |st.segments| == 3 && t.segments == [st.segments[0], st.segments[2]]
    && t.flash.files == st.flash.files - {1}
  }

  /** After it the loop goes straight from the older segment to the open one, and numbers on. */
  lemma ReadsThree(st: StreamState, t: StreamState, x: Records)
    requires Files(st, x) && Torn(st, t)
    ensures ReadFrom(t, 0, LIM).1 == Some(RawBatch(0, 3, x.a + (x.c + x.d)))
    ensures Holds(t, 0, x.a) && Holds(t, 2, x.c) && Holds(t, 3, x.d)
  {
    FlattenOne(x.a);
    FlattenTwo(x.c, x.d);
    NoneAround(x.a);
    assert FramesOf(t, 0) == [x.a] && FramesOf(t, 1) == [x.c, x.d];
    ReadsWhole(t, 0, EMPTY, 0, LIM, [x.a]);
    ReadsWhole(t, 1, Acc(1, true, 0, x.a, 1), 1, LIM, [x.c, x.d]);
    assert HoldsIn(t, 0, 0, x.a) && HoldsIn(t, 1, 2, x.c) && HoldsIn(t, 1, 3, x.d);
  }

  // ---- the reclaim ----

  lemma Ages(st: StreamState, x: Records)
    requires Filled(st, x, 2, x.Tail())
    ensures Candidates(Data, st, NOW)
         == [SegmentInfo(Data, 0, ROTATE_BYTES, false, 0), SegmentInfo(Data, 1, ROTATE_BYTES, false, 179_990)]
  {
  }

  lemma TakesNewer(st: StreamState, x: Records)
    requires Filled(st, x, 2, x.Tail())
    ensures !TakesOldest(Data, st, TIGHT.retentionSeconds, NOW)
    ensures var r := Reclaimed(Data, st, TIGHT, NOW); Torn(st, r.0) && r.1 == [GapMarker(0, 2, 2)]
  {
    var gs := Candidates(Data, st, NOW);
    Ages(st, x);
    TenPercentFree(TIGHT);
    SecondTierAlone(gs[0], gs[1], TIGHT);
    assert Ids(Choice(gs, TIGHT)) == [1] && [1][1..] == [];
    RemovesMiddle(st, x);
    assert !AgesFall(gs, TIGHT.retentionSeconds);
  }

  lemma RemovesMiddle(st: StreamState, x: Records)
    requires Filled(st, x, 2, x.Tail())
    ensures var r := RemovedAll(st, [1]); Torn(st, r.0) && r.1 == [GapMarker(0, 2, 2)]
  {
    assert IndexOf(st.segments, 1) == 1 by {
      assert st.segments[1..][0].segmentId == 1;
    }
    assert [1][1..] == [];
    assert st.segments[..1] + st.segments[2..] == [st.segments[0], st.segments[2]];
  }

  /**
   * For any four records of these sizes there is a run from empty flash, with one
   * reboot, after which a Data reclaim with the compiled-in limits takes segment 1 and
   * keeps segment 0. A batch read before it has the second full record as seq 1; one
   * read after it has the record of seq 2 there, and that of seq 3 as seq 2. And the
   * marker gives up seq 0, which is still held.
   */
  lemma NewerDataCanGoFirst(x: Records) returns (run: seq<System>, events: seq<Event>)
    requires x.Sized()
    ensures R.Run(Data, run, events) && |run[|events|].st.segments| > 0
    ensures var st := run[|events|].st;
            var (t, gaps) := Reclaimed(Data, st, TIGHT, NOW);
            && !TakesOldest(Data, st, TIGHT.retentionSeconds, NOW)
            && ReadFrom(st, 0, LIM).1 == Some(RawBatch(0, 4, x.a + x.b + (x.c + x.d)))
            && ReadFrom(t, 0, LIM).1 == Some(RawBatch(0, 3, x.a + (x.c + x.d)))
            && Holds(t, 0, x.a) && Holds(t, 2, x.c) && Holds(t, 3, x.d) && gaps == [GapMarker(0, 2, 2)]
  {
    run, events := FirstHalf(x);
    run, events := SecondHalf(run, events, x);
    var st := run[|events|].st;
    FilesDecode(st, x);
    TakesNewer(st, x);
    ReadsFour(st, x);
    ReadsThree(st, Reclaimed(Data, st, TIGHT, NOW).0, x);
  }
}
