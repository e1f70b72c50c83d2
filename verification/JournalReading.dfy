/**
 * What readFrom returns (log/Journal.cpp): the segment loop, the skip of consumed
 * frames and the two limits together amount to one contiguous slice of the log.
 */
module JournalReading {
  import opened Wrappers
  import opened Frames
  import opened FrameAccumulator
  import opened JournalTypes
  import opened JournalSteps
  import opened JournalInvariant
  import opened JournalRecovery

  /** The payloads from segment `i` on, up to the first missing file. */
  function Available(st: StreamState, i: nat): seq<bytes>
    requires i <= |st.segments|
    decreases |st.segments| - i
  {
    if i == |st.segments| then []
    else if st.segments[i].sizeBytes == 0 then Available(st, i + 1)
    else if st.segments[i].segmentId !in st.flash.files then []
    else FramesOf(st, i) + Available(st, i + 1)
  }

  /** The first segment with something at or after `from`. */
  function Start(st: StreamState, i: nat, from: nat): (s: nat)
    requires i <= |st.segments|
    ensures i <= s <= |st.segments|
    ensures s < |st.segments| ==> st.segments[s].sizeBytes > 0 && st.segments[s].newestSeq >= from
    ensures forall j :: i <= j < s ==> st.segments[j].sizeBytes == 0 || st.segments[j].newestSeq < from
    decreases |st.segments| - i
  {
    if i == |st.segments| || (st.segments[i].sizeBytes > 0 && st.segments[i].newestSeq >= from) then i
    else Start(st, i + 1, from)
  }

  lemma {:induction false} SkipsToStart(st: StreamState, i: nat, acc: Acc, from: nat, lim: Limits)
    requires i <= |st.segments|
    ensures ReadLoop(st, i, acc, from, lim) == ReadLoop(st, Start(st, i, from), acc, from, lim)
    decreases |st.segments| - i
  {
    if i == |st.segments| || (st.segments[i].sizeBytes > 0 && st.segments[i].newestSeq >= from) {
    } else {
      SkipsToStart(st, i + 1, acc, from, lim);
    }
  }

  predicate SameBatch(a: Acc, b: Acc) {
    a.started == b.started && a.firstSeq == b.firstSeq && a.frames == b.frames && a.count == b.count
  }

  /** The accumulated batch is contiguous and ends just before `seqNo`. */
  predicate Contiguous(a: Acc) { if a.started then a.firstSeq + a.count == a.seqNo else a.count == 0 && a.frames == [] }

  lemma {:induction false} WalkContiguous(ps: seq<bytes>, a: Acc, wanted: nat, lim: Limits)
    requires Contiguous(a) && (a.started ==> wanted <= a.seqNo)
    ensures Contiguous(Walk(ps, a, wanted, lim).acc)
    ensures Walk(ps, a, wanted, lim).acc.seqNo == a.seqNo + Walk(ps, a, wanted, lim).taken
  {
    if |ps| == 0 {
    } else {
      if a.seqNo < wanted {
        WalkContiguous(ps[1..], Skip(a), wanted, lim);
      } else if !AtLimit(a, lim) {
        WalkContiguous(ps[1..], Keep(a, ps[0]), wanted, lim);
      }
    }
  }

  /** A walk that starts at a limit, at or past `wanted`, adds nothing. */
  lemma WalkAtLimit(ps: seq<bytes>, a: Acc, wanted: nat, lim: Limits)
    requires AtLimit(a, lim) && wanted <= a.seqNo
    ensures Walk(ps, a, wanted, lim).acc == a
  {
  }

  /** Where the walk is when the loop reaches segment `i`. */
  function AtSegment(st: StreamState, i: nat, acc: Acc): Acc {
    if i < |st.segments| then acc.(seqNo := st.segments[i].oldestSeq) else acc
  }

  /** The loop over segments is one walk over everything available. */
  lemma {:induction false} ReadIsWalk(st: StreamState, i: nat, acc: Acc, wanted: nat, lim: Limits)
    requires Consistent(st) && i <= |st.segments|
    requires i < |st.segments| ==> st.segments[i].sizeBytes == 0 || st.segments[i].newestSeq >= wanted
    ensures SameBatch(ReadLoop(st, i, acc, wanted, lim).0,
                      Walk(Available(st, i), AtSegment(st, i, acc), wanted, lim).acc)
    decreases |st.segments| - i
  {
    if i == |st.segments| {
    } else {
      var g := st.segments[i];
      if g.sizeBytes == 0 {
        OnlyOpenIsEmpty(st, i);
        assert ReadLoop(st, i, acc, wanted, lim) == ReadLoop(st, i + 1, acc, wanted, lim) == (acc, false);
      } else if g.segmentId in st.flash.files {
        var frames, a := FramesOf(st, i), AtSegment(st, i, acc);
        var w := Walk(frames, a, wanted, lim);
        WalkConcat(frames, Available(st, i + 1), a, wanted, lim);
        SegmentFrames(st, i);
        if !w.limit {
          WalkSeq(frames, a, wanted, lim);
          assert w.acc.seqNo == g.oldestSeq + |frames| && wanted <= w.acc.seqNo;
          if AtLimit(w.acc, lim) {
            WalkAtLimit(Available(st, i + 1), w.acc, wanted, lim);
          } else {
            assert AtSegment(st, i + 1, w.acc) == w.acc;
            ReadIsWalk(st, i + 1, w.acc, w.acc.seqNo, lim);
            WalkPastWanted(Available(st, i + 1), w.acc, wanted, w.acc.seqNo, lim);
          }
        }
      }
    }
  }

  lemma OnlyOpenIsEmpty(st: StreamState, i: nat)
    requires Consistent(st) && i < |st.segments| && st.segments[i].sizeBytes == 0
    ensures i == |st.segments| - 1 && FramesOf(st, i) == []
  {
  }

  /** A present segment's frames run from its oldest to its newest seq, up to the next segment. */
  lemma SegmentFrames(st: StreamState, i: nat)
    requires Consistent(st) && i < |st.segments| && st.segments[i].sizeBytes > 0
             && st.segments[i].segmentId in st.flash.files
    ensures st.segments[i].oldestSeq + |FramesOf(st, i)| == st.segments[i].newestSeq + 1
    ensures |FramesOf(st, i)| > 0
    ensures i + 1 < |st.segments| ==> st.segments[i + 1].oldestSeq == st.segments[i].newestSeq + 1
    ensures i + 1 < |st.segments| ==>
              st.segments[i + 1].sizeBytes == 0 || st.segments[i + 1].newestSeq >= st.segments[i].newestSeq + 1
    ensures i + 1 == |st.segments| ==> st.segments[i].newestSeq + 1 == st.cursor.nextSeq
  {
    if i + 1 < |st.segments| {
      assert ClosedOk(st.flash.files, st.segments[i]);
      assert st.segments[i + 1].oldestSeq == st.segments[i].newestSeq + 1;
      if i + 1 < |st.segments| - 1 {
        assert ClosedOk(st.flash.files, st.segments[i + 1]);
      }
    } else {
      NonEmpty(st.OpenContent());
    }
  }

  lemma {:induction false} WalkSeq(ps: seq<bytes>, a: Acc, wanted: nat, lim: Limits)
    ensures Walk(ps, a, wanted, lim).acc.seqNo == a.seqNo + Walk(ps, a, wanted, lim).taken
  {
    if |ps| == 0 {
    } else {
      if a.seqNo < wanted {
        WalkSeq(ps[1..], Skip(a), wanted, lim);
      } else if !AtLimit(a, lim) {
        WalkSeq(ps[1..], Keep(a, ps[0]), wanted, lim);
      }
    }
  }

  // ---- what is available is what the flash holds ----

  /** What is available from a segment is its frames and what is available behind it, in a row. */
  ghost predicate Unfolds(st: StreamState, i: nat)
    requires i < |st.segments|
  {
    Available(st, i) != [] ==>
      && Available(st, i) == FramesOf(st, i) + Available(st, i + 1)
      && (i + 1 < |st.segments| ==> st.segments[i + 1].oldestSeq == st.segments[i].oldestSeq + |FramesOf(st, i)|)
  }

  lemma AvailableUnfolds(st: StreamState, i: nat)
    requires Consistent(st) && i < |st.segments|
    ensures Unfolds(st, i)
  {
    if st.segments[i].sizeBytes == 0 {
      OnlyOpenIsEmpty(st, i);
      assert Available(st, i) == Available(st, i + 1) == [];
    } else if Available(st, i) != [] {
      SegmentFrames(st, i);
    }
  }

  /** Payloads held for consecutive seqs. */
  ghost predicate HeldRun(st: StreamState, first: nat, records: seq<bytes>) {
    forall k :: 0 <= k < |records| ==> Holds(st, first + k, records[k])
  }

  lemma HeldRunsJoin(st: StreamState, first: nat, a: seq<bytes>, next: nat, b: seq<bytes>, whole: seq<bytes>)
    requires HeldRun(st, first, a) && (b != [] ==> next == first + |a| && HeldRun(st, next, b)) && whole == a + b
    ensures HeldRun(st, first, whole)
  {
    forall k | 0 <= k < |whole|
      ensures Holds(st, first + k, whole[k])
    {
      if k < |a| {
        assert whole[k] == a[k];
      } else {
        assert whole[k] == b[k - |a|] && first + k == next + (k - |a|);
      }
    }
  }

  lemma FramesHeld(st: StreamState, i: nat)
    requires i < |st.segments|
    ensures HeldRun(st, st.segments[i].oldestSeq, FramesOf(st, i))
  {
    forall k | 0 <= k < |FramesOf(st, i)|
      ensures Holds(st, st.segments[i].oldestSeq + k, FramesOf(st, i)[k])
    {
      assert HoldsIn(st, i, st.segments[i].oldestSeq + k, FramesOf(st, i)[k]);
    }
  }

  lemma {:induction false} AvailableHeld(st: StreamState, i: nat)
    requires Consistent(st) && i < |st.segments|
    ensures HeldRun(st, st.segments[i].oldestSeq, Available(st, i))
    decreases |st.segments| - i
  {
    AvailableUnfolds(st, i);
    if Available(st, i) == [] {
    } else {
      FramesHeld(st, i);
      var next := if i + 1 < |st.segments| then st.segments[i + 1].oldestSeq else 0;
      if i + 1 < |st.segments| {
        AvailableHeld(st, i + 1);
      }
      HeldRunsJoin(st, st.segments[i].oldestSeq, FramesOf(st, i), next, Available(st, i + 1), Available(st, i));
    }
  }

  /** A segment's records are held exactly when its file is there. */
  lemma SegmentHeldIff(st: StreamState, i: nat, s: nat)
    requires Consistent(st) && i < |st.segments| && st.segments[i].sizeBytes > 0 && Covers(st.segments[i], s)
    ensures IsHeld(st, s) <==> st.segments[i].segmentId in st.flash.files
  {
    if st.segments[i].segmentId in st.flash.files {
      SegmentFrames(st, i);
      FrameHeld(st, i, s);
    } else {
      MissingIsNotHeld(st, i, s);
    }
  }

  lemma FrameHeld(st: StreamState, i: nat, s: nat)
    requires i < |st.segments| && st.segments[i].oldestSeq <= s < st.segments[i].oldestSeq + |FramesOf(st, i)|
    ensures IsHeld(st, s)
  {
    assert HoldsIn(st, i, s, FramesOf(st, i)[s - st.segments[i].oldestSeq]);
    assert Holds(st, s, FramesOf(st, i)[s - st.segments[i].oldestSeq]);
  }

  /** Every seq from the oldest to below nextSeq is claimed by a segment with records. */
  lemma CoveringSegment(st: StreamState, s: nat) returns (i: nat)
    requires Consistent(st) && st.cursor.oldestSeq <= s < st.cursor.nextSeq
    ensures i < |st.segments| && Covers(st.segments[i], s) && st.segments[i].sizeBytes > 0
  {
    i := CoveringBelow(st, s, |st.segments| - 1);
  }

  lemma {:induction false} CoveringBelow(st: StreamState, s: nat, k: nat) returns (i: nat)
    requires Consistent(st) && st.cursor.oldestSeq <= s < st.cursor.nextSeq && k < |st.segments|
    requires k + 1 < |st.segments| ==> s < st.segments[k + 1].oldestSeq
    ensures i <= k && Covers(st.segments[i], s) && st.segments[i].sizeBytes > 0
  {
    if s < st.segments[k].oldestSeq {
      i := CoveringBelow(st, s, k - 1);
    } else {
      i := k;
      if k + 1 < |st.segments| {
        assert ClosedOk(st.flash.files, st.segments[k]);
        assert st.segments[k + 1].oldestSeq == st.segments[k].newestSeq + 1;
      } else {
        OpenCovers(st, s);
      }
    }
  }

  lemma OpenCovers(st: StreamState, s: nat)
    requires Consistent(st) && st.Open().oldestSeq <= s < st.cursor.nextSeq
    ensures Covers(st.Open(), s) && st.Open().sizeBytes > 0
  {
    assert Payloads([]) == [];
  }

  lemma MissingIsNotHeld(st: StreamState, i: nat, s: nat)
    requires Consistent(st) && i < |st.segments| && Covers(st.segments[i], s)
    requires st.segments[i].segmentId !in st.flash.files
    ensures !IsHeld(st, s)
  {
    assert FramesOf(st, i) == [];
    forall p: bytes
      ensures !Holds(st, s, p)
    {
      forall j | 0 <= j < |st.segments|
        ensures !HoldsIn(st, j, s, p)
      {
        if j < i {
          StartsRise(st, j, i);
        } else if i < j {
          StartsRise(st, i, j);
        }
      }
    }
  }

  lemma NextIsNotHeld(st: StreamState)
    requires Consistent(st)
    ensures !IsHeld(st, st.cursor.nextSeq)
  {
    if p :| Holds(st, st.cursor.nextSeq, p) {
      HeldIsBelowNext(st, st.cursor.nextSeq, p);
    }
  }

  lemma NothingAvailable(st: StreamState, i: nat)
    requires Consistent(st) && i < |st.segments| && Available(st, i) == []
    ensures !IsHeld(st, st.segments[i].oldestSeq)
  {
    if st.segments[i].sizeBytes == 0 {
      OnlyOpenIsEmpty(st, i);
      NextIsNotHeld(st);
    } else if st.segments[i].segmentId !in st.flash.files {
      NewestNotBelow(st, i);
      MissingIsNotHeld(st, i, st.segments[i].oldestSeq);
    } else {
      SegmentFrames(st, i);
    }
  }

  /** The first seq behind what is available is not held. */
  lemma {:induction false} AvailableStops(st: StreamState, i: nat, stop: nat)
    requires Consistent(st) && i < |st.segments| && stop == st.segments[i].oldestSeq + |Available(st, i)|
    ensures !IsHeld(st, stop)
    decreases |st.segments| - i
  {
    AvailableUnfolds(st, i);
    if Available(st, i) == [] {
      NothingAvailable(st, i);
    } else if i + 1 < |st.segments| {
      AvailableStops(st, i + 1, stop);
    } else {
      SegmentRange(st, i);
      NextIsNotHeld(st);
    }
  }

  // ---- readFrom ----

  /** How far into the available payloads a read from `from` begins. */
  function Lead(st: StreamState, s: nat, from: nat): nat
    requires s < |st.segments|
  {
    if from > st.segments[s].oldestSeq then from - st.segments[s].oldestSeq else 0
  }

  /** The longest prefix of `rest`, numbered from `first`, that the limits allow. */
  function Slice(rest: seq<bytes>, first: nat, lim: Limits): seq<bytes> {
    rest[..Walk(rest, EMPTY.(seqNo := first), 0, lim).taken]
  }

  /** The payloads of the batch a read returns. */
  function ReadRecords(st: StreamState, from: nat, lim: Limits): seq<bytes> {
    var s := Start(st, 0, from);
    if s == |st.segments| || Lead(st, s, from) > |Available(st, s)| then []
    else Slice(Available(st, s)[Lead(st, s, from)..], st.segments[s].oldestSeq + Lead(st, s, from), lim)
  }

  /** `recs` is the longest prefix of `rest` the limits allow. */
  ghost predicate SliceOk(rest: seq<bytes>, recs: seq<bytes>, lim: Limits) {
    && 0 < |recs| <= |rest| && recs == rest[..|recs|] && |recs| <= lim.maxRecords
    && |Flatten(recs[..|recs| - 1])| < lim.maxBytes
    && (|recs| < |rest| ==> |recs| == lim.maxRecords || |Flatten(recs)| >= lim.maxBytes)
  }

  lemma SliceIs(rest: seq<bytes>, first: nat, lim: Limits)
    requires |rest| > 0 && lim.maxRecords > 0 && lim.maxBytes > 0
    ensures SliceOk(rest, Slice(rest, first, lim), lim)
    ensures var recs, w := Slice(rest, first, lim), Walk(rest, EMPTY.(seqNo := first), 0, lim).acc;
            w.started && RawBatch(w.firstSeq, w.count, w.frames) == RawBatch(first, |recs|, Flatten(recs))
  {
    var b := EMPTY.(seqNo := first);
    WalkTakes(rest, b, 0, lim);
    assert !AtLimit(b, lim);
    var recs := Slice(rest, first, lim);
    assert RoomAfter(rest, |recs| - 1, b, lim);
    assert recs[..|recs| - 1] == rest[..|recs| - 1];
  }

  /** A walk that first skips `k` frames is the walk over the rest. */
  lemma WalkFromLead(av: seq<bytes>, first: nat, k: nat, from: nat, lim: Limits)
    requires k <= |av| && (if k > 0 then first + k == from else from <= first)
    ensures SameBatch(Walk(av, EMPTY.(seqNo := first), from, lim).acc,
                      Walk(av[k..], EMPTY.(seqNo := first + k), 0, lim).acc)
  {
    var a, b := EMPTY.(seqNo := first), EMPTY.(seqNo := first + k);
    assert av == av[..k] + av[k..];
    WalkConcat(av[..k], av[k..], a, from, lim);
    if k > 0 {
      WalkSkips(av[..k], a, from, lim);
    }
    WalkPastWanted(av[k..], b, from, 0, lim);
  }

  /** A walk over some payloads ends with the slice that starts at the lead. */
  lemma WalkIsSlice(av: seq<bytes>, first: nat, k: nat, from: nat, lim: Limits)
    requires k < |av| && (if k > 0 then first + k == from else from <= first) && lim.maxRecords > 0 && lim.maxBytes > 0
    ensures var recs := Slice(av[k..], first + k, lim);
            |recs| > 0 && SameBatch(Walk(av, EMPTY.(seqNo := first), from, lim).acc,
              Acc(0, true, first + k, Flatten(recs), |recs|))
  {
    WalkFromLead(av, first, k, from, lim);
    SliceIs(av[k..], first + k, lim);
  }

  /** The loop, from where it finds the first wanted segment, is one walk over what is available there. */
  lemma LoopIsWalk(st: StreamState, s: nat, from: nat, lim: Limits)
    requires Consistent(st) && s == Start(st, 0, from) < |st.segments|
    ensures SameBatch(ReadLoop(st, 0, EMPTY, from, lim).0,
                      Walk(Available(st, s), EMPTY.(seqNo := st.segments[s].oldestSeq), from, lim).acc)
  {
    SkipsToStart(st, 0, EMPTY, from, lim);
    ReadIsWalk(st, s, EMPTY, from, lim);
  }

  /** The loop ends with the slice that starts at the lead. */
  lemma LoopIs(st: StreamState, from: nat, lim: Limits)
    requires Consistent(st) && lim.maxRecords > 0 && lim.maxBytes > 0
    requires Start(st, 0, from) < |st.segments| && st.segments[Start(st, 0, from)].segmentId in st.flash.files
    ensures var s, acc := Start(st, 0, from), ReadLoop(st, 0, EMPTY, from, lim).0;
            var k := Lead(st, s, from);
            && k < |Available(st, s)|
            && var recs := Slice(Available(st, s)[k..], st.segments[s].oldestSeq + k, lim);
               SameBatch(acc, Acc(0, true, st.segments[s].oldestSeq + k, Flatten(recs), |recs|)) && |recs| > 0
  {
    var s := Start(st, 0, from);
    LoopIsWalk(st, s, from, lim);
    LeadIsAvailable(st, s, from);
    WalkIsSlice(Available(st, s), st.segments[s].oldestSeq, Lead(st, s, from), from, lim);
  }

  lemma LoopFindsNothing(st: StreamState, from: nat, lim: Limits)
    requires var s := Start(st, 0, from); s == |st.segments| || st.segments[s].segmentId !in st.flash.files
    ensures !ReadLoop(st, 0, EMPTY, from, lim).0.started
    ensures ReadRecords(st, from, lim) == []
  {
    SkipsToStart(st, 0, EMPTY, from, lim);
  }

  /** The batch is those payloads, numbered from the first wanted seq that survives. */
  lemma ReadIs(st: StreamState, from: nat, lim: Limits)
    requires Consistent(st) && lim.maxRecords > 0 && lim.maxBytes > 0
    ensures var batch, recs := ReadFrom(st, from, lim).1, ReadRecords(st, from, lim);
            && (batch.Some? <==> |recs| > 0)
            && (batch.Some? ==> batch.value == RawBatch(Max(from, st.cursor.oldestSeq), |recs|, Flatten(recs)))
  {
    var s := Start(st, 0, from);
    if s == |st.segments| || st.segments[s].segmentId !in st.flash.files {
      LoopFindsNothing(st, from, lim);
    } else {
      LoopIs(st, from, lim);
      RecordsAreSlice(st, from, lim);
      StartsAtOldest(st, s, from);
    }
  }

  lemma LeadIsAvailable(st: StreamState, s: nat, from: nat)
    requires Consistent(st) && s == Start(st, 0, from) < |st.segments| && st.segments[s].segmentId in st.flash.files
    ensures Lead(st, s, from) < |Available(st, s)|
  {
    SegmentFrames(st, s);
  }

  lemma StartsAtOldest(st: StreamState, s: nat, from: nat)
    requires Consistent(st) && s == Start(st, 0, from) < |st.segments|
    ensures Max(from, st.cursor.oldestSeq) == st.segments[s].oldestSeq + Lead(st, s, from)
  {
    if s > 0 {
      StartsRise(st, 0, s);
      assert ClosedOk(st.flash.files, st.segments[s - 1]);
      assert st.segments[s].oldestSeq == st.segments[s - 1].newestSeq + 1;
    }
  }

  lemma RecordsAreSlice(st: StreamState, from: nat, lim: Limits)
    requires var s := Start(st, 0, from); s < |st.segments| && Lead(st, s, from) <= |Available(st, s)|
    ensures var s := Start(st, 0, from);
            ReadRecords(st, from, lim)
            == Slice(Available(st, s)[Lead(st, s, from)..], st.segments[s].oldestSeq + Lead(st, s, from), lim)
  {
  }

  lemma RecordsAreWithin(st: StreamState, s: nat, from: nat, lim: Limits)
    requires ReadRecords(st, from, lim) != [] && s == Start(st, 0, from)
    ensures var recs := ReadRecords(st, from, lim);
            && s < |st.segments| && Lead(st, s, from) + |recs| <= |Available(st, s)|
            && recs == Available(st, s)[Lead(st, s, from)..][..|recs|]
  {
  }

  lemma SliceHeld(st: StreamState, first: nat, run: seq<bytes>, lead: nat, at: nat, recs: seq<bytes>)
    requires HeldRun(st, first, run) && at == first + lead && lead + |recs| <= |run| && recs == run[lead..][..|recs|]
    ensures HeldRun(st, at, recs)
  {
    forall k | 0 <= k < |recs|
      ensures Holds(st, at + k, recs[k])
    {
      assert recs[k] == run[lead + k] && at + k == first + (lead + k);
    }
  }

  /** Every payload of a batch is the one the flash holds for its seq. */
  lemma ReadIsHeld(st: StreamState, from: nat, lim: Limits)
    requires Consistent(st) && lim.maxRecords > 0 && lim.maxBytes > 0
    ensures HeldRun(st, Max(from, st.cursor.oldestSeq), ReadRecords(st, from, lim))
  {
    if ReadRecords(st, from, lim) != [] {
      var s := Start(st, 0, from);
      StartsAtOldest(st, s, from);
      AvailableHeld(st, s);
      RecordsAreWithin(st, s, from, lim);
      SliceHeld(st, st.segments[s].oldestSeq, Available(st, s), Lead(st, s, from),
                Max(from, st.cursor.oldestSeq), ReadRecords(st, from, lim));
    }
  }

  /** `run` is everything held from `first` on, up to the first hole. */
  ghost predicate HeldFrom(st: StreamState, first: nat, run: seq<bytes>) {
    HeldRun(st, first, run) && !IsHeld(st, first + |run|)
  }

  lemma HeldFromStarts(st: StreamState, first: nat, run: seq<bytes>)
    requires HeldFrom(st, first, run)
    ensures run != [] <==> IsHeld(st, first)
  {
    if run != [] {
      assert Holds(st, first + 0, run[0]);
    }
  }

  /** An empty batch that is at a limit stays empty. */
  lemma {:induction false} WalkStaysEmpty(ps: seq<bytes>, a: Acc, wanted: nat, lim: Limits)
    requires !a.started && a.count == 0 && a.frames == [] && AtLimit(a, lim)
    ensures var b := Walk(ps, a, wanted, lim).acc; !b.started && b.count == 0 && b.frames == []
  {
    if |ps| == 0 {
    } else if a.seqNo < wanted {
      WalkStaysEmpty(ps[1..], Skip(a), wanted, lim);
    }
  }

  lemma {:induction false} LoopStaysEmpty(st: StreamState, i: nat, wanted: nat, lim: Limits)
    requires i <= |st.segments| && (lim.maxRecords == 0 || lim.maxBytes == 0)
    ensures !ReadLoop(st, i, EMPTY, wanted, lim).0.started
    decreases |st.segments| - i
  {
    if i == |st.segments| {
    } else {
      var g := st.segments[i];
      WalkStaysEmpty(Payloads(Content(st.flash.files, g.segmentId)), EMPTY.(seqNo := g.oldestSeq), wanted, lim);
      LoopStaysEmpty(st, i + 1, wanted, lim);
    }
  }

  /** With a limit of zero nothing is read; with one of zero records nothing happens at all. */
  lemma NothingFits(st: StreamState, from: nat, lim: Limits)
    ensures lim.maxRecords == 0 ==> ReadFrom(st, from, lim) == (st, None)
    ensures lim.maxBytes == 0 ==> ReadFrom(st, from, lim).1 == None
  {
    if lim.maxBytes == 0 {
      LoopStaysEmpty(st, 0, from, lim);
    }
  }

  /**
   * readFrom in full, for positive limits and whatever files are missing: something
   * is returned exactly when the first surviving wanted seq is held; the batch then
   * starts there, and it is the longest prefix that the limits allow (the byte limit
   * is passed by at most the last record) of `run`, everything held from there on
   * without a hole.
   */
  lemma ReadFromSpec(st: StreamState, from: nat, lim: Limits) returns (run: seq<bytes>, recs: seq<bytes>)
    requires Consistent(st) && lim.maxRecords > 0 && lim.maxBytes > 0
    ensures var batch, first := ReadFrom(st, from, lim).1, Max(from, st.cursor.oldestSeq);
            && (batch.Some? <==> IsHeld(st, first))
            && HeldFrom(st, first, run)
            && (batch.Some? ==> SliceOk(run, recs, lim) && batch.value == RawBatch(first, |recs|, Flatten(recs)))
  {
    ReadIs(st, from, lim);
    run := RunFrom(st, from);
    recs := RunIsRead(st, from, run, lim);
    HeldFromStarts(st, Max(from, st.cursor.oldestSeq), run);
  }

  /** What the read sees from the first wanted seq on: nothing when the segment it is in has no file. */
  ghost predicate Seen(st: StreamState, from: nat, run: seq<bytes>) {
    var s := Start(st, 0, from);
    if s == |st.segments| || st.segments[s].segmentId !in st.flash.files then run == []
    else run != [] && Lead(st, s, from) <= |Available(st, s)| && run == Available(st, s)[Lead(st, s, from)..]
  }

  lemma RunFrom(st: StreamState, from: nat) returns (run: seq<bytes>)
    requires Consistent(st)
    ensures HeldFrom(st, Max(from, st.cursor.oldestSeq), run) && Seen(st, from, run)
  {
    var s := Start(st, 0, from);
    if s == |st.segments| {
      run := [];
      NothingAtOrAfter(st, from);
    } else {
      StartsAtOldest(st, s, from);
      if st.segments[s].segmentId in st.flash.files {
        run := PresentRun(st, s, from);
      } else {
        run := [];
        MissingIsNotHeld(st, s, Max(from, st.cursor.oldestSeq));
      }
    }
  }

  lemma PresentRun(st: StreamState, s: nat, from: nat) returns (run: seq<bytes>)
    requires Consistent(st) && s == Start(st, 0, from) < |st.segments| && st.segments[s].segmentId in st.flash.files
    ensures HeldFrom(st, Max(from, st.cursor.oldestSeq), run) && Seen(st, from, run)
  {
    var av, lead, first := Available(st, s), Lead(st, s, from), Max(from, st.cursor.oldestSeq);
    StartsAtOldest(st, s, from);
    LeadIsAvailable(st, s, from);
    run := av[lead..];
    AvailableHeld(st, s);
    AvailableStops(st, s, first + |run|);
    TakeAll(run);
    SliceHeld(st, st.segments[s].oldestSeq, av, lead, first, run);
  }

  lemma RunIsRead(st: StreamState, from: nat, run: seq<bytes>, lim: Limits) returns (recs: seq<bytes>)
    requires Seen(st, from, run) && lim.maxRecords > 0 && lim.maxBytes > 0
    ensures recs == ReadRecords(st, from, lim) && (recs != [] <==> run != []) && (run != [] ==> SliceOk(run, recs, lim))
  {
    recs := ReadRecords(st, from, lim);
    if run == [] {
      LoopFindsNothing(st, from, lim);
    } else {
      var s := Start(st, 0, from);
      RecordsAreSlice(st, from, lim);
      SliceIs(run, st.segments[s].oldestSeq + Lead(st, s, from), lim);
    }
  }

  lemma NewestNotBelow(st: StreamState, i: nat)
    requires Consistent(st) && i < |st.segments| && st.segments[i].sizeBytes > 0
    ensures st.segments[i].oldestSeq <= st.segments[i].newestSeq
  {
    if i < |st.segments| - 1 {
      assert ClosedOk(st.flash.files, st.segments[i]);
    } else {
      NonEmpty(st.OpenContent());
    }
  }

  lemma NothingAtOrAfter(st: StreamState, from: nat)
    requires Consistent(st) && Start(st, 0, from) == |st.segments|
    ensures Max(from, st.cursor.oldestSeq) >= st.cursor.nextSeq
  {
    var n := |st.segments| - 1;
    if st.segments[n].sizeBytes > 0 {
      NonEmpty(st.OpenContent());
    } else {
      OnlyOpenIsEmpty(st, n);
      if n > 0 {
        assert ClosedOk(st.flash.files, st.segments[n - 1]);
        assert st.segments[n].oldestSeq == st.segments[n - 1].newestSeq + 1;
      }
    }
  }

  // ---- a read makes what it returns durable ----

  /** The batch so far is contiguous and lies below the open segment. */
  predicate Below(a: Acc, bound: nat) { a.started ==> Contiguous(a) && a.seqNo <= bound }

  lemma {:induction false} UntouchedStaysClosed(st: StreamState, i: nat, acc: Acc, wanted: nat, lim: Limits)
    requires Consistent(st) && i <= |st.segments|
    requires Contiguous(acc) && (acc.started ==> wanted == acc.seqNo && acc.seqNo <= st.Open().oldestSeq)
    requires acc.started && i < |st.segments| ==> acc.seqNo == st.segments[i].oldestSeq
    ensures var r := ReadLoop(st, i, acc, wanted, lim); r.1 || Below(r.0, st.Open().oldestSeq)
    decreases |st.segments| - i
  {
    if i == |st.segments| {
    } else {
      var g := st.segments[i];
      if g.sizeBytes == 0 {
        OnlyOpenIsEmpty(st, i);
        assert ReadLoop(st, i, acc, wanted, lim) == ReadLoop(st, i + 1, acc, wanted, lim) == (acc, false);
      } else if g.newestSeq < wanted {
        NewestNotBelow(st, i);
        UntouchedStaysClosed(st, i + 1, acc, wanted, lim);
      } else if i + 1 < |st.segments| && g.segmentId in st.flash.files {
        var w := Walk(FramesOf(st, i), acc.(seqNo := g.oldestSeq), wanted, lim);
        SegmentFrames(st, i);
        WalkContiguous(FramesOf(st, i), acc.(seqNo := g.oldestSeq), wanted, lim);
        NextBelowOpen(st, i + 1);
        if !w.limit && !AtLimit(w.acc, lim) {
          UntouchedStaysClosed(st, i + 1, w.acc, w.acc.seqNo, lim);
        }
      }
    }
  }

  lemma NextBelowOpen(st: StreamState, i: nat)
    requires Consistent(st) && i < |st.segments|
    ensures st.segments[i].oldestSeq <= st.Open().oldestSeq
  {
    if i < |st.segments| - 1 {
      StartsRise(st, i, |st.segments| - 1);
    }
  }

  /** After a read, no power cut can take a record that was in the batch. */
  lemma ReadIsDurable(st: StreamState, from: nat, lim: Limits)
    requires Consistent(st) && lim.maxRecords > 0 && lim.maxBytes > 0
    ensures var (t, batch) := ReadFrom(st, from, lim);
            && (t == st || t == st.(handle := Closed))
            && (batch.Some? ==> batch.value.firstSeq + batch.value.count <= DurableNext(t) <= t.cursor.nextSeq)
  {
    var touched := ReadLoop(st, 0, EMPTY, from, lim).1;
    var t, batch := ReadFrom(st, from, lim).0, ReadFrom(st, from, lim).1;
    if batch.Some? {
      if touched {
        TakeAll(t.OpenContent());
        BatchIsBelowNext(st, from, lim);
      } else {
        UntouchedStaysClosed(st, 0, EMPTY, from, lim);
      }
      PrefixFrames(t.OpenContent(), t.Durable());
    }
  }

  lemma BatchIsBelowNext(st: StreamState, from: nat, lim: Limits)
    requires Consistent(st) && lim.maxRecords > 0 && lim.maxBytes > 0 && ReadFrom(st, from, lim).1.Some?
    ensures var batch := ReadFrom(st, from, lim).1.value; batch.firstSeq + batch.count <= st.cursor.nextSeq
  {
    ReadIs(st, from, lim);
    ReadIsHeld(st, from, lim);
    HeldRunEndsBelowNext(st, Max(from, st.cursor.oldestSeq), ReadRecords(st, from, lim));
  }

  lemma HeldRunEndsBelowNext(st: StreamState, first: nat, records: seq<bytes>)
    requires Consistent(st) && HeldRun(st, first, records) && records != []
    ensures first + |records| <= st.cursor.nextSeq
  {
    var last := |records| - 1;
    assert Holds(st, first + last, records[last]);
    HeldIsBelowNext(st, first + last, records[last]);
  }

  lemma HeldIsBelowNext(st: StreamState, s: nat, p: bytes)
    requires Consistent(st) && Holds(st, s, p)
    ensures s < st.cursor.nextSeq
  {
    var i := HoldsAt(st, s, p);
    HoldsRange(st, i, s, p);
  }
}
