/**
 * Power cuts and reboots (loadIndex, removeOrphanSegments, recoverOpenSegment of
 * log/Journal.cpp). A cut keeps, of the open file, some prefix that contains
 * everything written before the append handle was opened; an index file is
 * replaced atomically, so a reboot finds the last one renamed into place.
 */
module JournalRecovery {
  import opened Wrappers
  import opened Frames
  import opened JournalCursor
  import opened JournalTypes
  import opened JournalSteps
  import opened JournalInvariant

  /** The open file as it would be if every byte handed to it had landed. */
  function Target(st: StreamState, inflight: Option<bytes>): bytes
    requires |st.segments| > 0
  {
    st.OpenContent() + (if inflight.Some? then Frame(inflight.value) else [])
  }

  /**
   * A power cut, possibly in the middle of appending `inflight` (or of rolling
   * that append back, or of the rotation after it: the index is saved last), or
   * of a reclaim that had already deleted the files `gone`.
   */
  function Crashed(st: StreamState, inflight: Option<bytes>, cut: nat, gone: set<nat>): Flash
    requires |st.segments| > 0 && cut <= |Target(st, inflight)|
  {
    Flash(st.flash.files[st.Open().segmentId := Target(st, inflight)[..cut]] - gone, st.flash.index)
  }

  ghost predicate CanCrash(st: StreamState, inflight: Option<bytes>, cut: nat, gone: set<nat>) {
    && |st.segments| > 0
    && st.Durable() <= cut <= |Target(st, inflight)|
    && (inflight.Some? ==> |inflight.value| <= MAX_PAYLOAD)
    && st.Open().segmentId !in gone
  }

  /** One past the last seq whose frame no power cut can take. */
  function DurableNext(st: StreamState): nat
    requires |st.segments| > 0 && st.Durable() <= |st.OpenContent()|
  {
    st.Open().oldestSeq + |Payloads(st.OpenContent()[..st.Durable()])|
  }

  /** The frames a cut leaves in the open file: at least the durable ones, at most one new one. */
  lemma CutFrames(st: StreamState, inflight: Option<bytes>, cut: nat)
    requires |st.segments| > 0 && OpenOk(st) && CanCrash(st, inflight, cut, {})
    ensures var left := Payloads(Target(st, inflight)[..cut]);
            && Payloads(st.OpenContent()[..st.Durable()]) <= left
            && (inflight.None? ==> left <= Payloads(st.OpenContent()))
            && (inflight.Some? ==> left <= Payloads(st.OpenContent()) + [inflight.value])
  {
    var c, target := st.OpenContent(), Target(st, inflight);
    if inflight.Some? {
      AppendFrame(c, inflight.value);
    } else {
      assert target == c;
    }
    PrefixFrames(target, cut);
    PrefixFrames(target[..cut], st.Durable());
    assert target[..cut][..st.Durable()] == c[..st.Durable()];
  }

  // ---- loading ----

  /** What loading the index gives when it is the last one saved. */
  lemma LoadedTable(st: StreamState, fl: Flash)
    requires Good(st) && fl.index == st.flash.index
    ensures var t := Loaded(fl);
            && |t.segments| == |st.segments|
            && (forall i :: 0 <= i < |st.segments| - 1 ==> t.segments[i] == st.segments[i])
            && t.Open().segmentId == st.Open().segmentId && t.Open().oldestSeq == st.Open().oldestSeq
            && t.cursor.oldestSeq == st.cursor.oldestSeq && t.cursor.acked == st.cursor.acked
  {
    if fl.index.Some? {
      var stored := fl.index.value.segments;
      assert stored[..Min(|stored|, MAX_SEGMENTS)] == stored;
    }
  }

  /** Recovery of any table around any file contents, as long as the open file is framed from its start. */
  lemma RecoveredShape(st: StreamState)
    requires |st.segments| > 0 && st.handle == Closed
    ensures var t, c := Recovered(st), st.OpenContent();
            && |t.segments| == |st.segments|
            && (forall i :: 0 <= i < |st.segments| - 1 ==> t.segments[i] == st.segments[i])
            && t.Open().segmentId == st.Open().segmentId && t.Open().oldestSeq == st.Open().oldestSeq
            && t.cursor == st.cursor.(nextSeq := st.Open().oldestSeq + |Payloads(c)|)
            && t.OpenContent() == c[..ValidLen(c)] && Payloads(t.OpenContent()) == Payloads(c)
            && t.handle == Closed && t.flash.index == st.flash.index
            && OpenOk(t)
            && (forall id :: id in t.flash.files <==> id in st.flash.files)
            && (forall id :: id in st.flash.files && id != st.Open().segmentId ==>
                  t.flash.files[id] == st.flash.files[id])
  {
    var c := st.OpenContent();
    DropTorn(c);
    assert ValidLen(c) == |c| ==> c[..ValidLen(c)] == c;
  }

  /** The state `t` a reboot comes up in, in terms of what the flash held. */
  ghost predicate ComesUp(st: StreamState, fl: Flash, t: StreamState)
    requires |st.segments| > 0
  {
    var c := Content(fl.files, st.Open().segmentId);
    && |t.segments| == |st.segments|
    && (forall i :: 0 <= i < |st.segments| - 1 ==> t.segments[i] == st.segments[i])
    && t.Open().segmentId == st.Open().segmentId && t.Open().oldestSeq == st.Open().oldestSeq
    && t.cursor == st.cursor.(nextSeq := st.Open().oldestSeq + |Payloads(c)|)
    && t.OpenContent() == c[..ValidLen(c)] && Payloads(t.OpenContent()) == Payloads(c)
    && t.handle == Closed && t.flash.index == st.flash.index
    && OpenOk(t)
    && (forall id :: id in t.flash.files <==> id in fl.files)
    && (forall id :: id in fl.files && id != st.Open().segmentId ==> t.flash.files[id] == fl.files[id])
  }

  /** Every file left by the cut is tracked, so none is an orphan. */
  lemma NothingIsOrphaned(st: StreamState, fl: Flash)
    requires Good(st) && fl.index == st.flash.index
    requires forall id :: id in fl.files ==> Tracked(st.segments, id)
    ensures WithoutOrphans(Loaded(fl)).flash.files == fl.files
  {
    var l := Loaded(fl);
    LoadedTable(st, fl);
    forall id | id in fl.files
      ensures Tracked(l.segments, id)
    {
      assert forall i :: 0 <= i < |st.segments| ==> l.segments[i].segmentId == st.segments[i].segmentId by {
        assert l.segments[|st.segments| - 1] == l.Open();
      }
      TrackedTransfers(st.segments, l.segments, id);
    }
  }

  lemma BootedShape(st: StreamState, fl: Flash)
    requires Good(st) && fl.index == st.flash.index
    requires forall id :: id in fl.files ==> Tracked(st.segments, id)
    ensures ComesUp(st, fl, Booted(fl))
  {
    LoadedTable(st, fl);
    NothingIsOrphaned(st, fl);
    RecoveredShape(WithoutOrphans(Loaded(fl)));
  }

  // ---- the theorem about one reboot ----

  /** What a crash leaves in a closed segment's file. */
  lemma CrashedClosed(st: StreamState, fl: Flash, inflight: Option<bytes>, cut: nat, gone: set<nat>, i: nat)
    requires Consistent(st) && CanCrash(st, inflight, cut, gone) && fl.files == Crashed(st, inflight, cut, gone).files
    requires i < |st.segments| - 1
    ensures var id := st.segments[i].segmentId;
            && (id in fl.files ==> id in st.flash.files && fl.files[id] == st.flash.files[id])
            && ClosedOk(fl.files, st.segments[i])
            && Payloads(Content(fl.files, id)) <= FramesOf(st, i)
  {
    assert ClosedOk(st.flash.files, st.segments[i]);
    assert st.segments[i].segmentId < st.segments[|st.segments| - 1].segmentId;
  }

  /** A reboot leaves a closed segment and its file exactly as they were. */
  ghost predicate SameSegment(st: StreamState, t: StreamState, i: nat)
    requires i < |st.segments| == |t.segments|
  {
    && t.segments[i] == st.segments[i] && FramesOf(t, i) == FramesOf(st, i)
    && (st.segments[i].segmentId in t.flash.files <==> st.segments[i].segmentId in st.flash.files)
  }

  /**
   * After a power cut anywhere and a reboot: the invariant holds; acks and the
   * oldest seq are those of the last saved index; every closed segment that no
   * reclaim had begun to delete is untouched, with its file; the open one still
   * starts with all its durable frames; and nothing is held that was not held
   * before, except that the frame being appended may have made it, under the seq
   * it was stamped with.
   */
  lemma RebootKeeps(st: StreamState, inflight: Option<bytes>, cut: nat, gone: set<nat>)
    requires Good(st) && CanCrash(st, inflight, cut, gone)
    ensures var t, n := Booted(Crashed(st, inflight, cut, gone)), |st.segments| - 1;
            && Good(t)
            && t.cursor.oldestSeq == st.cursor.oldestSeq && t.cursor.acked == st.cursor.acked
            && |t.segments| == |st.segments|
            && (forall i :: 0 <= i < n && st.segments[i].segmentId !in gone ==> SameSegment(st, t, i))
            && t.segments[n].segmentId == st.segments[n].segmentId
            && t.segments[n].oldestSeq == st.segments[n].oldestSeq
            && Payloads(st.OpenContent()[..st.Durable()]) <= FramesOf(t, n)
            && DurableNext(st) <= DurableNext(t) == t.cursor.nextSeq <= st.cursor.nextSeq + 1
            && (if inflight.Some? then HoldsNoMore(t, st, st.cursor.nextSeq, inflight.value) else HoldsOnly(t, st))
  {
    var fl := Crashed(st, inflight, cut, gone);
    CrashedTracked(st, inflight, cut, gone);
    BootedShape(st, fl);
    var t := Booted(fl);
    ComesUpGood(st, inflight, cut, gone, fl, t);
    ComesUpHolds(st, inflight, cut, gone, fl, t);
    ComesUpSame(st, inflight, cut, gone, fl, t);
  }

  lemma ComesUpSame(st: StreamState, inflight: Option<bytes>, cut: nat, gone: set<nat>, fl: Flash, t: StreamState)
    requires Good(st) && CanCrash(st, inflight, cut, gone)
             && fl == Crashed(st, inflight, cut, gone) && ComesUp(st, fl, t)
    ensures var n := |st.segments| - 1;
            && (forall i :: 0 <= i < n && st.segments[i].segmentId !in gone ==> SameSegment(st, t, i))
            && t.segments[n].segmentId == st.segments[n].segmentId
            && t.segments[n].oldestSeq == st.segments[n].oldestSeq
            && Payloads(st.OpenContent()[..st.Durable()]) <= FramesOf(t, n)
  {
    var n := |st.segments| - 1;
    forall i | 0 <= i < n && st.segments[i].segmentId !in gone
      ensures SameSegment(st, t, i)
    {
      assert st.segments[i].segmentId < st.segments[n].segmentId;
    }
    CutFrames(st, inflight, cut);
    assert st.segments[n] == st.Open() && t.segments[n] == t.Open();
    assert Content(fl.files, st.Open().segmentId) == Target(st, inflight)[..cut];
  }

  lemma CrashedTracked(st: StreamState, inflight: Option<bytes>, cut: nat, gone: set<nat>)
    requires Consistent(st) && CanCrash(st, inflight, cut, gone)
    ensures forall id :: id in Crashed(st, inflight, cut, gone).files ==> Tracked(st.segments, id)
  {
    forall id | id in Crashed(st, inflight, cut, gone).files
      ensures Tracked(st.segments, id)
    {
      assert id == st.Open().segmentId || id in st.flash.files;
      assert st.segments[|st.segments| - 1].segmentId == st.Open().segmentId;
    }
  }

  lemma ComesUpGood(st: StreamState, inflight: Option<bytes>, cut: nat, gone: set<nat>, fl: Flash, t: StreamState)
    requires Good(st) && CanCrash(st, inflight, cut, gone)
             && fl == Crashed(st, inflight, cut, gone) && ComesUp(st, fl, t)
    ensures Good(t)
    ensures forall i :: 0 <= i < |st.segments| - 1 ==> FramesOf(t, i) <= FramesOf(st, i)
  {
    forall i | 0 <= i < |st.segments| - 1
      ensures ClosedOk(t.flash.files, t.segments[i]) && FramesOf(t, i) <= FramesOf(st, i)
    {
      CrashedClosed(st, fl, inflight, cut, gone, i);
      BootedClosed(st, fl, t, i);
    }
    CrashedTracked(st, inflight, cut, gone);
    RebootConsistent(st, fl, t);
  }

  lemma ComesUpHolds(st: StreamState, inflight: Option<bytes>, cut: nat, gone: set<nat>, fl: Flash, t: StreamState)
    requires Good(st) && CanCrash(st, inflight, cut, gone)
             && fl == Crashed(st, inflight, cut, gone) && ComesUp(st, fl, t)
    requires forall i :: 0 <= i < |st.segments| - 1 ==> FramesOf(t, i) <= FramesOf(st, i)
    ensures DurableNext(st) <= DurableNext(t) == t.cursor.nextSeq <= st.cursor.nextSeq + 1
    ensures if inflight.Some? then HoldsNoMore(t, st, st.cursor.nextSeq, inflight.value) else HoldsOnly(t, st)
  {
    var n, left := |st.segments| - 1, Target(st, inflight)[..cut];
    assert Content(fl.files, st.Open().segmentId) == left;
    CutFrames(st, inflight, cut);
    assert t.OpenContent()[..t.Durable()] == t.OpenContent();
    assert t.segments[n] == t.Open();
    RebootHolds(st, t, inflight);
  }

  lemma BootedClosed(st: StreamState, fl: Flash, t: StreamState, i: nat)
    requires Consistent(st) && i < |st.segments| - 1 && |t.segments| == |st.segments| && t.segments[i] == st.segments[i]
    requires ClosedOk(fl.files, st.segments[i])
             && Payloads(Content(fl.files, st.segments[i].segmentId)) <= FramesOf(st, i)
    requires forall id :: id in t.flash.files <==> id in fl.files
    requires forall id :: id in fl.files && id != st.Open().segmentId ==> t.flash.files[id] == fl.files[id]
    ensures ClosedOk(t.flash.files, t.segments[i]) && FramesOf(t, i) <= FramesOf(st, i)
  {
    assert st.segments[i].segmentId < st.segments[|st.segments| - 1].segmentId;
  }

  lemma RebootConsistent(st: StreamState, fl: Flash, t: StreamState)
    requires Good(st) && |t.segments| == |st.segments|
    requires forall i :: 0 <= i < |st.segments| - 1 ==>
               t.segments[i] == st.segments[i] && ClosedOk(t.flash.files, t.segments[i])
    requires t.Open().segmentId == st.Open().segmentId && t.Open().oldestSeq == st.Open().oldestSeq
    requires t.cursor.oldestSeq == st.cursor.oldestSeq && t.cursor.acked == st.cursor.acked
    requires t.flash.index == st.flash.index && OpenOk(t)
    requires forall id :: id in t.flash.files ==> Tracked(st.segments, id)
    ensures Good(t)
  {
    assert SameTable(st.segments, t.segments) by {
      assert t.segments[|t.segments| - 1] == t.Open();
    }
    TableTransfers(st.segments, t.segments, st.cursor.oldestSeq);
    forall id | id in t.flash.files
      ensures Tracked(t.segments, id)
    {
      TrackedTransfers(st.segments, t.segments, id);
    }
    PersistedTransfers(st, t);
  }

  lemma RebootHolds(st: StreamState, t: StreamState, inflight: Option<bytes>)
    requires Consistent(st) && |t.segments| == |st.segments|
    requires forall i :: 0 <= i < |st.segments| ==> t.segments[i].oldestSeq == st.segments[i].oldestSeq
    requires forall i :: 0 <= i < |st.segments| - 1 ==> FramesOf(t, i) <= FramesOf(st, i)
    requires var n := |st.segments| - 1;
             FramesOf(t, n) <= FramesOf(st, n) + (if inflight.Some? then [inflight.value] else [])
    ensures if inflight.Some? then HoldsNoMore(t, st, st.cursor.nextSeq, inflight.value) else HoldsOnly(t, st)
  {
    forall q: nat, r: bytes | Holds(t, q, r)
      ensures Holds(st, q, r) || (inflight.Some? && q == st.cursor.nextSeq && r == inflight.value)
    {
      var i := HoldsAt(t, q, r);
      RebootHoldsAt(st, t, inflight, i, q, r);
    }
  }

  lemma RebootHoldsAt(st: StreamState, t: StreamState, inflight: Option<bytes>, i: nat, q: nat, r: bytes)
    requires i < |t.segments| == |st.segments| && OpenOk(st) && HoldsIn(t, i, q, r)
    requires t.segments[i].oldestSeq == st.segments[i].oldestSeq
    requires i < |st.segments| - 1 ==> FramesOf(t, i) <= FramesOf(st, i)
    requires i == |st.segments| - 1 ==>
               FramesOf(t, i) <= FramesOf(st, i) + (if inflight.Some? then [inflight.value] else [])
    ensures Holds(st, q, r) || (inflight.Some? && q == st.cursor.nextSeq && r == inflight.value)
  {
    if i < |st.segments| - 1 {
      HoldsMoves(t, i, st, i, q, r);
    } else {
      LastHolds(st, t, inflight, q, r);
    }
  }

  lemma LastHolds(st: StreamState, t: StreamState, inflight: Option<bytes>, q: nat, r: bytes)
    requires |st.segments| == |t.segments| > 0 && OpenOk(st) && HoldsIn(t, |t.segments| - 1, q, r)
    requires t.segments[|t.segments| - 1].oldestSeq == st.segments[|t.segments| - 1].oldestSeq
    requires var n := |st.segments| - 1;
             FramesOf(t, n) <= FramesOf(st, n) + (if inflight.Some? then [inflight.value] else [])
    ensures Holds(st, q, r) || (inflight.Some? && q == st.cursor.nextSeq && r == inflight.value)
  {
    var n := |st.segments| - 1;
    if q < st.segments[n].oldestSeq + |FramesOf(st, n)| {
      assert HoldsIn(st, n, q, r);
    }
  }

  // ---- a reboot that finds no index ----

  /**
   * If the index is gone altogether the stream starts over from segment 0, and
   * whatever frames are served afterwards still sit at the position of their seq.
   */
  lemma RebootWithoutIndex(st: StreamState, inflight: Option<bytes>, cut: nat, gone: set<nat>)
    requires Good(st) && CanCrash(st, inflight, cut, gone)
    ensures var t := Booted(Crashed(st, inflight, cut, gone).(index := None));
            && Good(t)
            && (if inflight.Some? then HoldsNoMore(t, st, st.cursor.nextSeq, inflight.value) else HoldsOnly(t, st))
  {
    var fl := Crashed(st, inflight, cut, gone).(index := None);
    FreshComesUp(fl);
    var t := Booted(fl);
    forall q: nat, r: bytes | Holds(t, q, r)
      ensures Holds(st, q, r) || (inflight.Some? && q == st.cursor.nextSeq && r == inflight.value)
    {
      var i := HoldsAt(t, q, r);
      assert i == 0;
      FirstFileHolds(st, inflight, cut, gone, q, r);
    }
  }

  /** With no index, a stream comes up with what is in file 0. */
  lemma FreshComesUp(fl: Flash)
    requires fl.index == None
    ensures var t := Booted(fl);
            Good(t) && |t.segments| == 1 && t.segments[0].oldestSeq == 0
            && FramesOf(t, 0) == Payloads(Content(fl.files, 0))
  {
    var w, t := WithoutOrphans(Loaded(fl)), Booted(fl);
    assert Loaded(fl).segments == [FRESH] && w.segments == [FRESH];
    assert Tracked(w.segments, 0) by {
      assert w.segments[0].segmentId == 0;
    }
    assert w.OpenContent() == Content(fl.files, 0);
    RecoveredShape(w);
    FreshIsGood(w, t);
  }

  lemma FreshIsGood(w: StreamState, t: StreamState)
    requires w.segments == [FRESH] && w.cursor == Cursor(0, 0, None) && w.flash.index == None
    requires forall id :: id in w.flash.files ==> Tracked(w.segments, id)
    requires |t.segments| == 1 && t.Open().segmentId == 0 && t.Open().oldestSeq == 0 && OpenOk(t)
    requires t.cursor.oldestSeq == 0 && t.cursor.acked == None && t.flash.index == None
    requires forall id :: id in t.flash.files <==> id in w.flash.files
    ensures Good(t)
  {
    forall id | id in t.flash.files
      ensures Tracked(t.segments, id)
    {
      assert id == 0 && t.segments[0].segmentId == id;
    }
  }

  /** The frames of file 0, numbered from 0, are frames of the stream under the same seqs. */
  lemma FirstFileHolds(st: StreamState, inflight: Option<bytes>, cut: nat, gone: set<nat>, q: nat, r: bytes)
    requires Good(st) && CanCrash(st, inflight, cut, gone)
    requires var c := Content(Crashed(st, inflight, cut, gone).files, 0); q < |Payloads(c)| && Payloads(c)[q] == r
    ensures Holds(st, q, r) || (inflight.Some? && q == st.cursor.nextSeq && r == inflight.value)
  {
    if st.Open().segmentId == 0 {
      OpenFileHolds(st, inflight, cut, q, r);
    } else {
      ClosedFileHolds(st, inflight, cut, gone, q, r);
    }
  }

  lemma OpenFileHolds(st: StreamState, inflight: Option<bytes>, cut: nat, q: nat, r: bytes)
    requires Good(st) && CanCrash(st, inflight, cut, {}) && st.Open().segmentId == 0
    requires var c := Target(st, inflight)[..cut]; q < |Payloads(c)| && Payloads(c)[q] == r
    ensures Holds(st, q, r) || (inflight.Some? && q == st.cursor.nextSeq && r == inflight.value)
  {
    var n := |st.segments| - 1;
    CutFrames(st, inflight, cut);
    assert st.segments[n].segmentId == 0 && st.segments[n].oldestSeq == 0;
    if q < |FramesOf(st, n)| {
      assert HoldsIn(st, n, q, r);
    }
  }

  lemma ClosedFileHolds(st: StreamState, inflight: Option<bytes>, cut: nat, gone: set<nat>, q: nat, r: bytes)
    requires Good(st) && CanCrash(st, inflight, cut, gone) && st.Open().segmentId != 0
    requires var c := Content(Crashed(st, inflight, cut, gone).files, 0); q < |Payloads(c)| && Payloads(c)[q] == r
    ensures Holds(st, q, r)
  {
    assert 0 in st.flash.files;
    assert Tracked(st.segments, 0);
    var i :| 0 <= i < |st.segments| && st.segments[i].segmentId == 0;
    CrashedClosed(st, Crashed(st, inflight, cut, gone), inflight, cut, gone, i);
    assert st.segments[i].oldestSeq == 0;
    assert HoldsIn(st, i, q, r);
  }

  // ---- interrupted recoveries ----

  /**
   * What a power cut during the recovery from `fl` may leave: some orphans
   * deleted, the torn tail cut off or not.
   */
  ghost predicate RecoveryCutShort(fl: Flash, mid: Flash) {
    var l := Loaded(fl);
    var id, c := l.Open().segmentId, l.OpenContent();
    && mid.index == fl.index
    && (forall f :: f in mid.files ==> f in fl.files)
    && (forall f :: f in fl.files && Tracked(l.segments, f) ==> f in mid.files)
    && (forall f :: f in mid.files && f != id ==> mid.files[f] == fl.files[f])
    && (id in mid.files ==> mid.files[id] == c || mid.files[id] == c[..ValidLen(c)])
  }

  /**
   * Recovery from arbitrary bytes: it may be cut short and repeated any number of
   * times, the stream always comes up the same.
   */
  lemma RecoveryIsRepeatable(fl: Flash, mid: Flash)
    requires RecoveryCutShort(fl, mid)
    ensures Booted(mid) == Booted(fl)
  {
    var l, m := Loaded(fl), Loaded(mid);
    assert m == l.(flash := mid);
    OrphansOfEither(l, mid);
    var wl, wm := WithoutOrphans(l), WithoutOrphans(m);
    assert wm == wl.(flash := wm.flash);
    RecoveredAlike(wl, wm.flash);
  }

  /** Without their orphans both flashes hold the same files, but for the open one. */
  lemma OrphansOfEither(l: StreamState, mid: Flash)
    requires |l.segments| > 0 && RecoveryCutShort(l.flash, mid) && l == Loaded(l.flash)
    ensures var a, b, c := WithoutOrphans(l).flash, WithoutOrphans(l.(flash := mid)).flash, l.OpenContent();
            && b.index == a.index && (forall f :: f in a.files <==> f in b.files)
            && (forall f :: f in a.files && f != l.Open().segmentId ==> b.files[f] == a.files[f])
            && Content(a.files, l.Open().segmentId) == c
            && (Content(b.files, l.Open().segmentId) == c || Content(b.files, l.Open().segmentId) == c[..ValidLen(c)])
  {
    assert Tracked(l.segments, l.Open().segmentId) by {
      assert l.segments[|l.segments| - 1].segmentId == l.Open().segmentId;
    }
  }

  /** Recovery does not see whether the torn tail was already cut. */
  lemma RecoveredAlike(w: StreamState, flash: Flash)
    requires |w.segments| > 0 && flash.index == w.flash.index && forall f :: f in w.flash.files <==> f in flash.files
    requires forall f :: f in w.flash.files && f != w.Open().segmentId ==> flash.files[f] == w.flash.files[f]
    requires var c := w.OpenContent();
             Content(flash.files, w.Open().segmentId) == c
             || Content(flash.files, w.Open().segmentId) == c[..ValidLen(c)]
    ensures Recovered(w.(flash := flash)) == Recovered(w)
  {
    var c, v := w.OpenContent(), w.(flash := flash);
    DropTorn(c);
    TakeAll(c);
    TakeAll(c[..ValidLen(c)]);
    assert v.Open() == w.Open();
    assert Recovered(v).flash.files == Recovered(w).flash.files;
  }

  /** A finished recovery is in particular one that may be repeated. */
  lemma RecoveryIsIdempotent(fl: Flash)
    ensures Booted(Booted(fl).flash) == Booted(fl)
    ensures var c := Loaded(fl).OpenContent();
            Booted(fl).OpenContent() == c[..ValidLen(c)] && Payloads(Booted(fl).OpenContent()) == Payloads(c)
  {
    var l := Loaded(fl);
    assert Tracked(l.segments, l.Open().segmentId) by {
      assert l.segments[|l.segments| - 1].segmentId == l.Open().segmentId;
    }
    RecoveredShape(WithoutOrphans(l));
    RecoveryIsRepeatable(fl, Booted(fl).flash);
  }
}
