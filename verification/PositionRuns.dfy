/**
 * The position invariant (log/Journal.h) over every run, with a harsher
 * environment than Protocol: acks may name any seq at all, and a reboot may find
 * the index missing. Nothing is said here about loss or stable names, only that
 * what is served sits at the position of the seq it was stamped with.
 */
module PositionRuns {
  import opened Wrappers
  import opened Frames
  import opened FrameAccumulator
  import opened JournalTypes
  import opened JournalSteps
  import opened SpaceReclaimer
  import opened JournalInvariant
  import opened JournalRecovery
  import opened JournalReading
  import opened JournalReclaim
  import opened BatchEnvelope
  import opened Protocol
  import opened ProtocolRuns

  datatype Change =
    | Appends(payload: bytes, outcome: WriteOutcome, now: nat)
    | Reclaims(pressure: Pressure, now: nat)
    | Acks(upTo: nat)
    | Reads(from: nat, lim: Limits)
    | Reboots(inflight: Option<bytes>, cut: nat, gone: set<nat>, indexLost: bool)

  ghost predicate Possible(stream: Stream, st: StreamState, c: Change) {
    match c
    case Appends(payload, _, _) =>
      Appendable(stream, st, payload)
      && (st.openBytes + |payload| + 2 >= ROTATE_BYTES ==> |st.segments| < MAX_SEGMENTS)
    case Reclaims(p, now) => |st.segments| > 0 && TakesOldest(stream, st, p.retentionSeconds, now)
    case Acks(_) => true
    case Reads(_, lim) => lim.maxRecords > 0 && lim.maxBytes > 0
    case Reboots(inflight, cut, gone, _) =>
      CanCrash(st, inflight, cut, gone) && (inflight.Some? ==> Appendable(stream, st, inflight.value))
  }

  ghost function Changed(stream: Stream, st: StreamState, c: Change): StreamState
    requires |st.segments| > 0 && Possible(stream, st, c)
  {
    match c
    case Appends(payload, outcome, now) => Appended(st, payload, outcome, now)
    case Reclaims(p, now) => Reclaimed(stream, st, p, now).0
    case Acks(upTo) => Acked(st, upTo)
    case Reads(from, lim) => ReadFrom(st, from, lim).0
    case Reboots(inflight, cut, gone, indexLost) =>
      var fl := Crashed(st, inflight, cut, gone);
      Booted(if indexLost then fl.(index := None) else fl)
  }

  ghost predicate CanRun(stream: Stream, st: StreamState, changes: seq<Change>)
    decreases |changes|
  {
    |changes| > 0 ==>
      |st.segments| > 0 && Possible(stream, st, changes[0])
        && CanRun(stream, Changed(stream, st, changes[0]), changes[1..])
  }

  ghost function Ran(stream: Stream, st: StreamState, changes: seq<Change>): StreamState
    requires CanRun(stream, st, changes)
    decreases |changes|
  {
    if |changes| == 0 then st else Ran(stream, Changed(stream, st, changes[0]), changes[1..])
  }

  /** New holdings are stamped, so stamps survive. */
  lemma StampsSurvive(stream: Stream, st: StreamState, t: StreamState, p: Option<bytes>)
    requires Consistent(st) && Stamps(stream, st) && StreamStep(st, t, p)
             && (p.Some? ==> Appendable(stream, st, p.value))
    ensures Stamps(stream, t)
  {
  }

  lemma StampsAfterReboot(stream: Stream, st: StreamState, t: StreamState, p: Option<bytes>)
    requires Stamps(stream, st) && (p.Some? ==> Appendable(stream, st, p.value))
    requires if p.Some? then HoldsNoMore(t, st, st.cursor.nextSeq, p.value) else HoldsOnly(t, st)
    ensures Stamps(stream, t)
  {
  }

  lemma ChangeKeeps(stream: Stream, st: StreamState, c: Change)
    requires Good(st) && Stamps(stream, st) && Possible(stream, st, c)
    ensures Good(Changed(stream, st, c)) && Stamps(stream, Changed(stream, st, c))
  {
    var t := Changed(stream, st, c);
    match c
    case Appends(payload, outcome, now) =>
      AppendStep(stream, st, payload, outcome, now);
      StampsSurvive(stream, st, t, Some(payload));
    case Reclaims(p, now) =>
      ReclaimStep(stream, st, p, now);
      StampsSurvive(stream, st, t, None);
    case Acks(upTo) =>
      AckKeeps(st, upTo);
      StampsAfterReboot(stream, st, t, None);
    case Reads(from, lim) =>
      ReadIsDurable(st, from, lim);
      ClosingKeeps(st, t);
      StampsSurvive(stream, st, t, None);
    case Reboots(inflight, cut, gone, indexLost) =>
      if indexLost {
        RebootWithoutIndex(st, inflight, cut, gone);
      } else {
        RebootKeeps(st, inflight, cut, gone);
      }
      StampsAfterReboot(stream, st, t, inflight);
  }

  lemma {:induction false} RunKeeps(stream: Stream, st: StreamState, changes: seq<Change>)
    requires Good(st) && Stamps(stream, st) && CanRun(stream, st, changes)
    ensures Good(Ran(stream, st, changes)) && Stamps(stream, Ran(stream, st, changes))
    decreases |changes|
  {
    if |changes| == 0 {
    } else {
      ChangeKeeps(stream, st, changes[0]);
      RunKeeps(stream, Changed(stream, st, changes[0]), changes[1..]);
    }
  }

  /**
   * In every reachable state of a Logs or Events stream, frame i of a segment is
   * the record stamped oldestSeq + i, and nextSeq is the open segment's oldest
   * seq plus the number of complete frames in its file.
   */
  lemma PositionInvariant(stream: Stream, changes: seq<Change>)
    requires CanRun(stream, Start0().st, changes)
    ensures var st := Ran(stream, Start0().st, changes);
            && Consistent(st)
            && st.cursor.nextSeq == st.Open().oldestSeq + |Payloads(st.OpenContent())|
            && (stream != Data ==> forall i :: 0 <= i < |st.segments| ==>
                  AllStamped(FramesOf(st, i), st.segments[i].oldestSeq))
  {
    StartInv(stream);
    RunKeeps(stream, Start0().st, changes);
    var st := Ran(stream, Start0().st, changes);
    if stream != Data {
      forall i | 0 <= i < |st.segments|
        ensures AllStamped(FramesOf(st, i), st.segments[i].oldestSeq)
      {
        SegmentStamped(stream, st, i);
      }
    }
  }

  lemma SegmentStamped(stream: Stream, st: StreamState, i: nat)
    requires Stamps(stream, st) && stream != Data && i < |st.segments|
    ensures AllStamped(FramesOf(st, i), st.segments[i].oldestSeq)
  {
    var frames, first := FramesOf(st, i), st.segments[i].oldestSeq;
    forall k | 0 <= k < |frames|
      ensures Stamped(frames[k], first + k)
    {
      assert HoldsIn(st, i, first + k, frames[k]);
    }
  }

  /**
   * The segment table in every reachable state: ids rise, each segment starts
   * where the previous one ends, and the cursor's oldest seq is the first one's.
   */
  lemma TableInvariant(stream: Stream, changes: seq<Change>, i: nat)
    requires CanRun(stream, Start0().st, changes)
    ensures var st := Ran(stream, Start0().st, changes);
            && 0 < |st.segments| <= MAX_SEGMENTS && st.segments[0].oldestSeq == st.cursor.oldestSeq
            && (i + 1 < |st.segments| ==>
                st.segments[i].segmentId < st.segments[i + 1].segmentId
                && st.segments[i + 1].oldestSeq == st.segments[i].newestSeq + 1)
  {
    StartInv(stream);
    RunKeeps(stream, Start0().st, changes);
  }
}
