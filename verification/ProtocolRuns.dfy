/**
 * The protocol theorems: what holds at every moment of every run, from empty
 * flash, of the system in Protocol.
 */
module ProtocolRuns {
  import opened Wrappers
  import opened JournalCursor
  import opened JournalTypes
  import opened JournalSteps
  import opened JournalInvariant
  import opened BatchEnvelope
  import opened JournalRecovery
  import opened JournalReading
  import opened LogRecords
  import Cbor
  import opened Protocol

  /** A device with empty flash that nobody has heard from yet. */
  function Start0(): System {
    System(StreamState(Cursor(0, 0, None), [FRESH], 0, Closed, Flash(map[], None)), None, {}, {}, {}, [])
  }

  /** It is what a boot from empty flash makes. */
  lemma StartIsBooted()
    ensures Start0().st == Booted(Flash(map[], None))
  {
    var st := Booted(Flash(map[], None));
    assert Loaded(Flash(map[], None)).segments == [FRESH];
    assert st.segments == [FRESH] && st.flash.files == map[];
  }

  ghost predicate StepAt(stream: Stream, run: seq<System>, events: seq<Event>, i: nat)
    requires i < |events| && i + 1 < |run|
  {
    |run[i].st.segments| > 0 && Enabled(stream, run[i], events[i]) && run[i + 1] == Apply(stream, run[i], events[i])
  }

  /** Every moment of a run: any events, in any order, that can happen. */
  ghost predicate Run(stream: Stream, run: seq<System>, events: seq<Event>) {
    |run| == |events| + 1 && run[0] == Start0() && forall i :: 0 <= i < |events| ==> StepAt(stream, run, events, i)
  }

  /** A run goes on with any event that can happen. */
  lemma OneMoreStep(stream: Stream, run: seq<System>, events: seq<Event>, e: Event)
    requires Run(stream, run, events)
    requires |run[|events|].st.segments| > 0 && Enabled(stream, run[|events|], e)
    ensures Run(stream, run + [Apply(stream, run[|events|], e)], events + [e])
  {
    var next, more := run + [Apply(stream, run[|events|], e)], events + [e];
    forall i | 0 <= i < |more|
      ensures StepAt(stream, next, more, i)
    {
      assert i < |events| ==> StepAt(stream, run, events, i);
    }
  }

  lemma StartInv(stream: Stream)
    ensures Inv(stream, Start0())
  {
    var st := Start0().st;
    assert st.OpenContent() == [] && FramesOf(st, 0) == [];
  }

  /** The invariant holds at every moment of every run. */
  lemma {:induction false} RunInv(stream: Stream, run: seq<System>, events: seq<Event>, n: nat)
    requires Run(stream, run, events) && n < |run|
    ensures Inv(stream, run[n])
  {
    if n == 0 {
      StartInv(stream);
    } else {
      RunInv(stream, run, events, n - 1);
      assert StepAt(stream, run, events, n - 1);
      EventKeepsInv(stream, run[n - 1], events[n - 1]);
    }
  }

  /**
   * No silent loss: at every moment of every run, every seq up to the acked one
   * was in a batch the server received or inside a gap marker that a reclaim returned.
   */
  lemma NoSilentLoss(stream: Stream, run: seq<System>, events: seq<Event>, n: nat, s: nat)
    requires Run(stream, run, events) && n < |run|
    requires IsAcked(run[n].st.cursor, s)
    ensures Covered(run[n], s)
  {
    RunInv(stream, run, events, n);
    AckedIsCovered(stream, run[n], s);
  }

  lemma AckedIsCovered(stream: Stream, y: System, s: nat)
    requires Inv(stream, y) && IsAcked(y.st.cursor, s)
    ensures Covered(y, s)
  {
    assert s < FirstUnacked(y.st.cursor);
  }

  /** Seqs are stable names: two batches ever read, in any boots, never disagree about a seq. */
  lemma SeqsAreStableNames(stream: Stream, run: seq<System>, events: seq<Event>, n: nat, b: Batch, c: Batch, s: nat)
    requires Run(stream, run, events) && n < |run|
    requires b in run[n].sent && c in run[n].sent
    requires Carries(b, s) && Carries(c, s)
    ensures b.records[s - b.firstSeq] == c.records[s - c.firstSeq]
  {
    RunInv(stream, run, events, n);
    SentNeverDisagree(stream, run[n], b, c, s);
  }

  lemma SentNeverDisagree(stream: Stream, y: System, b: Batch, c: Batch, s: nat)
    requires Inv(stream, y) && b in y.sent && c in y.sent && Carries(b, s) && Carries(c, s)
    ensures b.records[s - b.firstSeq] == c.records[s - c.firstSeq]
  {
    assert Agree(b, c);
  }

  /**
   * At every moment, in particular right after every recovery, nextSeq exceeds
   * every seq ever read for sending.
   */
  lemma NextSeqExceedsEverythingRead(stream: Stream, run: seq<System>, events: seq<Event>, n: nat, b: Batch, s: nat)
    requires Run(stream, run, events) && n < |run|
    requires b in run[n].sent && Carries(b, s)
    ensures s < run[n].st.cursor.nextSeq
  {
    RunInv(stream, run, events, n);
    SentIsBelowNext(stream, run[n], b);
  }

  lemma SentIsBelowNext(stream: Stream, y: System, b: Batch)
    requires Inv(stream, y) && b in y.sent
    ensures b.firstSeq + |b.records| <= y.st.cursor.nextSeq
  {
    DurableBelowNext(y.st);
    assert Named(y.st, b);
  }

  /**
   * So an honest ack is never clamped: whenever it arrives, it moves the cursor to
   * exactly the seq it confirms, unless a later one has been confirmed already.
   */
  lemma HonestAcksAreNeverClamped(stream: Stream, run: seq<System>, events: seq<Event>, n: nat, upTo: nat)
    requires Run(stream, run, events) && n < |run|
    requires upTo in run[n].acks
    ensures var st := run[n].st;
            FirstUnacked(Acked(st, upTo).cursor) == Max(FirstUnacked(st.cursor), upTo + 1)
  {
    RunInv(stream, run, events, n);
    AckIsExact(stream, run[n], upTo);
  }

  lemma AckIsExact(stream: Stream, y: System, upTo: nat)
    requires Inv(stream, y) && upTo in y.acks
    ensures FirstUnacked(Acked(y.st, upTo).cursor) == Max(FirstUnacked(y.st.cursor), upTo + 1)
  {
    DurableBelowNext(y.st);
  }

  /** What the server received for a seq is what the flash holds for it, as long as it holds anything. */
  lemma ServerAgreesWithFlash(stream: Stream, run: seq<System>, events: seq<Event>, n: nat, b: Batch, s: nat, p: bytes)
    requires Run(stream, run, events) && n < |run|
    requires b in run[n].received && Holds(run[n].st, s, p)
    requires Carries(b, s)
    ensures p == b.records[s - b.firstSeq]
  {
    RunInv(stream, run, events, n);
    ReceivedAgrees(stream, run[n], b, s, p);
  }

  lemma ReceivedAgrees(stream: Stream, y: System, b: Batch, s: nat, p: bytes)
    requires Inv(stream, y) && b in y.received && Holds(y.st, s, p) && Carries(b, s)
    ensures p == b.records[s - b.firstSeq]
  {
    assert Named(y.st, b);
  }

  /**
   * Every batch of Logs or Events ever published is one CBOR item whose i-th
   * record carries the seq firstSeq + i.
   */
  lemma PublishedBatchesDecode(stream: Stream, run: seq<System>, events: seq<Event>, n: nat, b: Batch, bootId: nat)
    requires Run(stream, run, events) && n < |run| && stream != Data
    requires b in run[n].sent
    requires bootId <= Cbor.MAX_U64 && b.firstSeq <= Cbor.MAX_U64 && |b.records| <= Cbor.MAX_U64
    ensures var code := if stream == Logs then 0 else 1;
            var read := Cbor.Decode(EnvelopeBytes(bootId, code, b.firstSeq, |b.records|, Flatten(b.records)));
            read.Some? && read.value.rest == [] && IsBatch(read.value.item, bootId, code, b.firstSeq, b.records)
  {
    RunInv(stream, run, events, n);
    EnvelopeDecodes(bootId, if stream == Logs then 0 else 1, b.firstSeq, b.records);
  }

  // ---- what was appended is what is published ----

  /** Whatever the flash holds for the seq, and whatever was ever sent for it, is this payload. */
  ghost predicate NamesOnly(y: System, s: nat, p: bytes) {
    && (forall q :: Holds(y.st, s, q) ==> q == p)
    && (forall b :: b in y.sent && Carries(b, s) ==> b.records[s - b.firstSeq] == p)
  }

  /** No event puts anything new under a seq that has been assigned. */
  lemma AssignedStay(stream: Stream, y: System, e: Event, s: nat, q: bytes)
    requires Inv(stream, y) && Enabled(stream, y, e) && s < y.st.cursor.nextSeq && Holds(Apply(stream, y, e).st, s, q)
    ensures Holds(y.st, s, q)
  {
    match e
    case Append(payload, outcome, now) => AppendStep(stream, y.st, payload, outcome, now);
    case Reclaim(p, now) => ReclaimStep(stream, y.st, p, now);
    case Send(lim) =>
      var r := ReadFrom(y.st, FirstUnacked(y.st.cursor), lim).0;
      ReadIsDurable(y.st, FirstUnacked(y.st.cursor), lim);
      ClosingKeeps(y.st, r);
    case ReceiveAck(upTo) => AckStep(y.st, upTo);
    case PowerCut(inflight, cut, gone) => RebootKeeps(y.st, inflight, cut, gone);
    case _ =>
  }

  /** What an event newly sends is held. */
  lemma NewlySentIsHeld(stream: Stream, y: System, e: Event, b: Batch)
    requires Inv(stream, y) && Enabled(stream, y, e) && b in Apply(stream, y, e).sent && b !in y.sent
    ensures HeldBatch(y.st, b)
  {
    ReadStep(y.st, e.lim);
  }

  lemma EventKeepsName(stream: Stream, y: System, e: Event, s: nat, p: bytes)
    requires Inv(stream, y) && Enabled(stream, y, e) && NamesOnly(y, s, p) && s < y.st.cursor.nextSeq
    ensures NamesOnly(Apply(stream, y, e), s, p)
  {
    var z := Apply(stream, y, e);
    forall q | Holds(z.st, s, q)
      ensures q == p
    {
      AssignedStay(stream, y, e, s, q);
    }
    forall b | b in z.sent && Carries(b, s)
      ensures b.records[s - b.firstSeq] == p
    {
      if b !in y.sent {
        NewlySentIsHeld(stream, y, e, b);
        HeldIsNamed(y, b, s, p);
      }
    }
  }

  lemma HeldIsNamed(y: System, b: Batch, s: nat, p: bytes)
    requires NamesOnly(y, s, p) && HeldBatch(y.st, b) && Carries(b, s)
    ensures b.records[s - b.firstSeq] == p
  {
    assert Holds(y.st, b.firstSeq + (s - b.firstSeq), b.records[s - b.firstSeq]);
  }

  lemma AppendNames(stream: Stream, y: System, e: Event)
    requires Inv(stream, y) && Enabled(stream, y, e) && e.Append?
    ensures NamesOnly(Apply(stream, y, e), y.st.cursor.nextSeq, e.payload)
  {
    var s := y.st.cursor.nextSeq;
    AppendStep(stream, y.st, e.payload, e.outcome, e.now);
    forall q
      ensures !Holds(y.st, s, q)
    {
      if Holds(y.st, s, q) {
        HoldsUnique(y.st, s, q, q);
      }
    }
    forall b | b in y.sent
      ensures !Carries(b, s)
    {
      SentIsBelowNext(stream, y, b);
    }
  }

  /** From the append on no power cut takes its seq back. */
  predicate StaysAssigned(run: seq<System>, j: nat, n: nat)
    requires j < n < |run|
  {
    forall k :: j < k <= n ==> run[j].st.cursor.nextSeq < run[k].st.cursor.nextSeq
  }

  lemma NextKeepsName(stream: Stream, run: seq<System>, events: seq<Event>, n: nat, s: nat, p: bytes)
    requires Run(stream, run, events) && n < |events| && NamesOnly(run[n], s, p) && s < run[n].st.cursor.nextSeq
    ensures NamesOnly(run[n + 1], s, p)
  {
    RunInv(stream, run, events, n);
    assert StepAt(stream, run, events, n);
    EventKeepsName(stream, run[n], events[n], s, p);
  }

  /** While its seq stays assigned, an appended payload is the only thing held or sent for it. */
  lemma {:induction false} AppendedKeepsItsName(stream: Stream, run: seq<System>, events: seq<Event>, j: nat, n: nat)
    requires Run(stream, run, events) && j < n < |run| && events[j].Append?
    requires StaysAssigned(run, j, n)
    ensures NamesOnly(run[n], run[j].st.cursor.nextSeq, events[j].payload)
  {
    if n == j + 1 {
      RunInv(stream, run, events, j);
      assert StepAt(stream, run, events, j);
      AppendNames(stream, run[j], events[j]);
    } else {
      assert StaysAssigned(run, j, n - 1);
      AppendedKeepsItsName(stream, run, events, j, n - 1);
      NextKeepsName(stream, run, events, n - 1, run[j].st.cursor.nextSeq, events[j].payload);
    }
  }

  /**
   * A record that was appended, and whose seq no power cut has taken back, is the one
   * a reader finds at its place in every published batch that carries that seq.
   */
  lemma AppendedIsPublished(stream: Stream, run: seq<System>, events: seq<Event>, j: nat, n: nat,
    r: LogRecord, b: Batch, bootId: nat)
    requires Run(stream, run, events) && j < n < |run| && stream != Data
    requires events[j].Append? && Cbor.FieldsFit(r) && events[j].payload == Cbor.RecordBytes(r)
    requires StaysAssigned(run, j, n)
    requires b in run[n].sent && Carries(b, run[j].st.cursor.nextSeq)
    requires bootId <= Cbor.MAX_U64 && b.firstSeq <= Cbor.MAX_U64 && |b.records| <= Cbor.MAX_U64
    ensures var code := if stream == Logs then 0 else 1;
            var read := Cbor.Decode(EnvelopeBytes(bootId, code, b.firstSeq, |b.records|, Flatten(b.records)));
            && read.Some? && IsBatch(read.value.item, bootId, code, b.firstSeq, b.records)
            && IsRecord(read.value.item.items[4].items[run[j].st.cursor.nextSeq - b.firstSeq], r)
  {
    AppendedKeepsItsName(stream, run, events, j, n);
    PublishedBatchesDecode(stream, run, events, n, b, bootId);
  }
}
