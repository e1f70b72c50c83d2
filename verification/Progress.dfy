/**
 * What a working network is good for: when a send finds something, what one round
 * of sending, receiving and acking achieves, and that nothing has to stay unacked.
 */
module Progress {
  import opened Wrappers
  import opened FrameAccumulator
  import C = JournalCursor
  import opened JournalTypes
  import opened JournalSteps
  import opened JournalInvariant
  import opened JournalReading
  import opened Protocol
  import opened ProtocolRuns
  import opened RetentionRuns

  function Now(run: seq<System>): System
    requires |run| > 0
  {
    run[|run| - 1]
  }

  /** At every moment of every run, a send publishes something exactly when the first unacked seq is held. */
  lemma SendPublishesIff(stream: Stream, run: seq<System>, events: seq<Event>, n: nat, lim: Limits)
    requires Run(stream, run, events) && n < |run| && run[n].slot.None? && lim.maxRecords > 0 && lim.maxBytes > 0
    requires |run[n].st.segments| > 0
    ensures Apply(stream, run[n], Send(lim)).slot.Some? <==> IsHeld(run[n].st, Wanted(run[n].st))
  {
    RunInv(stream, run, events, n);
    var records, recs := ReadFromSpec(run[n].st, C.FirstUnacked(run[n].st.cursor), lim);
  }

  // ---- one round ----

  /** The device can go on sending: its slot is free, and what is lost had been acked. */
  ghost predicate CanGoOn(y: System) { y.slot.None? && LostWereAcked(y.st) }

  function Round(b: Batch): seq<Event>
    requires |b.records| > 0
  {
    [Deliver(b), Commit(b), ReceiveAck(Last(b))]
  }

  /** What a sent batch makes of the stream, and what receiving it makes of the world. */
  ghost predicate SentFrom(y: System, z: System, b: Batch) {
    && z.slot == Some(b) && b in z.sent && |b.records| > 0 && b.firstSeq == Wanted(y.st)
    && (z.st == y.st || z.st == y.st.(handle := Closed))
  }

  lemma Sends(stream: Stream, run: seq<System>, events: seq<Event>, lim: Limits)
    returns (run': seq<System>, b: Batch)
    requires Run(stream, run, events) && CanGoOn(Now(run)) && lim.maxRecords > 0 && lim.maxBytes > 0
    requires Wanted(Now(run).st) < Now(run).st.cursor.nextSeq
    ensures Run(stream, run', events + [Send(lim)]) && SentFrom(Now(run), Now(run'), b)
  {
    var y := Now(run);
    RunInv(stream, run, events, |events|);
    AckedLossIsHarmless(y.st, lim);
    ReadStep(y.st, lim);
    b := BatchRead(y.st, lim);
    OneMoreStep(stream, run, events, Send(lim));
    run' := run + [Apply(stream, y, Send(lim))];
  }

  /** The batch arrives, is committed, and its ack arrives. */
  lemma Confirms(stream: Stream, run: seq<System>, events: seq<Event>, b: Batch) returns (run': seq<System>)
    requires Run(stream, run, events) && b in Now(run).sent && |b.records| > 0
    ensures Run(stream, run', events + Round(b))
    ensures Last(b) in Now(run').acks && Now(run').st == Acked(Now(run).st, Last(b))
    ensures Now(run).slot == Some(b) ==> Now(run').slot.None?
  {
    RunInv(stream, run, events, |events|);
    OneMoreStep(stream, run, events, Deliver(b));
    var run1, events1 := run + [Apply(stream, Now(run), Deliver(b))], events + [Deliver(b)];
    OneMoreStep(stream, run1, events1, Commit(b));
    var run2, events2 := run1 + [Apply(stream, Now(run1), Commit(b))], events1 + [Commit(b)];
    OneMoreStep(stream, run2, events2, ReceiveAck(Last(b)));
    run' := run2 + [Apply(stream, Now(run2), ReceiveAck(Last(b)))];
    assert events2 + [ReceiveAck(Last(b))] == events + Round(b);
  }

  /** The cursor has moved on to `wanted`, and nothing else has changed. */
  ghost predicate MovedTo(y: System, z: System, wanted: nat) {
    && CanGoOn(z) && Wanted(z.st) == wanted
    && z.st.cursor.nextSeq == y.st.cursor.nextSeq && z.st.cursor.oldestSeq == y.st.cursor.oldestSeq
  }

  lemma AckMoves(y: System, sent: System, z: System, b: Batch)
    requires CanGoOn(y) && SentFrom(y, sent, b) && z.slot.None? && z.st == Acked(sent.st, Last(b))
    requires b.firstSeq + |b.records| <= y.st.cursor.nextSeq
    ensures MovedTo(y, z, b.firstSeq + |b.records|)
  {
    forall i | 0 <= i < |z.st.segments| - 1 && z.st.segments[i].segmentId !in z.st.flash.files
      ensures C.IsAcked(z.st.cursor, z.st.segments[i].newestSeq)
    {
      assert z.st.segments[i] == y.st.segments[i];
    }
  }

  /**
   * One round without losses, while something is unacked: a batch is published from
   * the first unacked seq on, and once its ack has arrived exactly that batch is acked.
   */
  lemma OneRound(stream: Stream, run: seq<System>, events: seq<Event>, lim: Limits)
    returns (run': seq<System>, b: Batch)
    requires Run(stream, run, events) && CanGoOn(Now(run)) && lim.maxRecords > 0 && lim.maxBytes > 0
    requires Wanted(Now(run).st) < Now(run).st.cursor.nextSeq
    ensures |b.records| > 0 && b.firstSeq == Wanted(Now(run).st)
    ensures Run(stream, run', events + [Send(lim)] + Round(b))
    ensures MovedTo(Now(run), Now(run'), b.firstSeq + |b.records|)
  {
    var run1;
    run1, b := Sends(stream, run, events, lim);
    run' := Confirms(stream, run1, events + [Send(lim)], b);
    RunInv(stream, run1, events + [Send(lim)], |events| + 1);
    SentIsBelowNext(stream, Now(run1), b);
    AckMoves(Now(run), Now(run1), Now(run'), b);
  }

  // ---- all rounds ----

  /** What the network and the uplink do, with no event of the device's own. */
  predicate Transfers(e: Event) { e.Send? || e.GiveUp? || e.Deliver? || e.Commit? || e.ReceiveAck? }

  /** `more` goes on after `events` with transfers only. */
  predicate GoesOn(events: seq<Event>, more: seq<Event>) {
    events <= more && forall i :: |events| <= i < |more| ==> Transfers(more[i])
  }

  lemma {:induction false} Drains(stream: Stream, run: seq<System>, events: seq<Event>, lim: Limits)
    returns (run': seq<System>, events': seq<Event>)
    requires Run(stream, run, events) && CanGoOn(Now(run)) && lim.maxRecords > 0 && lim.maxBytes > 0
    requires Wanted(Now(run).st) <= Now(run).st.cursor.nextSeq
    ensures Run(stream, run', events') && GoesOn(events, events')
    ensures MovedTo(Now(run), Now(run'), Now(run).st.cursor.nextSeq)
    decreases Now(run).st.cursor.nextSeq - Wanted(Now(run).st)
  {
    if Wanted(Now(run).st) == Now(run).st.cursor.nextSeq {
      run', events' := run, events;
    } else {
      var run1, b := OneRound(stream, run, events, lim);
      RunInv(stream, run1, events + [Send(lim)] + Round(b), |run1| - 1);
      WantedIsBelowNext(stream, Now(run1));
      run', events' := Drains(stream, run1, events + [Send(lim)] + Round(b), lim);
    }
  }

  lemma WantedIsBelowNext(stream: Stream, y: System)
    requires Inv(stream, y)
    ensures Wanted(y.st) <= y.st.cursor.nextSeq
  {
    DurableBelowNext(y.st);
    SegmentRange(y.st, |y.st.segments| - 1);
    if |y.st.segments| > 1 {
      StartsRise(y.st, 0, |y.st.segments| - 1);
    }
  }

  /**
   * From every moment of every run at which lost files had been acked, sending,
   * receiving and acking alone can go on until nothing unacked is left.
   */
  lemma NothingMustStayUnacked(stream: Stream, run: seq<System>, events: seq<Event>, lim: Limits)
    returns (run': seq<System>, events': seq<Event>)
    requires Run(stream, run, events) && LostWereAcked(Now(run).st) && lim.maxRecords > 0 && lim.maxBytes > 0
    ensures Run(stream, run', events') && GoesOn(events, events')
    ensures Wanted(Now(run').st) == Now(run').st.cursor.nextSeq == Now(run).st.cursor.nextSeq
    ensures Now(run').st.cursor.oldestSeq == Now(run).st.cursor.oldestSeq
  {
    RunInv(stream, run, events, |events|);
    WantedIsBelowNext(stream, Now(run));
    if Now(run).slot.None? {
      run', events' := Drains(stream, run, events, lim);
    } else {
      OneMoreStep(stream, run, events, GiveUp);
      var run1 := run + [Apply(stream, Now(run), GiveUp)];
      run', events' := Drains(stream, run1, events + [GiveUp], lim);
    }
  }
}
