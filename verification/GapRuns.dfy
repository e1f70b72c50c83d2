/**
 * The gap markers over whole runs: however often the device loses power, no seq is
 * given up twice, and the markers returned are exactly what reclaims took unacked.
 */
module GapRuns {
  import C = JournalCursor
  import opened JournalTypes
  import opened JournalSteps
  import opened SpaceReclaimer
  import opened JournalInvariant
  import opened JournalReclaim
  import opened Protocol
  import opened ProtocolRuns
  import opened RetentionRuns

  /** The reclaim of event `j` took this seq when it was not acked. */
  ghost predicate TookUnacked(run: seq<System>, events: seq<Event>, j: nat, s: nat)
    requires j < |events| && j + 1 < |run|
  {
    && events[j].Reclaim?
    && run[j].st.cursor.oldestSeq <= s < run[j + 1].st.cursor.oldestSeq
    && !C.IsAcked(run[j].st.cursor, s)
  }

  ghost predicate GivenUp(run: seq<System>, events: seq<Event>, n: nat, s: nat)
    requires n <= |events| < |run|
  {
    exists j :: 0 <= j < n && TookUnacked(run, events, j, s)
  }

  /** A reclaim adds markers behind the others, exactly for what it takes unacked. */
  lemma ReclaimMarks(stream: Stream, y: System, p: Pressure, now: nat, s: nat)
    requires Good(y.st) && TakesOldest(stream, y.st, p.retentionSeconds, now)
    requires C.Ascending(y.gaps, 0, y.st.cursor.oldestSeq)
    ensures var r := Reclaimed(stream, y.st, p, now);
            && C.Ascending(y.gaps + r.1, 0, r.0.cursor.oldestSeq)
            && (Marked(y.gaps + r.1, s) <==>
                  || Marked(y.gaps, s)
                  || (y.st.cursor.oldestSeq <= s < r.0.cursor.oldestSeq && !C.IsAcked(y.st.cursor, s)))
  {
    var r := Reclaimed(stream, y.st, p, now);
    ReclaimStep(stream, y.st, p, now);
    C.AscendingJoin(y.gaps, r.1, 0, y.st.cursor.oldestSeq, r.0.cursor.oldestSeq);
    MarkedJoin(y.gaps, r.1);
  }

  lemma GivenUpStep(run: seq<System>, events: seq<Event>, n: nat, s: nat)
    requires 0 < n <= |events| < |run|
    ensures GivenUp(run, events, n, s) <==> GivenUp(run, events, n - 1, s) || TookUnacked(run, events, n - 1, s)
  {
  }

  lemma EventMarks(stream: Stream, run: seq<System>, events: seq<Event>, n: nat, s: nat)
    requires Run(stream, run, events) && n < |events| && C.Ascending(run[n].gaps, 0, run[n].st.cursor.oldestSeq)
    ensures C.Ascending(run[n + 1].gaps, 0, run[n + 1].st.cursor.oldestSeq)
    ensures Marked(run[n + 1].gaps, s) <==> Marked(run[n].gaps, s) || TookUnacked(run, events, n, s)
  {
    RunInv(stream, run, events, n);
    assert StepAt(stream, run, events, n);
    if events[n].Reclaim? {
      ReclaimMarks(stream, run[n], events[n].pressure, events[n].now, s);
    } else {
      OldestRises(stream, run, events, n);
      assert run[n + 1].gaps == run[n].gaps;
    }
  }

  /**
   * At every moment of every run the markers ascend and are disjoint, lie below the
   * oldest seq, and cover exactly the seqs that some reclaim took unacked.
   */
  lemma {:induction false} MarkersOverRuns(stream: Stream, run: seq<System>, events: seq<Event>, n: nat, s: nat)
    requires Run(stream, run, events) && n < |run|
    ensures C.Ascending(run[n].gaps, 0, run[n].st.cursor.oldestSeq)
    ensures Marked(run[n].gaps, s) <==> GivenUp(run, events, n, s)
  {
    if n == 0 {
    } else {
      MarkersOverRuns(stream, run, events, n - 1, s);
      EventMarks(stream, run, events, n - 1, s);
      GivenUpStep(run, events, n, s);
    }
  }
}
