/**
 * The backlog clocks over runs: what each of them holds at every moment, and what
 * the starvation quotas therefore promise.
 */
module UplinkClocks {
  import opened Wrappers
  import C = JournalCursor
  import opened JournalTypes
  import opened JournalInvariant
  import opened RetentionRuns
  import opened RetryPolicy
  import opened UplinkSteps
  import opened UplinkService
  import opened UplinkRuns
  import P = Protocol

  // ---- something is pending exactly when something is unacked ----

  /** What is in flight starts at or after the first unacked seq. */
  ghost predicate SlotAhead(y: P.System) { y.slot.Some? ==> C.FirstUnacked(y.st.cursor) <= y.slot.value.firstSeq }

  lemma EventKeepsSlotAhead(s: Stream, y: P.System, e: P.Event)
    requires P.Inv(s, y) && SlotAhead(y) && P.Enabled(s, y, e)
    ensures SlotAhead(P.Apply(s, y, e))
  {
    match e
    case Append(payload, outcome, now) => P.AppendStep(s, y.st, payload, outcome, now);
    case Reclaim(p, now) => P.ReclaimStep(s, y.st, p, now);
    case ReceiveAck(upTo) => P.AckStep(y.st, upTo);
    case _ =>
  }

  lemma {:induction false} SlotStaysAhead(cfg: Config, run: seq<World>, events: seq<Event>, n: nat, s: Stream)
    requires Run(cfg, run, events) && n < |run|
    ensures SlotAhead(run[n].net.Get(s))
  {
    if n == 0 {
    } else {
      SlotStaysAhead(cfg, run, events, n - 1, s);
      UplinkFollowsProtocol(cfg, run, events, n - 1, s);
      assert StepAt(cfg, run, events, n - 1);
      assert StreamStepAt(cfg, run, events, n - 1, s);
      var e := StreamEvent(run[n - 1].u, cfg, events[n - 1], s);
      if e.Some? {
        EventKeepsSlotAhead(s, run[n - 1].net.Get(s), e.value);
      }
    }
  }

  /** At every moment of every run a stream counts as pending exactly when one of its records is unacked. */
  lemma PendingIff(cfg: Config, run: seq<World>, events: seq<Event>, n: nat, s: Stream)
    requires Run(cfg, run, events) && n < |run|
    ensures HasPending(run[n].u, s) <==> Unacked(run[n].u, s)
  {
    UplinkFollowsProtocol(cfg, run, events, n, s);
    SlotStaysAhead(cfg, run, events, n, s);
    var y := run[n].net.Get(s);
    if y.slot.Some? {
      assert P.Named(y.st, y.slot.value);
      P.DurableBelowNext(y.st);
    }
  }

  // ---- what the clock holds ----

  /** The stream has just been found empty, or the device has just lost its clocks. */
  predicate Resets(run: seq<World>, events: seq<Event>, s: Stream, i: nat)
    requires i < |events| && i < |run|
  {
    events[i].PowerCut? || (events[i].Pass? && !Unacked(run[i].u, s))
  }

  /** A pass finds something unacked. A clock of 0 stands for none, so a pass at time 0 starts none. */
  predicate Sees(run: seq<World>, events: seq<Event>, s: Stream, i: nat)
    requires i < |events| && i < |run|
  {
    events[i].Pass? && events[i].now > 0 && Unacked(run[i].u, s)
  }

  predicate NoResets(run: seq<World>, events: seq<Event>, s: Stream, i: nat, n: nat)
    requires n <= |events| && n <= |run|
  {
    forall k :: i <= k < n ==> !Resets(run, events, s, k)
  }

  /** Nobody has seen anything since the last reset. */
  predicate Unseen(run: seq<World>, events: seq<Event>, s: Stream, n: nat)
    requires n <= |events| && n <= |run|
  {
    forall j :: 0 <= j < n && Sees(run, events, s, j) ==> !NoResets(run, events, s, j, n)
  }

  /** Pass `i` was the first to see the backlog that is still there before step `n`. */
  predicate Began(run: seq<World>, events: seq<Event>, s: Stream, i: nat, n: nat)
    requires n <= |events| && n <= |run|
  {
    i < n && Sees(run, events, s, i) && NoResets(run, events, s, i, n) && Unseen(run, events, s, i)
  }

  /** The clock of one stream. */
  function Clock(run: seq<World>, s: Stream, n: nat): nat
    requires n < |run|
  {
    run[n].u.pendingSince.Get(s)
  }

  lemma PassClock(u: UplinkState, cfg: Config, now: nat, jitter: real, s: Stream)
    ensures ServiceOnce(u, cfg, now, jitter).0.pendingSince.Get(s) == Since(u, s, now)
  {
  }

  lemma ClockStep(cfg: Config, run: seq<World>, events: seq<Event>, n: nat, s: Stream)
    requires Run(cfg, run, events) && n < |events|
    ensures Clock(run, s, n + 1) ==
              if Resets(run, events, s, n) then 0
              else if Sees(run, events, s, n) && Clock(run, s, n) == 0 then events[n].now
              else Clock(run, s, n)
  {
    assert StepAt(cfg, run, events, n);
    PendingIff(cfg, run, events, n, s);
    match events[n]
    case Pass(now, jitter) => PassClock(run[n].u, cfg, now, jitter, s);
    case PowerCut(_) =>
    case Local(_, _) =>
    case AckArrives(_, _) =>
  }

  /**
   * At every moment of every run the backlog clock is 0 when no pass has seen
   * anything since the stream was last found empty or power was last cut, and
   * otherwise the time of the first pass that has.
   */
  lemma {:induction false} ClockIs(cfg: Config, run: seq<World>, events: seq<Event>, n: nat, s: Stream)
    requires Run(cfg, run, events) && n <= |events|
    ensures Clock(run, s, n) == 0 <==> Unseen(run, events, s, n)
    ensures Clock(run, s, n) > 0 ==>
              exists i: nat :: Began(run, events, s, i, n) && events[i].now == Clock(run, s, n)
  {
    if n == 0 {
    } else {
      ClockIs(cfg, run, events, n - 1, s);
      ClockStep(cfg, run, events, n - 1, s);
      if Resets(run, events, s, n - 1) {
        assert forall j :: 0 <= j < n && Sees(run, events, s, j) ==> !NoResets(run, events, s, j, n);
      } else if Clock(run, s, n - 1) > 0 {
        var i: nat :| Began(run, events, s, i, n - 1) && events[i].now == Clock(run, s, n - 1);
        assert Began(run, events, s, i, n);
      } else if Sees(run, events, s, n - 1) {
        assert Began(run, events, s, n - 1, n);
      } else {
        StaysUnseen(run, events, s, n - 1);
      }
    }
  }

  lemma StaysUnseen(run: seq<World>, events: seq<Event>, s: Stream, n: nat)
    requires n < |events| && n < |run| && Unseen(run, events, s, n) && !Sees(run, events, s, n)
    ensures Unseen(run, events, s, n + 1)
  {
    forall j | 0 <= j < n + 1 && Sees(run, events, s, j)
      ensures !NoResets(run, events, s, j, n + 1)
    {
      assert !NoResets(run, events, s, j, n);
    }
  }

  // ---- what the quotas promise ----

  /** The uptime does not go back while the device is up. */
  predicate TimesRise(events: seq<Event>) {
    forall i, j :: 0 <= i <= j < |events| && events[i].Pass? && events[j].Pass? && NoCut(events, i, j) ==>
      events[i].now <= events[j].now
  }

  predicate NoCut(events: seq<Event>, i: nat, j: nat)
    requires j <= |events|
  {
    forall k :: i <= k < j ==> !events[k].PowerCut?
  }

  /** Once a pass has seen the backlog, the clock holds that time or an earlier one until the next reset. */
  lemma ClockHasStarted(cfg: Config, run: seq<World>, events: seq<Event>, i: nat, n: nat, s: Stream)
    requires Run(cfg, run, events) && TimesRise(events) && i < n <= |events|
    requires Sees(run, events, s, i) && NoResets(run, events, s, i, n)
    ensures 0 < Clock(run, s, n) <= events[i].now
  {
    ClockIs(cfg, run, events, n, s);
    assert !Unseen(run, events, s, n);
    var f: nat :| Began(run, events, s, f, n) && events[f].now == Clock(run, s, n);
    assert i < f ==> NoResets(run, events, s, i, f);
    forall k | f <= k < i
      ensures !events[k].PowerCut?
    {
      assert !Resets(run, events, s, k);
    }
    assert NoCut(events, f, i);
  }

  /** Seen by pass `i` and never found empty since, the stream has waited its quota by pass `n`. */
  ghost predicate HasWaited(run: seq<World>, events: seq<Event>, s: Stream, i: nat, n: nat, quota: nat)
    requires n < |events| && |run| == |events| + 1
  {
    && i < n && Sees(run, events, s, i) && NoResets(run, events, s, i, n)
    && events[n].Pass? && events[i].now + quota <= events[n].now <= MAX_U64
  }

  lemma WaitedIsLong(cfg: Config, run: seq<World>, events: seq<Event>, s: Stream, i: nat, n: nat, quota: nat)
    requires Run(cfg, run, events) && TimesRise(events) && n < |events| && HasWaited(run, events, s, i, n, quota)
    requires Waits(run[n].u, s)
    ensures WaitsLong(run[n].u, s, events[n].now, quota)
  {
    ClockHasStarted(cfg, run, events, i, n, s);
    var since := Clock(run, s, n);
    assert (events[n].now - since) % 0x1_0000_0000_0000_0000 == events[n].now - since;
  }

  /** Two passes with none, and no power cut, in between. */
  predicate NextPass(events: seq<Event>, a: nat, b: nat) {
    && a < b < |events| && events[a].Pass? && events[b].Pass?
    && forall k :: a < k < b ==> !events[k].Pass? && !events[k].PowerCut?
  }

  lemma {:induction false} BetweenPasses(cfg: Config, run: seq<World>, events: seq<Event>, a: nat, n: nat)
    requires Run(cfg, run, events) && a <= n <= |events|
    requires forall k :: a <= k < n ==> !events[k].Pass? && !events[k].PowerCut?
    ensures Between(run[a].u, run[n].u)
  {
    if n == a {
    } else {
      BetweenPasses(cfg, run, events, a, n - 1);
      assert StepAt(cfg, run, events, n - 1);
    }
  }

  /** The pass at `n` publishes something of the stream. */
  predicate ServesAt(cfg: Config, run: seq<World>, events: seq<Event>, s: Stream, n: nat)
    requires n < |events| && n < |run|
  {
    exists m :: m in Sent(run[n].u, cfg, events[n]) && m.stream == s
  }

  /** Nothing of the stream is in flight, flash holds what it waits for, and starved Data does not go before Logs. */
  ghost predicate Stands(cfg: Config, run: seq<World>, events: seq<Event>, s: Stream, n: nat)
    requires n < |events| && n < |run| && events[n].Pass?
  {
    var u := run[n].u;
    && Waits(u, s) && IsHeld(u.streams.Get(s), Wanted(u.streams.Get(s)))
    && (s == Logs ==> !WaitsLong(u, Data, events[n].now, cfg.dataStarvationMs))
  }

  function Quota(cfg: Config, s: Stream): nat { if s == Data then cfg.dataStarvationMs else cfg.logsStarvationMs }

  lemma StandsIsServed(cfg: Config, run: seq<World>, events: seq<Event>, s: Stream, i: nat, n: nat)
    requires Run(cfg, run, events) && TimesRise(events) && (s == Data || s == Logs) && n < |events|
    requires HasWaited(run, events, s, i, n, Quota(cfg, s)) && Stands(cfg, run, events, s, n)
    ensures CanBeServed(run[n].u, cfg, events[n].now, s)
  {
    WaitedIsLong(cfg, run, events, s, i, n, Quota(cfg, s));
    UplinkFollowsProtocol(cfg, run, events, n, s);
  }

  lemma WaitsOn(cfg: Config, run: seq<World>, events: seq<Event>, s: Stream, i: nat, a: nat, b: nat)
    requires Run(cfg, run, events) && TimesRise(events) && NextPass(events, a, b) && Waits(run[a].u, s)
    requires HasWaited(run, events, s, i, a, Quota(cfg, s)) && events[b].now <= MAX_U64
    ensures HasWaited(run, events, s, i, b, Quota(cfg, s))
  {
    assert NoCut(events, a, b);
    forall k | i <= k < b
      ensures !Resets(run, events, s, k)
    {
      assert k < a || k == a || a < k < b;
    }
  }

  /**
   * In every run a Data or Logs backlog that was seen its quota ago, and has not been
   * found empty since, is served by the next three passes of one window: Data
   * whatever the other streams do, Logs unless Data has itself waited its quota.
   */
  lemma StarvedIsServed(cfg: Config, run: seq<World>, events: seq<Event>, s: Stream, i: nat, n1: nat, n2: nat, n3: nat)
    requires Run(cfg, run, events) && TimesRise(events) && (s == Data || s == Logs)
    requires NextPass(events, n1, n2) && NextPass(events, n2, n3)
    requires events[n3].now < events[n1].now + Window(cfg) && events[n3].now <= MAX_U64
    requires HasWaited(run, events, s, i, n1, Quota(cfg, s)) && Stands(cfg, run, events, s, n1)
    requires ServesAt(cfg, run, events, s, n1) || Stands(cfg, run, events, s, n2)
    requires ServesAt(cfg, run, events, s, n1) || ServesAt(cfg, run, events, s, n2) || Stands(cfg, run, events, s, n3)
    ensures exists n :: n1 <= n <= n3 && ServesAt(cfg, run, events, s, n)
  {
    var t1, t2, t3 := events[n1].now, events[n2].now, events[n3].now;
    var u1, u2, u3 := run[n1].u, run[n2].u, run[n3].u;
    assert NoCut(events, n1, n2) && NoCut(events, n2, n3);
    StandsIsServed(cfg, run, events, s, i, n1);
    if !ServesAt(cfg, run, events, s, n1) {
      WaitsOn(cfg, run, events, s, i, n1, n2);
      StandsIsServed(cfg, run, events, s, i, n2);
      PassThenBetween(cfg, run, events, n1, n2);
      if !ServesAt(cfg, run, events, s, n2) {
        WaitsOn(cfg, run, events, s, i, n2, n3);
        StandsIsServed(cfg, run, events, s, i, n3);
        PassThenBetween(cfg, run, events, n2, n3);
      }
    }
    ServedIsServedAt(cfg, run, events, s, n1);
    ServedIsServedAt(cfg, run, events, s, n2);
    ServedIsServedAt(cfg, run, events, s, n3);
    ServedWithinThreePasses(cfg, s, u1, u2, u3, t1, t2, t3,
                            events[n1].jitter, events[n2].jitter, events[n3].jitter);
  }

  lemma ServedIsServedAt(cfg: Config, run: seq<World>, events: seq<Event>, s: Stream, n: nat)
    requires n < |events| && n < |run| && events[n].Pass?
    ensures ServesAt(cfg, run, events, s, n) <==> Serves(ServiceOnce(run[n].u, cfg, events[n].now, events[n].jitter), s)
  {
    var r := ServiceOnce(run[n].u, cfg, events[n].now, events[n].jitter);
    if Serves(r, s) {
      assert r.1.value in Sent(run[n].u, cfg, events[n]);
    }
  }

  lemma PassThenBetween(cfg: Config, run: seq<World>, events: seq<Event>, a: nat, b: nat)
    requires Run(cfg, run, events) && NextPass(events, a, b)
    ensures Between(ServiceOnce(run[a].u, cfg, events[a].now, events[a].jitter).0, run[b].u)
  {
    assert StepAt(cfg, run, events, a);
    BetweenPasses(cfg, run, events, a + 1, b);
  }

  /**
   * What Logs is not promised: Data that waited its quota goes first at every pass
   * with no retry due, however often it has been served since, for its clock only
   * restarts when it is found empty. Logs that has waited its quota goes exactly
   * when Data does not.
   */
  lemma StarvedLogsGoIff(cfg: Config, run: seq<World>, events: seq<Event>, i: nat, n: nat)
    requires Run(cfg, run, events) && TimesRise(events) && n < |events|
    requires HasWaited(run, events, Logs, i, n, cfg.logsStarvationMs) && Waits(run[n].u, Logs)
    requires NothingDue(run[n].u, events[n].now)
    ensures Pick(run[n].u, cfg, events[n].now)
            == Some(if WaitsLong(run[n].u, Data, events[n].now, cfg.dataStarvationMs) then Data else Logs)
  {
    WaitedIsLong(cfg, run, events, Logs, i, n, cfg.logsStarvationMs);
    PickTable(run[n].u, cfg, events[n].now, Data);
    PickTable(run[n].u, cfg, events[n].now, Logs);
  }
}
