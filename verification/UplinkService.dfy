/**
 * When a pass of the uplink task has something to send, and from whom, in terms of
 * what is unacked and what is in flight.
 */
module UplinkService {
  import opened Wrappers
  import opened JournalCursor
  import opened JournalTypes
  import opened JournalInvariant
  import opened JournalReading
  import opened RetentionRuns
  import opened UplinkScheduler
  import opened RetryPolicy
  import opened UplinkSteps
  import opened UplinkProperties

  /** Some record has not been acked. */
  predicate Unacked(u: UplinkState, s: Stream) {
    FirstUnacked(u.streams.Get(s).cursor) < u.streams.Get(s).cursor.nextSeq
  }

  /** Nothing of the stream is in flight, and some record has not been acked. */
  predicate Waits(u: UplinkState, s: Stream) { !u.slots.Get(s).active && Unacked(u, s) }

  /** It has waited this long by its backlog clock, in 64-bit arithmetic; a clock not yet set counts from now. */
  predicate WaitsLong(u: UplinkState, s: Stream, now: nat, quota: nat) {
    var since := if u.pendingSince.Get(s) == 0 then now else u.pendingSince.Get(s);
    Waits(u, s) && (now - since) % 0x1_0000_0000_0000_0000 >= quota
  }

  predicate NothingDue(u: UplinkState, now: nat) { !Due(u, Events, now) && !Due(u, Logs, now) && !Due(u, Data, now) }

  /** Whose turn it is when no retry is due: starved Data, starved Logs, Events, Logs, Data. */
  predicate Turn(u: UplinkState, cfg: Config, now: nat, s: Stream) {
    var dataLong := WaitsLong(u, Data, now, cfg.dataStarvationMs);
    var logsLong := WaitsLong(u, Logs, now, cfg.logsStarvationMs);
    && Waits(u, s)
    && (match s
        case Events => !dataLong && !logsLong
        case Logs => !dataLong && (logsLong || !Waits(u, Events))
        case Data => dataLong || (!Waits(u, Logs) && !Waits(u, Events)))
  }

  /** The whole order of service: the first due retry in the order Events, Logs, Data, else whose turn it is. */
  lemma PickTable(u: UplinkState, cfg: Config, now: nat, s: Stream)
    ensures Pick(u, cfg, now) == Some(s) <==>
              || (Due(u, s, now) && forall t: Stream :: Due(u, t, now) ==> Rank(s) <= Rank(t))
              || (NothingDue(u, now) && Turn(u, cfg, now, s))
  {
    FindBacklog(u, now, Events);
    FindBacklog(u, now, Logs);
    FindBacklog(u, now, Data);
    assert Rank(Events) == 0 && Rank(Logs) == 1 && Rank(Data) == 2;
  }

  /** Somebody is served exactly when a retry is due or somebody idle has something unacked. */
  lemma SomebodyIsServedIff(u: UplinkState, cfg: Config, now: nat)
    ensures Pick(u, cfg, now).Some? <==> exists s: Stream :: Due(u, s, now) || Waits(u, s)
  {
    PickTable(u, cfg, now, Events);
    PickTable(u, cfg, now, Logs);
    PickTable(u, cfg, now, Data);
    if s: Stream :| Due(u, s, now) || Waits(u, s) {
      match s
      case Logs =>
      case Events =>
      case Data =>
    }
  }

  /** Serving an idle stream publishes from its first unacked record on, exactly when flash holds it. */
  lemma ServesIdle(u: UplinkState, cfg: Config, now: nat, jitter: real, s: Stream)
    requires Pick(u, cfg, now) == Some(s) && !u.slots.Get(s).active
    requires Consistent(u.streams.Get(s)) && cfg.lim.maxRecords > 0 && cfg.lim.maxBytes > 0
    ensures var sent, st := ServiceOnce(u, cfg, now, jitter).1, u.streams.Get(s);
            && Waits(u, s)
            && (sent.Some? <==> IsHeld(st, Wanted(st)))
            && (sent.Some? ==> sent.value.stream == s && sent.value.firstSeq == Wanted(st) && sent.value.count > 0)
  {
    PickTable(u, cfg, now, s);
    PickedChanges(u, cfg, now, jitter, s);
    var st := u.streams.Get(s);
    var run, recs := ReadFromSpec(st, FirstUnacked(st.cursor), cfg.lim);
  }

  /** With nothing in flight, a pass publishes whenever somebody waits and the records they wait for are held. */
  lemma IdlePassPublishes(u: UplinkState, cfg: Config, now: nat, jitter: real)
    requires forall s: Stream :: !u.slots.Get(s).active && Consistent(u.streams.Get(s))
    requires cfg.lim.maxRecords > 0 && cfg.lim.maxBytes > 0
    requires forall s: Stream :: Unacked(u, s) ==> IsHeld(u.streams.Get(s), Wanted(u.streams.Get(s)))
    ensures var sent := ServiceOnce(u, cfg, now, jitter).1;
            && (sent.Some? <==> exists s: Stream :: Unacked(u, s))
            && (sent.Some? ==> Unacked(u, sent.value.stream) && sent.value.count > 0
                               && sent.value.firstSeq == Wanted(u.streams.Get(sent.value.stream)))
  {
    SomebodyIsServedIff(u, cfg, now);
    assert forall s: Stream :: Waits(u, s) <==> Unacked(u, s);
    var pick := Pick(u, cfg, now);
    if pick.Some? {
      ServesIdle(u, cfg, now, jitter, pick.value);
    }
  }

  lemma LoneIsPicked(u: UplinkState, cfg: Config, now: nat, s: Stream)
    requires NothingDue(u, now) && Waits(u, s) && forall t: Stream :: t != s ==> !Waits(u, t)
    ensures Pick(u, cfg, now) == Some(s)
  {
    PickTable(u, cfg, now, s);
    assert s != Logs ==> !Waits(u, Logs);
    assert s != Events ==> !Waits(u, Events);
    assert s != Data ==> !Waits(u, Data);
  }

  /** A lone waiting stream is served at once, whatever its clock says. */
  lemma LoneStreamIsServed(u: UplinkState, cfg: Config, now: nat, jitter: real, s: Stream)
    requires (forall t: Stream :: !u.slots.Get(t).active) && (forall t: Stream :: Unacked(u, t) <==> t == s)
    requires Consistent(u.streams.Get(s)) && IsHeld(u.streams.Get(s), Wanted(u.streams.Get(s)))
    requires cfg.lim.maxRecords > 0 && cfg.lim.maxBytes > 0
    ensures var sent := ServiceOnce(u, cfg, now, jitter).1;
            && sent.Some? && sent.value.stream == s && sent.value.count > 0
            && sent.value.firstSeq == Wanted(u.streams.Get(s))
  {
    assert NothingDue(u, now) && Waits(u, s);
    LoneIsPicked(u, cfg, now, s);
    ServesIdle(u, cfg, now, jitter, s);
  }

  // ---- bounded wait ----

  /** The slot can not be due before `t`. */
  predicate QuietUntil(u: UplinkState, s: Stream, t: nat) {
    u.slots.Get(s).active ==> u.slots.Get(s).nextSendDueMs >= t
  }

  /** The shortest wait the retry schedule ever sets. */
  function Window(cfg: Config): nat { Min(cfg.ackTimeoutMs, cfg.backoffCapMs) }

  lemma BackoffAtLeastWindow(attempt: nat, cfg: Config)
    ensures Backoff(attempt, cfg.ackTimeoutMs, cfg.backoffCapMs) >= Window(cfg)
  {
    PowGrows(cfg.ackTimeoutMs, 0, if attempt == 0 then 0 else attempt - 1);
    assert Pow2(0) == 1;
  }

  /** It is the stream's turn and flash holds what it waits for. */
  ghost predicate CanBeServed(u: UplinkState, cfg: Config, now: nat, s: Stream) {
    Turn(u, cfg, now, s) && Consistent(u.streams.Get(s)) && IsHeld(u.streams.Get(s), Wanted(u.streams.Get(s)))
  }

  predicate Serves(r: (UplinkState, Option<Published>), s: Stream) { r.1.Some? && r.1.value.stream == s }

  /**
   * A pass in the stream's turn sends it, or services a due retry of another stream
   * which is then freed or pushed a whole window ahead; no other slot changes.
   */
  lemma PassServesTurnOrRetry(u: UplinkState, cfg: Config, now: nat, jitter: real, s: Stream) returns (t: Stream)
    requires CanBeServed(u, cfg, now, s) && cfg.lim.maxRecords > 0 && cfg.lim.maxBytes > 0
    ensures var r := ServiceOnce(u, cfg, now, jitter);
            Serves(r, s)
            || (&& t != s && Due(u, t, now) && QuietUntil(r.0, t, now + Window(cfg))
                && forall o: Stream :: o != t ==> r.0.slots.Get(o) == u.slots.Get(o))
  {
    SomebodyIsServedIff(u, cfg, now);
    assert Waits(u, s);
    t := Pick(u, cfg, now).value;
    PickTable(u, cfg, now, t);
    PickTable(u, cfg, now, s);
    if t == s {
      ServesIdle(u, cfg, now, jitter, s);
    } else {
      assert Due(u, t, now);
      PickedChanges(u, cfg, now, jitter, t);
      BackoffAtLeastWindow(u.slots.Get(t).attempt + 1, cfg);
      RetryTouchesOnlyItsSlot(u, cfg, now, jitter, t);
    }
  }

  lemma RetryTouchesOnlyItsSlot(u: UplinkState, cfg: Config, now: nat, jitter: real, s: Stream)
    requires Pick(u, cfg, now) == Some(s) && u.slots.Get(s).active
    ensures forall o: Stream :: o != s ==> ServiceOnce(u, cfg, now, jitter).0.slots.Get(o) == u.slots.Get(o)
  {
  }

  /** Between two passes acks may free slots, and the journals may change in any way. */
  predicate Between(u: UplinkState, v: UplinkState) {
    && (v.slots.events == u.slots.events || !v.slots.events.active)
    && (v.slots.logs == u.slots.logs || !v.slots.logs.active)
    && (v.slots.data == u.slots.data || !v.slots.data.active)
  }

  lemma QuietStays(u: UplinkState, v: UplinkState, s: Stream, t: nat)
    requires Between(u, v) && QuietUntil(u, s, t)
    ensures QuietUntil(v, s, t)
  {
  }

  /** Two streams are quiet, so a pass serves the third. */
  lemma LastPass(cfg: Config, s: Stream, u: UplinkState, t: nat, jitter: real, s1: Stream, s2: Stream)
    requires CanBeServed(u, cfg, t, s) && cfg.lim.maxRecords > 0 && cfg.lim.maxBytes > 0
    requires s1 != s && s2 != s && s1 != s2 && !Due(u, s1, t) && !Due(u, s2, t)
    ensures Serves(ServiceOnce(u, cfg, t, jitter), s)
  {
    var s3 := PassServesTurnOrRetry(u, cfg, t, jitter, s);
    assert s3 == s1 || s3 == s2 || s3 == s;
  }

  /** One stream is quiet, so a pass that does not serve `s` makes another one quiet too. */
  lemma MiddlePass(cfg: Config, s: Stream, u: UplinkState, t: nat, jitter: real, s1: Stream, v: UplinkState, end: nat)
    returns (s2: Stream)
    requires CanBeServed(u, cfg, t, s) && cfg.lim.maxRecords > 0 && cfg.lim.maxBytes > 0
    requires s1 != s && QuietUntil(u, s1, end) && t < end <= t + Window(cfg)
    requires !Serves(ServiceOnce(u, cfg, t, jitter), s) && Between(ServiceOnce(u, cfg, t, jitter).0, v)
    ensures s2 != s1 && s2 != s && QuietUntil(v, s1, end) && QuietUntil(v, s2, end)
  {
    var r := ServiceOnce(u, cfg, t, jitter).0;
    s2 := PassServesTurnOrRetry(u, cfg, t, jitter, s);
    assert r.slots.Get(s1) == u.slots.Get(s1);
    QuietStays(r, v, s1, end);
    QuietStays(r, v, s2, end);
  }

  /**
   * Bounded wait: three passes within one window, with any acks and appends in
   * between, are enough for a stream whose turn it is at each of them.
   */
  lemma ServedWithinThreePasses(cfg: Config, s: Stream, u1: UplinkState, u2: UplinkState, u3: UplinkState,
                                t1: nat, t2: nat, t3: nat, j1: real, j2: real, j3: real)
    requires cfg.lim.maxRecords > 0 && cfg.lim.maxBytes > 0 && t1 <= t2 <= t3 < t1 + Window(cfg)
    requires CanBeServed(u1, cfg, t1, s)
    requires Serves(ServiceOnce(u1, cfg, t1, j1), s)
             || (Between(ServiceOnce(u1, cfg, t1, j1).0, u2) && CanBeServed(u2, cfg, t2, s))
    requires Serves(ServiceOnce(u1, cfg, t1, j1), s) || Serves(ServiceOnce(u2, cfg, t2, j2), s)
             || (Between(ServiceOnce(u2, cfg, t2, j2).0, u3) && CanBeServed(u3, cfg, t3, s))
    ensures Serves(ServiceOnce(u1, cfg, t1, j1), s) || Serves(ServiceOnce(u2, cfg, t2, j2), s)
         || Serves(ServiceOnce(u3, cfg, t3, j3), s)
  {
    var r1, r2 := ServiceOnce(u1, cfg, t1, j1), ServiceOnce(u2, cfg, t2, j2);
    var s1 := PassServesTurnOrRetry(u1, cfg, t1, j1, s);
    if !Serves(r1, s) {
      QuietStays(r1.0, u2, s1, t1 + Window(cfg));
      if !Serves(r2, s) {
        var s2 := MiddlePass(cfg, s, u2, t2, j2, s1, u3, t1 + Window(cfg));
        LastPass(cfg, s, u3, t3, j3, s1, s2);
      }
    }
  }
}
