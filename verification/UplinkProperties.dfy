/**
 * What the uplink passes add up to: each is a step of the per-stream protocol, and a
 * batch in flight follows the retry schedule.
 */
module UplinkProperties {
  import opened Wrappers
  import opened JournalCursor
  import opened JournalTypes
  import opened JournalSteps
  import opened UplinkScheduler
  import opened RetryPolicy
  import opened UplinkSteps
  import P = Protocol

  // ---- the picked stream ----

  lemma FindBacklog(u: UplinkState, now: nat, s: Stream)
    ensures Find(Backlogs(u, now), s) == Some(Backlog(u, s, now))
  {
    var bs := Backlogs(u, now);
    assert bs[1..] == [Backlog(u, Logs, now), Backlog(u, Data, now)];
    assert bs[1..][1..] == [Backlog(u, Data, now)];
  }

  /** A slot's retry is due. */
  predicate Due(u: UplinkState, s: Stream, now: nat) {
    u.slots.Get(s).active && now >= u.slots.Get(s).nextSendDueMs
  }

  /** The stream has something to send and nothing in flight. */
  predicate Fresh(u: UplinkState, s: Stream) { !u.slots.Get(s).active && HasPending(u, s) }

  lemma PickIs(u: UplinkState, cfg: Config, now: nat)
    ensures var pick := Pick(u, cfg, now);
            && (pick.Some? ==> Due(u, pick.value, now) || Fresh(u, pick.value))
            && (pick.Some? && Fresh(u, pick.value) ==> !Due(u, Events, now) && !Due(u, Logs, now) && !Due(u, Data, now))
  {
    FindBacklog(u, now, Events);
    FindBacklog(u, now, Logs);
    FindBacklog(u, now, Data);
  }

  // ---- refinement of the protocol ----

  /** The slot holds the protocol's in-flight batch, and the journal is the protocol's stream. */
  ghost predicate Represents(u: UplinkState, s: Stream, y: P.System) {
    var slot := u.slots.Get(s);
    && u.streams.Get(s) == y.st
    && (slot.active <==> y.slot.Some?)
    && (slot.active ==> RawBatch(slot.firstSeq, slot.count, slot.frames)
                        == RawBatch(y.slot.value.firstSeq, |y.slot.value.records|, Flatten(y.slot.value.records)))
  }

  /** The published message is a batch the protocol counts as sent. */
  ghost predicate PublishesSent(sent: Option<Published>, s: Stream, y: P.System) {
    sent.Some? && sent.value.stream == s ==>
      exists b :: b in y.sent && sent.value == Published(s, b.firstSeq, |b.records|, Flatten(b.records))
  }

  /** The protocol event a pass amounts to for one stream, if any. */
  function EventOf(u: UplinkState, cfg: Config, now: nat, s: Stream): Option<P.Event> {
    if Pick(u, cfg, now) != Some(s) then None
    else if !u.slots.Get(s).active then Some(P.Send(cfg.lim))
    else if now < u.slots.Get(s).nextSendDueMs then None
    else if ShouldGiveUp(u.slots.Get(s).attempt + 1, cfg.maxAttempts) then Some(P.GiveUp)
    else Some(P.Resend)
  }

  /** For a stream that was not picked a pass changes nothing but its backlog clock. */
  lemma UnpickedUnchanged(u: UplinkState, cfg: Config, now: nat, jitter: real, s: Stream)
    requires Pick(u, cfg, now) != Some(s)
    ensures var r := ServiceOnce(u, cfg, now, jitter);
            && r.0.slots.Get(s) == u.slots.Get(s) && r.0.streams.Get(s) == u.streams.Get(s)
            && (r.1.Some? ==> r.1.value.stream != s)
  {
  }

  /** What a pass does to the picked stream. */
  lemma PickedChanges(u: UplinkState, cfg: Config, now: nat, jitter: real, s: Stream)
    requires Pick(u, cfg, now) == Some(s)
    ensures var r, slot, st := ServiceOnce(u, cfg, now, jitter), u.slots.Get(s), u.streams.Get(s);
            if slot.active then
              && now >= slot.nextSendDueMs
              && r.0.slots.Get(s) == Retried(slot, cfg, now, jitter) && r.0.streams.Get(s) == st
              && r.1 == (if Retried(slot, cfg, now, jitter).active then Some(PublishedSlot(s, slot)) else None)
            else
              var read := ReadFrom(st, FirstUnacked(st.cursor), cfg.lim);
              && r.0.streams.Get(s) == read.0
              && (read.1.None? ==> r.0.slots.Get(s) == slot && r.1 == None)
              && (read.1.Some? ==>
                    var next := FreshSlot(read.1.value, cfg, now);
                    r.0.slots.Get(s) == next && r.1 == Some(PublishedSlot(s, next)))
  {
    PickIs(u, cfg, now);
  }

  /** Every pass is, for every stream, one protocol event or none. */
  lemma PassIsProtocolStep(u: UplinkState, cfg: Config, now: nat, jitter: real, s: Stream, y: P.System)
    requires P.Inv(s, y) && Represents(u, s, y) && cfg.lim.maxRecords > 0 && cfg.lim.maxBytes > 0
    ensures var r, e := ServiceOnce(u, cfg, now, jitter), EventOf(u, cfg, now, s);
            if e.None? then Represents(r.0, s, y) && (r.1.Some? ==> r.1.value.stream != s)
            else
              && P.Enabled(s, y, e.value)
              && Represents(r.0, s, P.Apply(s, y, e.value))
              && PublishesSent(r.1, s, P.Apply(s, y, e.value))
  {
    if Pick(u, cfg, now) != Some(s) {
      UnpickedUnchanged(u, cfg, now, jitter, s);
    } else {
      PickedChanges(u, cfg, now, jitter, s);
      var st := u.streams.Get(s);
      if u.slots.Get(s).active {
        assert y.slot.value in y.sent;
      } else if ReadFrom(st, FirstUnacked(st.cursor), cfg.lim).1.Some? {
        P.ReadStep(y.st, cfg.lim);
      }
    }
  }

  /** Handling an ack is the protocol's ack event for its stream and nothing for the others. */
  lemma AckIsProtocolStep(u: UplinkState, s: Stream, upTo: nat, t: Stream, y: P.System)
    requires P.Inv(t, y) && Represents(u, t, y) && (t == s ==> upTo in y.acks)
    ensures Represents(OnAck(u, s, upTo), t, if t == s then P.Apply(s, y, P.ReceiveAck(upTo)) else y)
  {
  }

  // ---- retry schedule ----

  /** What happens to one stream's slot. */
  datatype SlotEvent =
    | Pass(u: UplinkState, now: nat, jitter: real)
    | AckArrives(upTo: nat)

  /** A slot with the transmissions of its current batch and the due times set after each. */
  datatype Life = Life(slot: Slot, published: seq<Published>, times: seq<int>, dues: seq<int>)

  /** The slot's next value and, for a pass, what it published for this stream. */
  function SlotAfter(s: Stream, cfg: Config, slot: Slot, e: SlotEvent): (Slot, Option<Published>) {
    match e
    case Pass(u, now, jitter) =>
      var r := ServiceOnce(u, cfg, now, jitter);
      (r.0.slots.Get(s), if r.1.Some? && r.1.value.stream == s then r.1 else None)
    case AckArrives(upTo) => (if slot.active && upTo + 1 >= slot.firstSeq then slot.(active := false) else slot, None)
  }

  predicate Applies(s: Stream, l: Life, e: SlotEvent) { e.Pass? ==> e.u.slots.Get(s) == l.slot }

  /** A transmission from an idle slot starts a new life; one from a busy slot continues it. */
  function LifeAfter(s: Stream, cfg: Config, l: Life, e: SlotEvent): Life {
    var (slot, sent) := SlotAfter(s, cfg, l.slot, e);
    if sent.None? then Life(slot, l.published, l.times, l.dues)
    else if l.slot.active then Life(slot, l.published + [sent.value], l.times + [e.now], l.dues + [slot.nextSendDueMs])
    else Life(slot, [sent.value], [e.now], [slot.nextSendDueMs])
  }

  /** The wait scheduled after the k-th transmission of a batch. */
  predicate GapOk(cfg: Config, k: nat, gap: int) {
    if k <= 1 then gap == cfg.ackTimeoutMs
    else Backoff(k, cfg.ackTimeoutMs, cfg.backoffCapMs) <= gap <= 2 * Backoff(k, cfg.ackTimeoutMs, cfg.backoffCapMs)
  }

  /**
   * While the slot is active: every transmission repeated its batch, there have
   * been `attempt` of them and fewer than the limit, none came before it was due,
   * and the wait after the k-th was the backoff for k.
   */
  ghost predicate LifeOk(s: Stream, cfg: Config, l: Life) {
    l.slot.active ==>
      && |l.published| == |l.times| == |l.dues| == l.slot.attempt >= 1
      && (l.slot.attempt < cfg.maxAttempts || l.slot.attempt == 1)
      && l.dues[|l.dues| - 1] == l.slot.nextSendDueMs
      && (forall k :: 0 <= k < |l.published| ==> l.published[k] == PublishedSlot(s, l.slot))
      && (forall k :: 0 <= k < |l.times| ==> GapOk(cfg, k + 1, l.dues[k] - l.times[k]))
      && (forall j, k :: 0 <= j < k < |l.times| && k == j + 1 ==> l.times[k] >= l.dues[j])
  }

  lemma RetryGap(s: Stream, cfg: Config, slot: Slot, now: nat, jitter: real)
    requires slot.active && slot.attempt >= 1 && Retried(slot, cfg, now, jitter).active
    ensures var next := Retried(slot, cfg, now, jitter);
            && next.attempt == slot.attempt + 1 < cfg.maxAttempts
            && PublishedSlot(s, next) == PublishedSlot(s, slot)
            && GapOk(cfg, next.attempt, next.nextSendDueMs - now)
  {
  }

  lemma ContinuedLife(s: Stream, cfg: Config, l: Life, now: nat, jitter: real)
    requires LifeOk(s, cfg, l) && l.slot.active && now >= l.slot.nextSendDueMs
    requires Retried(l.slot, cfg, now, jitter).active
    ensures var next := Retried(l.slot, cfg, now, jitter);
            LifeOk(s, cfg, Life(next, l.published + [PublishedSlot(s, l.slot)], l.times + [now],
                                l.dues + [next.nextSendDueMs]))
  {
    var next := Retried(l.slot, cfg, now, jitter);
    RetryGap(s, cfg, l.slot, now, jitter);
    LongerLife(s, cfg, l, Life(next, l.published + [PublishedSlot(s, l.slot)], l.times + [now],
                               l.dues + [next.nextSendDueMs]), now);
  }

  lemma LongerLife(s: Stream, cfg: Config, l: Life, m: Life, now: nat)
    requires LifeOk(s, cfg, l) && l.slot.active && now >= l.slot.nextSendDueMs
    requires m.slot.active && m.slot.attempt == l.slot.attempt + 1 < cfg.maxAttempts
             && PublishedSlot(s, m.slot) == PublishedSlot(s, l.slot)
    requires m.published == l.published + [PublishedSlot(s, l.slot)] && m.times == l.times + [now]
    requires m.dues == l.dues + [m.slot.nextSendDueMs] && GapOk(cfg, m.slot.attempt, m.slot.nextSendDueMs - now)
    ensures LifeOk(s, cfg, m)
  {
    var n := |l.times|;
    forall k | 0 <= k < |m.times|
      ensures GapOk(cfg, k + 1, m.dues[k] - m.times[k])
    {
      if k < n {
        assert GapOk(cfg, k + 1, l.dues[k] - l.times[k]);
      }
    }
    forall j, k | 0 <= j < k < |m.times| && k == j + 1
      ensures m.times[k] >= m.dues[j]
    {
      if k < n {
        assert l.times[k] >= l.dues[j];
      }
    }
  }

  lemma LifeStep(s: Stream, cfg: Config, l: Life, e: SlotEvent)
    requires LifeOk(s, cfg, l) && Applies(s, l, e)
    ensures LifeOk(s, cfg, LifeAfter(s, cfg, l, e))
  {
    match e
    case AckArrives(_) =>
    case Pass(u, now, jitter) =>
      if Pick(u, cfg, now) != Some(s) {
        UnpickedUnchanged(u, cfg, now, jitter, s);
      } else {
        PickedChanges(u, cfg, now, jitter, s);
        var (slot, sent) := SlotAfter(s, cfg, l.slot, e);
        if l.slot.active && sent.Some? {
          ContinuedLife(s, cfg, l, now, jitter);
        }
      }
  }

  predicate AllApply(s: Stream, cfg: Config, l: Life, events: seq<SlotEvent>)
    decreases |events|
  {
    |events| > 0 ==> Applies(s, l, events[0]) && AllApply(s, cfg, LifeAfter(s, cfg, l, events[0]), events[1..])
  }

  function LifeOf(s: Stream, cfg: Config, l: Life, events: seq<SlotEvent>): Life
    decreases |events|
  {
    if |events| == 0 then l else LifeOf(s, cfg, LifeAfter(s, cfg, l, events[0]), events[1..])
  }

  /** The retry schedule holds along every sequence of passes and acks, whatever the other streams do. */
  lemma {:induction false} RetrySchedule(s: Stream, cfg: Config, l: Life, events: seq<SlotEvent>)
    requires LifeOk(s, cfg, l) && AllApply(s, cfg, l, events)
    ensures LifeOk(s, cfg, LifeOf(s, cfg, l, events))
    decreases |events|
  {
    if |events| == 0 {
    } else {
      LifeStep(s, cfg, l, events[0]);
      RetrySchedule(s, cfg, LifeAfter(s, cfg, l, events[0]), events[1..]);
    }
  }

  /**
   * Consecutive transmissions of a batch are at least the uncapped or capped
   * doubling apart, and fewer than the limit.
   */
  lemma TransmissionsAreSpaced(s: Stream, cfg: Config, events: seq<SlotEvent>, k: nat)
    requires AllApply(s, cfg, Life(IDLE, [], [], []), events)
    ensures var l := LifeOf(s, cfg, Life(IDLE, [], [], []), events);
            && (l.slot.active && cfg.maxAttempts >= 2 ==> |l.times| <= cfg.maxAttempts - 1)
            && (l.slot.active && 1 <= k < |l.times| ==>
                l.times[k] - l.times[k - 1] >= Min(cfg.backoffCapMs, cfg.ackTimeoutMs * Pow2(k - 1)))
  {
    RetrySchedule(s, cfg, Life(IDLE, [], [], []), events);
    var l := LifeOf(s, cfg, Life(IDLE, [], [], []), events);
    if l.slot.active && 1 <= k < |l.times| {
      assert GapOk(cfg, (k - 1) + 1, l.dues[k - 1] - l.times[k - 1]);
      assert Pow2(0) == 1;
    }
  }
}
