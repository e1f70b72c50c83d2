/**
 * One pass of the uplink task and the handling of one ack (telemetry/Uplink.cpp),
 * as functions on its state. The class in Uplink.dfy is proved to compute them.
 */
module UplinkSteps {
  import opened Wrappers
  import opened FrameAccumulator
  import opened JournalCursor
  import opened JournalTypes
  import opened JournalSteps
  import opened UplinkScheduler
  import opened RetryPolicy

  /** The build-time configuration. */
  datatype Config = Config(lim: Limits, ackTimeoutMs: nat, backoffCapMs: nat, maxAttempts: nat,
                           dataStarvationMs: nat, logsStarvationMs: nat)

  /** An in-flight batch; `frames` are the bytes every resend repeats. */
  datatype Slot = Slot(active: bool, firstSeq: nat, count: nat, attempt: nat, nextSendDueMs: nat, frames: bytes)

  const IDLE := Slot(false, 0, 0, 0, 0, [])

  /** One value for each of the three streams. */
  datatype PerStream<T> = PerStream(logs: T, events: T, data: T) {
    function Get(s: Stream): T {
      match s
      case Logs => logs
      case Events => events
      case Data => data
    }

    function Set(s: Stream, v: T): PerStream<T> {
      match s
      case Logs => this.(logs := v)
      case Events => this.(events := v)
      case Data => this.(data := v)
    }
  }

  datatype UplinkState = UplinkState(slots: PerStream<Slot>,
    pendingSince: PerStream<nat>, streams: PerStream<StreamState>)

  /** What goes to the message bus. */
  datatype Published = Published(stream: Stream, firstSeq: nat, count: nat, frames: bytes)

  function PublishedSlot(s: Stream, slot: Slot): Published { Published(s, slot.firstSeq, slot.count, slot.frames) }

  // ---- one pass ----

  function HasPending(u: UplinkState, s: Stream): bool {
    var slot, cursor := u.slots.Get(s), u.streams.Get(s).cursor;
    cursor.nextSeq > if slot.active then slot.firstSeq else FirstUnacked(cursor)
  }

  /** When the stream's backlog last became non-empty; 0 stands for an empty backlog. */
  function Since(u: UplinkState, s: Stream, now: nat): nat {
    if !HasPending(u, s) then 0 else if u.pendingSince.Get(s) == 0 then now else u.pendingSince.Get(s)
  }

  /** Elapsed milliseconds in 64-bit unsigned arithmetic. */
  function Elapsed(now: nat, since: nat): nat { (now - since) % (MAX_U64 + 1) }

  function Backlog(u: UplinkState, s: Stream, now: nat): StreamBacklog {
    var slot := u.slots.Get(s);
    StreamBacklog(s, HasPending(u, s), slot.active,
                  if HasPending(u, s) then Elapsed(now, Since(u, s, now)) else 0,
                  slot.active && now >= slot.nextSendDueMs)
  }

  function Backlogs(u: UplinkState, now: nat): seq<StreamBacklog> {
    [Backlog(u, Events, now), Backlog(u, Logs, now), Backlog(u, Data, now)]
  }

  function Pick(u: UplinkState, cfg: Config, now: nat): Option<Stream> {
    PickNext(Backlogs(u, now), cfg.dataStarvationMs, cfg.logsStarvationMs)
  }

  /** The pass before anything is sent: only the backlog clocks have moved. */
  function Timed(u: UplinkState, now: nat): UplinkState {
    u.(pendingSince := PerStream(Since(u, Logs, now), Since(u, Events, now), Since(u, Data, now)))
  }

  /** The retry branch: give up at the attempt limit, else resend the same bytes later than last time. */
  function Retried(slot: Slot, cfg: Config, now: nat, jitter: real): Slot {
    var attempt := slot.attempt + 1;
    if ShouldGiveUp(attempt, cfg.maxAttempts) then slot.(active := false, attempt := attempt)
    else slot.(attempt := attempt,
               nextSendDueMs := now + NextDelay(attempt, cfg.ackTimeoutMs, cfg.backoffCapMs, jitter))
  }

  function FreshSlot(batch: RawBatch, cfg: Config, now: nat): Slot {
    Slot(true, batch.firstSeq, batch.count, 1, now + cfg.ackTimeoutMs, batch.frames)
  }

  function ServiceOnce(u: UplinkState, cfg: Config, now: nat, jitter: real): (UplinkState, Option<Published>) {
    var pick, t := Pick(u, cfg, now), Timed(u, now);
    if pick.None? then (t, None)
    else
      var s, slot := pick.value, t.slots.Get(pick.value);
      if slot.active then
        if now < slot.nextSendDueMs then (t, None)
        else
          var next := Retried(slot, cfg, now, jitter);
          (t.(slots := t.slots.Set(s, next)), if next.active then Some(PublishedSlot(s, slot)) else None)
      else
        var st := t.streams.Get(s);
        var r := ReadFrom(st, FirstUnacked(st.cursor), cfg.lim);
        var read := t.(streams := t.streams.Set(s, r.0));
        if r.1.None? then (read, None)
        else
          var next := FreshSlot(r.1.value, cfg, now);
          (read.(slots := t.slots.Set(s, next)), Some(PublishedSlot(s, next)))
  }

  // ---- one ack ----

  function OnAck(u: UplinkState, s: Stream, upTo: nat): UplinkState {
    var slot := u.slots.Get(s);
    u.(streams := u.streams.Set(s, Acked(u.streams.Get(s), upTo)),
       slots := u.slots.Set(s, if slot.active && upTo + 1 >= slot.firstSeq then slot.(active := false) else slot))
  }
}
