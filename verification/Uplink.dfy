/** The uplink task (telemetry/Uplink.cpp): three in-flight slots and three backlog clocks, updated in place. */
module Uplink {
  import opened Wrappers
  import opened JournalCursor
  import opened JournalTypes
  import opened JournalSteps
  import opened UplinkScheduler
  import opened RetryPolicy
  import opened UplinkSteps
  import J = Journal

  function Slot0(s: Stream): nat {
    match s
    case Logs => 0
    case Events => 1
    case Data => 2
  }

  class Uplink {
    const cfg: Config
    const logs: J.Journal
    const events: J.Journal
    const data: J.Journal
    const inFlight: array<Slot>
    const pendingSinceMs: array<nat>
    var acksReceived: nat

    /** Three slots, three clocks, and three journals that share nothing. */
    ghost predicate Valid()
      reads this, logs, events, data
    {
      && inFlight.Length == 3 && pendingSinceMs.Length == 3
      && logs.Valid() && events.Valid() && data.Valid()
      && logs != events && logs != data && events != data
      && logs.cursor != events.cursor && logs.cursor != data.cursor && events.cursor != data.cursor
      && logs.segments != events.segments && logs.segments != data.segments && events.segments != data.segments
      && 2 * cfg.backoffCapMs <= MAX_U64 && cfg.ackTimeoutMs <= MAX_U64
    }

    ghost function State(): UplinkState
      requires Valid()
      reads this, inFlight, pendingSinceMs, logs, logs.cursor, logs.segments, events,
            events.cursor, events.segments, data, data.cursor, data.segments
    {
      UplinkState(PerStream(inFlight[0], inFlight[1], inFlight[2]),
                  PerStream(pendingSinceMs[0], pendingSinceMs[1], pendingSinceMs[2]),
                  PerStream(logs.State(), events.State(), data.State()))
    }

    constructor (cfg: Config, logs: J.Journal, events: J.Journal, data: J.Journal)
      requires logs.Valid() && events.Valid() && data.Valid()
      requires logs != events && logs != data && events != data
      requires logs.cursor != events.cursor && logs.cursor != data.cursor && events.cursor != data.cursor
      requires logs.segments != events.segments && logs.segments != data.segments && events.segments != data.segments
      requires 2 * cfg.backoffCapMs <= MAX_U64 && cfg.ackTimeoutMs <= MAX_U64
      ensures Valid() && fresh(inFlight) && fresh(pendingSinceMs)
      ensures this.cfg == cfg && this.logs == logs && this.events == events && this.data == data
      ensures State() == UplinkState(PerStream(IDLE, IDLE, IDLE), PerStream(0, 0, 0),
                                     PerStream(logs.State(), events.State(), data.State()))
    {
      this.cfg, this.logs, this.events, this.data := cfg, logs, events, data;
      inFlight := new Slot[3](_ => IDLE);
      pendingSinceMs := new nat[3](_ => 0);
      acksReceived := 0;
    }

    function JournalOf(s: Stream): J.Journal {
      match s
      case Logs => logs
      case Events => events
      case Data => data
    }

    /** One iteration of the loop that collects the backlogs; it also moves the stream's clock. */
    method CollectBacklog(s: Stream, now: nat) returns (b: StreamBacklog)
      requires Valid()
      modifies pendingSinceMs
      ensures Valid() && b == Backlog(old(State()), s, now)
      ensures State() == old(State()).(pendingSince := old(State()).pendingSince.Set(s, Since(old(State()), s, now)))
    {
      var slot := inFlight[Slot0(s)];
      var journal := JournalOf(s);
      var resumeSeq := slot.firstSeq;
      if !slot.active {
        resumeSeq := journal.FirstUnackedSeq();
      }
      var hasPending := journal.cursor.nextSeq > resumeSeq;
      assert hasPending == HasPending(State(), s);
      if hasPending {
        if pendingSinceMs[Slot0(s)] == 0 {
          pendingSinceMs[Slot0(s)] := now;
        }
      } else {
        pendingSinceMs[Slot0(s)] := 0;
      }
      var age := if hasPending then Elapsed(now, pendingSinceMs[Slot0(s)]) else 0;
      b := StreamBacklog(s, hasPending, slot.active, age, slot.active && now >= slot.nextSendDueMs);
    }

    method Service(now: nat, jitter: real) returns (sent: Option<Published>)
      requires Valid()
      modifies inFlight, pendingSinceMs, logs`handle, events`handle, data`handle
      ensures Valid() && (State(), sent) == ServiceOnce(old(State()), cfg, now, jitter)
    {
      ghost var u := State();
      var e := CollectBacklog(Events, now);
      var l := CollectBacklog(Logs, now);
      var d := CollectBacklog(Data, now);
      assert [e, l, d] == Backlogs(u, now) && State() == Timed(u, now);
      var pick := PickNext([e, l, d], cfg.dataStarvationMs, cfg.logsStarvationMs);
      if pick.None? {
        return None;
      }
      var s := pick.value;
      if inFlight[Slot0(s)].active {
        sent := ServiceInFlight(s, now, jitter);
      } else {
        sent := SendFresh(s, now);
      }
    }

    /** The branch for a batch already on the wire. */
    method ServiceInFlight(s: Stream, now: nat, jitter: real) returns (sent: Option<Published>)
      requires Valid() && State().slots.Get(s).active
      modifies inFlight
      ensures Valid()
      ensures var t, slot := old(State()), old(State()).slots.Get(s);
              if now < slot.nextSendDueMs then State() == t && sent == None
              else
                var next := Retried(slot, cfg, now, jitter);
                State() == t.(slots := t.slots.Set(s, next))
                && sent == if next.active then Some(PublishedSlot(s, slot)) else None
    {
      var slot := inFlight[Slot0(s)];
      if now < slot.nextSendDueMs {
        return None;
      }
      slot := slot.(attempt := slot.attempt + 1);
      if ShouldGiveUp(slot.attempt, cfg.maxAttempts) {
        inFlight[Slot0(s)] := slot.(active := false);
        return None;
      }
      sent := Some(Published(s, slot.firstSeq, slot.count, slot.frames));
      var delay := NextDelayMs(slot.attempt, cfg.ackTimeoutMs, cfg.backoffCapMs, jitter);
      inFlight[Slot0(s)] := slot.(nextSendDueMs := now + delay);
    }

    /** The branch for a stream with nothing in flight: read a batch and keep its bytes for resending. */
    method SendFresh(s: Stream, now: nat) returns (sent: Option<Published>)
      requires Valid() && !State().slots.Get(s).active
      modifies inFlight, JournalOf(s)`handle
      ensures Valid()
      ensures var t, st := old(State()), old(State()).streams.Get(s);
              var r := ReadFrom(st, FirstUnacked(st.cursor), cfg.lim);
              var read := t.(streams := t.streams.Set(s, r.0));
              if r.1.None? then State() == read && sent == None
              else
                var next := FreshSlot(r.1.value, cfg, now);
                State() == read.(slots := t.slots.Set(s, next)) && sent == Some(PublishedSlot(s, next))
    {
      ghost var t := State();
      var journal := JournalOf(s);
      var from := journal.FirstUnackedSeq();
      assert journal.State() == t.streams.Get(s);
      var batch := journal.ReadFrom(from, cfg.lim);
      if batch.None? {
        return None;
      }
      inFlight[Slot0(s)] := Slot(true, batch.value.firstSeq, batch.value.count, 1,
                                 now + cfg.ackTimeoutMs, batch.value.frames);
      return Some(Published(s, batch.value.firstSeq, batch.value.count, batch.value.frames));
    }

    /** A well-formed ack: the journal's cursor moves, and the slot is free if the ack reaches its batch. */
    method HandleAck(s: Stream, upTo: nat)
      requires Valid()
      modifies this`acksReceived, inFlight, JournalOf(s)`flash, JournalOf(s).cursor
      ensures Valid() && State() == OnAck(old(State()), s, upTo) && acksReceived == old(acksReceived) + 1
    {
      ghost var u := State();
      acksReceived := acksReceived + 1;
      var journal := JournalOf(s);
      assert journal.State() == u.streams.Get(s);
      journal.Ack(upTo);
      var slot := inFlight[Slot0(s)];
      if slot.active && upTo + 1 >= slot.firstSeq {
        inFlight[Slot0(s)] := slot.(active := false);
      }
    }
  }
}
