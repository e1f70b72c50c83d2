/** Whose turn it is to send (telemetry/UplinkScheduler.h). */
module UplinkScheduler {
  import opened Wrappers
  import opened JournalTypes

  datatype StreamBacklog = StreamBacklog(stream: Stream, hasPending: bool, inFlight: bool,
                                         oldestPendingAgeMs: nat, retryDue: bool)

  function Find(backlogs: seq<StreamBacklog>, stream: Stream): (r: Option<StreamBacklog>)
    ensures r.Some? ==> r.value in backlogs && r.value.stream == stream
    ensures r.None? ==> forall b :: b in backlogs ==> b.stream != stream
  {
    if |backlogs| == 0 then None
    else if backlogs[0].stream == stream then Some(backlogs[0])
    else Find(backlogs[1..], stream)
  }

  predicate RetryReady(b: Option<StreamBacklog>) { b.Some? && b.value.inFlight && b.value.retryDue }

  predicate FreshReady(b: Option<StreamBacklog>) { b.Some? && b.value.hasPending && !b.value.inFlight }

  predicate Starving(b: Option<StreamBacklog>, afterMs: nat) { FreshReady(b) && b.value.oldestPendingAgeMs >= afterMs }

  function PickNext(backlogs: seq<StreamBacklog>, dataStarvationMs: nat, logsStarvationMs: nat): Option<Stream> {
    var events, logs, data := Find(backlogs, Events), Find(backlogs, Logs), Find(backlogs, Data);
    if RetryReady(events) then Some(Events)
    else if RetryReady(logs) then Some(Logs)
    else if RetryReady(data) then Some(Data)
    else if Starving(data, dataStarvationMs) then Some(Data)
    else if Starving(logs, logsStarvationMs) then Some(Logs)
    else if FreshReady(events) then Some(Events)
    else if FreshReady(logs) then Some(Logs)
    else if FreshReady(data) then Some(Data)
    else None
  }

  /** The stream can be served: its retry is due, or it has something new and nothing in flight. */
  predicate Ready(backlogs: seq<StreamBacklog>, s: Stream) {
    RetryReady(Find(backlogs, s)) || FreshReady(Find(backlogs, s))
  }

  /** Events before Logs before Data. */
  function Rank(s: Stream): nat {
    match s
    case Events => 0
    case Logs => 1
    case Data => 2
  }

  /** Which of three classes lets a stream be served: a due retry, starvation, or just something new. */
  function Urgency(backlogs: seq<StreamBacklog>, s: Stream, dataStarvationMs: nat, logsStarvationMs: nat): nat {
    var b := Find(backlogs, s);
    if RetryReady(b) then 0
    else if s == Data && Starving(b, dataStarvationMs) then 1
    else if s == Logs && Starving(b, logsStarvationMs) then 2
    else 3
  }

  /** `s` goes before `t`: the more urgent one, and the higher-ranked one when neither is. */
  predicate GoesBefore(
    backlogs: seq<StreamBacklog>, s: Stream, t: Stream, dataStarvationMs: nat, logsStarvationMs: nat
  ) {
    var u, v := Urgency(backlogs, s, dataStarvationMs, logsStarvationMs),
      Urgency(backlogs, t, dataStarvationMs, logsStarvationMs);
    u < v || (u == v && Rank(s) < Rank(t))
  }

  /** Of two streams at most one goes before the other. */
  lemma GoesBeforeOneWay(backlogs: seq<StreamBacklog>, s: Stream, t: Stream,
    dataStarvationMs: nat, logsStarvationMs: nat)
    requires GoesBefore(backlogs, s, t, dataStarvationMs, logsStarvationMs)
    ensures !GoesBefore(backlogs, t, s, dataStarvationMs, logsStarvationMs)
  {
  }

  /** Ready, and before every other stream that is. */
  ghost predicate First(backlogs: seq<StreamBacklog>, s: Stream, dataStarvationMs: nat, logsStarvationMs: nat) {
    && Ready(backlogs, s)
    && forall t :: Ready(backlogs, t) && t != s ==> GoesBefore(backlogs, s, t, dataStarvationMs, logsStarvationMs)
  }

  /**
   * Somebody is picked exactly when somebody is ready, and it is the one ready stream
   * that goes before every other one. Due retries go before a starved Data, that
   * before a starved Logs, that before anything else, and among equals Events goes
   * before Logs before Data; a stream waiting for an ack is never ready before its
   * retry is due.
   */
  lemma PickNextIs(backlogs: seq<StreamBacklog>, dataStarvationMs: nat, logsStarvationMs: nat)
    ensures var pick := PickNext(backlogs, dataStarvationMs, logsStarvationMs);
            && (pick.Some? <==> exists s :: Ready(backlogs, s))
            && (forall s :: pick == Some(s) <==> First(backlogs, s, dataStarvationMs, logsStarvationMs))
  {
    var pick := PickNext(backlogs, dataStarvationMs, logsStarvationMs);
    if pick.None? {
      NobodyReady(backlogs, dataStarvationMs, logsStarvationMs);
    } else {
      PickIsFirst(backlogs, pick.value, dataStarvationMs, logsStarvationMs);
      forall s | First(backlogs, s, dataStarvationMs, logsStarvationMs)
        ensures s == pick.value
      {
        if s != pick.value {
          GoesBeforeOneWay(backlogs, s, pick.value, dataStarvationMs, logsStarvationMs);
        }
      }
    }
  }

  lemma NobodyReady(backlogs: seq<StreamBacklog>, dataStarvationMs: nat, logsStarvationMs: nat)
    requires PickNext(backlogs, dataStarvationMs, logsStarvationMs).None?
    ensures forall s :: !Ready(backlogs, s)
  {
    forall s
      ensures !Ready(backlogs, s)
    {
      match s
      case Logs =>
      case Events =>
      case Data =>
    }
  }

  lemma PickIsFirst(backlogs: seq<StreamBacklog>, pick: Stream, dataStarvationMs: nat, logsStarvationMs: nat)
    requires PickNext(backlogs, dataStarvationMs, logsStarvationMs) == Some(pick)
    ensures First(backlogs, pick, dataStarvationMs, logsStarvationMs)
  {
    assert Ready(backlogs, pick);
    forall t | Ready(backlogs, t) && t != pick
      ensures GoesBefore(backlogs, pick, t, dataStarvationMs, logsStarvationMs)
    {
      match t
      case Logs =>
      case Events =>
      case Data =>
    }
  }
}
