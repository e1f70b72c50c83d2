/**
 * The whole uplink over runs: three journals, three slots and one task, with the
 * network and the server of Protocol for each stream. What the code does to its
 * state is never stated in terms of the protocol; that the two stay together is
 * what is proved.
 */
module UplinkRuns {
  import opened Wrappers
  import opened JournalCursor
  import opened JournalTypes
  import opened JournalSteps
  import opened JournalRecovery
  import opened JournalReclaim
  import opened UplinkSteps
  import opened UplinkProperties
  import P = Protocol
  import R = ProtocolRuns

  /** What a power cut leaves of one stream. */
  datatype Cut = Cut(inflight: Option<bytes>, at: nat, gone: set<nat>)

  datatype Event =
    | Pass(now: nat, jitter: real)
    | AckArrives(stream: Stream, upTo: nat)
    | Local(stream: Stream, what: P.Event)
    | PowerCut(cuts: PerStream<Cut>)

  /** The device, everything it has published, and for each stream what the server makes of it. */
  datatype World = World(u: UplinkState, published: set<Published>, net: PerStream<P.System>)

  function Message(s: Stream, b: P.Batch): Published { Published(s, b.firstSeq, |b.records|, Flatten(b.records)) }

  // ---- steps ----

  /** What the log task and the network may do between passes. */
  predicate IsLocal(e: P.Event) { e.Append? || e.Reclaim? || e.Deliver? || e.Commit? }

  function CutEvent(c: Cut): P.Event { P.PowerCut(c.inflight, c.at, c.gone) }

  ghost predicate Enabled(w: World, e: Event) {
    && (forall s: Stream :: |w.net.Get(s).st.segments| > 0)
    && match e
       case Pass(_, _) => true
       case AckArrives(s, upTo) => upTo in w.net.Get(s).acks
       case Local(s, what) => IsLocal(what) && P.Enabled(s, w.net.Get(s), what)
       case PowerCut(cuts) => forall s: Stream :: P.Enabled(s, w.net.Get(s), CutEvent(cuts.Get(s)))
  }

  /** The device's own state after the event. */
  ghost function NextUplink(u: UplinkState, cfg: Config, e: Event): UplinkState
    requires forall s: Stream :: |u.streams.Get(s).segments| > 0
    requires e.PowerCut? ==> forall s: Stream :: e.cuts.Get(s).at <= |Target(u.streams.Get(s), e.cuts.Get(s).inflight)|
  {
    match e
    case Pass(now, jitter) => ServiceOnce(u, cfg, now, jitter).0
    case AckArrives(s, upTo) => OnAck(u, s, upTo)
    case Local(s, what) => u.(streams := u.streams.Set(s, LocalStep(s, u.streams.Get(s), what)))
    case PowerCut(cuts) =>
      UplinkState(PerStream(IDLE, IDLE, IDLE), PerStream(0, 0, 0),
                  PerStream(Rebooted(u, Logs, cuts), Rebooted(u, Events, cuts), Rebooted(u, Data, cuts)))
  }

  ghost function LocalStep(s: Stream, st: StreamState, what: P.Event): StreamState
    requires |st.segments| > 0
  {
    match what
    case Append(payload, outcome, now) => Appended(st, payload, outcome, now)
    case Reclaim(p, now) => Reclaimed(s, st, p, now).0
    case _ => st
  }

  ghost function Rebooted(u: UplinkState, s: Stream, cuts: PerStream<Cut>): StreamState
    requires |u.streams.Get(s).segments| > 0
    requires cuts.Get(s).at <= |Target(u.streams.Get(s), cuts.Get(s).inflight)|
  {
    var c := cuts.Get(s);
    Booted(Crashed(u.streams.Get(s), c.inflight, c.at, c.gone))
  }

  function Sent(u: UplinkState, cfg: Config, e: Event): set<Published> {
    if e.Pass? && ServiceOnce(u, cfg, e.now, e.jitter).1.Some?
    then {ServiceOnce(u, cfg, e.now, e.jitter).1.value} else {}
  }

  /** What the event is for one stream's protocol, if anything. */
  ghost function StreamEvent(u: UplinkState, cfg: Config, e: Event, s: Stream): Option<P.Event> {
    match e
    case Pass(now, _) => EventOf(u, cfg, now, s)
    case AckArrives(t, upTo) => if t == s then Some(P.ReceiveAck(upTo)) else None
    case Local(t, what) => if t == s then Some(what) else None
    case PowerCut(cuts) => Some(CutEvent(cuts.Get(s)))
  }

  ghost predicate StreamFollows(s: Stream, y: P.System, e: Option<P.Event>, z: P.System)
    requires |y.st.segments| > 0
  {
    if e.None? then z == y else P.Enabled(s, y, e.value) && z == P.Apply(s, y, e.value)
  }

  ghost predicate StepAt(cfg: Config, run: seq<World>, events: seq<Event>, i: nat)
    requires i < |events| && i + 1 < |run|
  {
    var w, e, next := run[i], events[i], run[i + 1];
    && Enabled(w, e)
    && (forall s: Stream :: |w.u.streams.Get(s).segments| > 0)
    && (e.PowerCut? ==> forall s: Stream :: e.cuts.Get(s).at <= |Target(w.u.streams.Get(s), e.cuts.Get(s).inflight)|)
    && next.u == NextUplink(w.u, cfg, e)
    && next.published == w.published + Sent(w.u, cfg, e)
    && forall s: Stream :: StreamFollows(s, w.net.Get(s), StreamEvent(w.u, cfg, e, s), next.net.Get(s))
  }

  // ---- what every step keeps ----

  /** For one stream the device and the protocol are in the same place. */
  ghost predicate Linked(w: World, s: Stream) { P.Inv(s, w.net.Get(s)) && Represents(w.u, s, w.net.Get(s)) }

  /** For one stream, what the device published is exactly what the protocol counts as sent. */
  ghost predicate Matched(w: World, s: Stream) {
    && (forall b :: b in w.net.Get(s).sent ==> Message(s, b) in w.published)
    && (forall m :: m in w.published && m.stream == s ==> exists b :: b in w.net.Get(s).sent && m == Message(s, b))
  }

  lemma PassLinks(w: World, cfg: Config, now: nat, jitter: real, s: Stream, z: P.System)
    requires Linked(w, s) && cfg.lim.maxRecords > 0 && cfg.lim.maxBytes > 0
    requires StreamFollows(s, w.net.Get(s), EventOf(w.u, cfg, now, s), z)
    ensures P.Inv(s, z) && Represents(ServiceOnce(w.u, cfg, now, jitter).0, s, z)
    ensures PublishesSent(ServiceOnce(w.u, cfg, now, jitter).1, s, z)
  {
    var y, e := w.net.Get(s), EventOf(w.u, cfg, now, s);
    PassIsProtocolStep(w.u, cfg, now, jitter, s, y);
    if e.Some? {
      P.EventKeepsInv(s, y, e.value);
    }
  }

  lemma LocalLinks(u: UplinkState, y: P.System, t: Stream, what: P.Event, s: Stream)
    requires P.Inv(s, y) && Represents(u, s, y) && IsLocal(what) && |u.streams.Get(t).segments| > 0
    requires t == s ==> P.Enabled(s, y, what)
    ensures var v := u.(streams := u.streams.Set(t, LocalStep(t, u.streams.Get(t), what)));
            Represents(v, s, if t == s then P.Apply(s, y, what) else y)
  {
  }

  lemma CutLinks(u: UplinkState, y: P.System, s: Stream, cuts: PerStream<Cut>, v: UplinkState)
    requires P.Inv(s, y) && Represents(u, s, y) && P.Enabled(s, y, CutEvent(cuts.Get(s)))
    requires v.slots.Get(s) == IDLE && v.streams.Get(s) == Rebooted(u, s, cuts)
    ensures Represents(v, s, P.Apply(s, y, CutEvent(cuts.Get(s))))
  {
  }

  lemma InvFollows(s: Stream, y: P.System, e: Option<P.Event>, z: P.System)
    requires P.Inv(s, y) && StreamFollows(s, y, e, z)
    ensures P.Inv(s, z)
  {
    if e.Some? {
      P.EventKeepsInv(s, y, e.value);
    }
  }

  /** What a step asks of one stream. */
  ghost predicate StreamStepAt(cfg: Config, run: seq<World>, events: seq<Event>, i: nat, s: Stream)
    requires i < |events| && i + 1 < |run| && |run[i].net.Get(s).st.segments| > 0
  {
    StreamFollows(s, run[i].net.Get(s), StreamEvent(run[i].u, cfg, events[i], s), run[i + 1].net.Get(s))
  }

  lemma CutStepLinks(cfg: Config, run: seq<World>, events: seq<Event>, i: nat, s: Stream)
    requires i < |events| && i + 1 < |run| && StepAt(cfg, run, events, i) && events[i].PowerCut? && Linked(run[i], s)
    ensures Represents(run[i + 1].u, s, run[i + 1].net.Get(s))
  {
    var w, next, cuts := run[i], run[i + 1], events[i].cuts;
    assert StreamStepAt(cfg, run, events, i, s);
    assert next.u.slots.Get(s) == IDLE && next.u.streams.Get(s) == Rebooted(w.u, s, cuts);
    CutLinks(w.u, w.net.Get(s), s, cuts, next.u);
  }

  lemma OtherStepLinks(cfg: Config, run: seq<World>, events: seq<Event>, i: nat, s: Stream)
    requires i < |events| && i + 1 < |run| && StepAt(cfg, run, events, i) && !events[i].PowerCut?
    requires Linked(run[i], s) && cfg.lim.maxRecords > 0 && cfg.lim.maxBytes > 0
    ensures Represents(run[i + 1].u, s, run[i + 1].net.Get(s))
  {
    var w, e, next := run[i], events[i], run[i + 1];
    assert StreamStepAt(cfg, run, events, i, s);
    match e
    case Pass(now, jitter) => PassLinks(w, cfg, now, jitter, s, next.net.Get(s));
    case AckArrives(t, upTo) => AckIsProtocolStep(w.u, t, upTo, s, w.net.Get(s));
    case Local(t, local) => LocalLinks(w.u, w.net.Get(s), t, local, s);
  }

  lemma StepLinks(cfg: Config, run: seq<World>, events: seq<Event>, i: nat, s: Stream)
    requires i < |events| && i + 1 < |run| && StepAt(cfg, run, events, i)
    requires Linked(run[i], s) && cfg.lim.maxRecords > 0 && cfg.lim.maxBytes > 0
    ensures Linked(run[i + 1], s)
  {
    assert StreamStepAt(cfg, run, events, i, s);
    InvFollows(s, run[i].net.Get(s), StreamEvent(run[i].u, cfg, events[i], s), run[i + 1].net.Get(s));
    if events[i].PowerCut? {
      CutStepLinks(cfg, run, events, i, s);
    } else {
      OtherStepLinks(cfg, run, events, i, s);
    }
  }

  /** A fresh batch goes out as the protocol reads it. */
  lemma FreshIsPublished(u: UplinkState, cfg: Config, now: nat, jitter: real, s: Stream, y: P.System)
    requires P.Inv(s, y) && Represents(u, s, y) && cfg.lim.maxRecords > 0 && cfg.lim.maxBytes > 0
    requires EventOf(u, cfg, now, s) == Some(P.Send(cfg.lim))
             && ReadFrom(y.st, FirstUnacked(y.st.cursor), cfg.lim).1.Some?
    ensures ServiceOnce(u, cfg, now, jitter).1 == Some(Message(s, P.BatchRead(y.st, cfg.lim)))
  {
    PickedChanges(u, cfg, now, jitter, s);
    P.ReadStep(y.st, cfg.lim);
  }

  lemma SentGrows(s: Stream, y: P.System, e: P.Event)
    requires |y.st.segments| > 0 && P.Enabled(s, y, e)
    ensures var z := P.Apply(s, y, e); y.sent <= z.sent
    ensures !e.Send? ==> P.Apply(s, y, e).sent == y.sent
  {
  }

  /** Whatever a pass adds to what is sent is what it publishes. */
  lemma NewIsPublished(w: World, cfg: Config, now: nat, jitter: real, s: Stream, z: P.System, b: P.Batch)
    requires Linked(w, s) && cfg.lim.maxRecords > 0 && cfg.lim.maxBytes > 0
    requires StreamFollows(s, w.net.Get(s), EventOf(w.u, cfg, now, s), z)
    requires b in z.sent && b !in w.net.Get(s).sent
    ensures ServiceOnce(w.u, cfg, now, jitter).1 == Some(Message(s, b))
  {
    var y, e := w.net.Get(s), EventOf(w.u, cfg, now, s);
    SentGrows(s, y, e.value);
    FreshIsPublished(w.u, cfg, now, jitter, s, y);
  }

  lemma SentStays(s: Stream, y: P.System, e: Option<P.Event>, z: P.System)
    requires |y.st.segments| > 0 && StreamFollows(s, y, e, z)
    ensures y.sent <= z.sent
  {
    if e.Some? {
      SentGrows(s, y, e.value);
    }
  }

  lemma PassMatches(w: World, cfg: Config, now: nat, jitter: real, s: Stream, next: World)
    requires Linked(w, s) && Matched(w, s) && cfg.lim.maxRecords > 0 && cfg.lim.maxBytes > 0
    requires StreamFollows(s, w.net.Get(s), EventOf(w.u, cfg, now, s), next.net.Get(s))
    requires next.published == w.published + Sent(w.u, cfg, Event.Pass(now, jitter))
    ensures Matched(next, s)
  {
    var z, out := next.net.Get(s), ServiceOnce(w.u, cfg, now, jitter).1;
    PassLinks(w, cfg, now, jitter, s, z);
    SentStays(s, w.net.Get(s), EventOf(w.u, cfg, now, s), z);
    forall b | b in z.sent && b !in w.net.Get(s).sent
      ensures out == Some(Message(s, b))
    {
      NewIsPublished(w, cfg, now, jitter, s, z, b);
    }
    StillMatched(w, next, s, out);
  }

  lemma StillMatched(w: World, next: World, s: Stream, out: Option<Published>)
    requires Matched(w, s) && w.net.Get(s).sent <= next.net.Get(s).sent
    requires next.published == w.published + if out.Some? then {out.value} else {}
    requires PublishesSent(out, s, next.net.Get(s))
    requires forall b :: b in next.net.Get(s).sent && b !in w.net.Get(s).sent ==> out == Some(Message(s, b))
    ensures Matched(next, s)
  {
  }

  lemma SilentMatches(w: World, next: World, s: Stream)
    requires Matched(w, s) && next.net.Get(s).sent == w.net.Get(s).sent && next.published == w.published
    ensures Matched(next, s)
  {
  }

  lemma StepMatches(cfg: Config, run: seq<World>, events: seq<Event>, i: nat, s: Stream)
    requires i < |events| && i + 1 < |run| && StepAt(cfg, run, events, i)
    requires Linked(run[i], s) && Matched(run[i], s) && cfg.lim.maxRecords > 0 && cfg.lim.maxBytes > 0
    ensures Matched(run[i + 1], s)
  {
    var w, e, next := run[i], events[i], run[i + 1];
    assert StreamStepAt(cfg, run, events, i, s);
    if e.Pass? {
      PassMatches(w, cfg, e.now, e.jitter, s, next);
    } else {
      var what := StreamEvent(w.u, cfg, e, s);
      assert next.published == w.published;
      if what.Some? {
        SentGrows(s, w.net.Get(s), what.value);
      }
      SilentMatches(w, next, s);
    }
  }

  // ---- runs ----

  /** A device with empty flash, and nobody has heard from it. */
  function Start(): World {
    var y := R.Start0();
    World(UplinkState(PerStream(IDLE, IDLE, IDLE), PerStream(0, 0, 0), PerStream(y.st, y.st, y.st)),
      {}, PerStream(y, y, y))
  }

  ghost predicate Run(cfg: Config, run: seq<World>, events: seq<Event>) {
    && |run| == |events| + 1 && run[0] == Start() && cfg.lim.maxRecords > 0 && cfg.lim.maxBytes > 0
    && forall i :: 0 <= i < |events| ==> StepAt(cfg, run, events, i)
  }

  /**
   * At every moment of every run, for every stream, the device is where the
   * protocol is and has published what it has sent.
   */
  lemma {:induction false} UplinkFollowsProtocol(cfg: Config, run: seq<World>, events: seq<Event>, n: nat, s: Stream)
    requires Run(cfg, run, events) && n < |run|
    ensures Linked(run[n], s) && Matched(run[n], s)
  {
    if n == 0 {
      R.StartInv(s);
    } else {
      UplinkFollowsProtocol(cfg, run, events, n - 1, s);
      assert StepAt(cfg, run, events, n - 1);
      StepLinks(cfg, run, events, n - 1, s);
      StepMatches(cfg, run, events, n - 1, s);
    }
  }

  /** The server has received a published message that carries this seq. */
  ghost predicate Received(w: World, s: Stream, q: nat) {
    exists b :: b in w.net.Get(s).received && P.Carries(b, q) && Message(s, b) in w.published
  }

  /**
   * No silent loss, of the three journals together: at every moment of every run,
   * every acked seq of every stream was in a published message the server received,
   * or in a gap marker that a reclaim returned.
   */
  lemma NoSilentLossOfAnyStream(cfg: Config, run: seq<World>, events: seq<Event>, n: nat, s: Stream, q: nat)
    requires Run(cfg, run, events) && n < |run|
    requires IsAcked(run[n].u.streams.Get(s).cursor, q)
    ensures Received(run[n], s, q) || Marked(run[n].net.Get(s).gaps, q)
  {
    var y := run[n].net.Get(s);
    UplinkFollowsProtocol(cfg, run, events, n, s);
    R.AckedIsCovered(s, y, q);
    if b :| b in y.received && P.Carries(b, q) {
      assert b in y.sent;
      assert Message(s, b) in run[n].published;
    }
  }

  /** A seq is a stable name in what goes out: two published messages agree wherever their records overlap. */
  lemma PublishedNamesAreStable(cfg: Config, run: seq<World>, events: seq<Event>,
    n: nat, s: Stream, m: Published, o: Published)
    returns (b: P.Batch, c: P.Batch)
    requires Run(cfg, run, events) && n < |run|
    requires m in run[n].published && o in run[n].published && m.stream == o.stream == s
    ensures m == Message(s, b) && o == Message(s, c) && P.Agree(b, c)
  {
    UplinkFollowsProtocol(cfg, run, events, n, s);
    b :| b in run[n].net.Get(s).sent && m == Message(s, b);
    c :| c in run[n].net.Get(s).sent && o == Message(s, c);
  }
}
