/** The order in which lines, summaries and events are pushed (log/LogRouter.cpp), and what can be read back from it. */
module LogRouter {
  import opened Wrappers
  import opened LogRecords
  import opened RateLimiter

  const SEQ_LIMIT: nat := 0x1_0000_0000

  /** A record in the ring; the model remembers which call pushed it. */
  datatype Entry = Logged(record: LogRecord) | Event(record: LogRecord)

  datatype Router = Router(limiter: Limiter, nextSeq: nat, ring: seq<Entry>, critical: seq<LogRecord>)

  /** The calls: a parsed and redacted line, a periodic flush, an event. */
  datatype Call = Log(record: LogRecord) | Flush | Push(record: LogRecord)

  const START := Router(Limiter(None, 0), 0, [], [])

  function Summaries(r: Option<LogRecord>): seq<Entry> { if r.None? then [] else [Logged(r.value)] }

  function Next(seqNo: nat): nat { (seqNo + 1) % SEQ_LIMIT }

  function Step(s: Router, c: Call): Router {
    match c
    case Log(record) =>
      var stamped := record.(repeatCount := 0, seqNo := s.nextSeq);
      var fed := FeedResult(s.limiter, LineOf(record));
      Router(
        FeedNext(s.limiter, LineOf(record)),
        Next(s.nextSeq),
        s.ring + Summaries(fed.pendingFlush) + (if fed.emitNow then [Logged(stamped)] else []),
        s.critical + if fed.emitNow && record.level == Error then [stamped] else [])
    case Flush => s.(limiter := s.limiter.(count := 0), ring := s.ring + Summaries(PendingFlush(s.limiter)))
    case Push(record) =>
      var stamped := record.(seqNo := s.nextSeq);
      s.(nextSeq := Next(s.nextSeq), ring := s.ring + [Event(stamped)], critical := s.critical + [stamped])
  }

  class LogRouter {
    const rateLimiter: RateLimiter
    var nextSeq: nat
    var ring: seq<Entry>
    var critical: seq<LogRecord>

    function View(): Router
      reads this, rateLimiter
    {
      Router(rateLimiter.State(), nextSeq, ring, critical)
    }

    constructor ()
      ensures rateLimiter.Valid() && fresh(rateLimiter) && View() == START
    {
      rateLimiter := new RateLimiter();
      nextSeq, ring, critical := 0, [], [];
    }

    /** The hook, from the redacted record on, under its lock. */
    method VprintfHook(line: LogRecord)
      requires rateLimiter.Valid()
      modifies this, rateLimiter
      ensures rateLimiter.Valid() && View() == Step(old(View()), Log(line))
    {
      var record := line.(repeatCount := 0, seqNo := nextSeq);
      nextSeq := (nextSeq + 1) % SEQ_LIMIT;
      var fed := rateLimiter.Feed(record);
      if fed.pendingFlush.Some? { ring := ring + [Logged(fed.pendingFlush.value)]; }
      if fed.emitNow {
        ring := ring + [Logged(record)];
        if record.level == Error { critical := critical + [record]; }
      }
    }

    method PushEvent(event: LogRecord)
      requires rateLimiter.Valid()
      modifies this
      ensures rateLimiter.Valid() && View() == Step(old(View()), Push(event))
    {
      var stamped := event.(seqNo := nextSeq);
      nextSeq := (nextSeq + 1) % SEQ_LIMIT;
      ring := ring + [Event(stamped)];
      critical := critical + [stamped];
    }

    method FlushRateLimiterPending()
      requires rateLimiter.Valid()
      modifies this, rateLimiter
      ensures rateLimiter.Valid() && View() == Step(old(View()), Flush)
    {
      var flushed := rateLimiter.FlushPending();
      if flushed.Some? { ring := ring + [Logged(flushed.value)]; }
    }
  }

  function After(calls: seq<Call>): Router {
    if calls == [] then START else Step(After(calls[..|calls| - 1]), calls[|calls| - 1])
  }

  // ----- what went in -----

  function Front(calls: seq<Call>): seq<Call>
    requires calls != []
  {
    calls[..|calls| - 1]
  }

  function Last(calls: seq<Call>): Call
    requires calls != []
  {
    calls[|calls| - 1]
  }

  function LinesIn(calls: seq<Call>): seq<Line> {
    if calls == [] then []
    else LinesIn(Front(calls)) + Added(Last(calls))
  }

  function EventsIn(calls: seq<Call>): seq<Line> {
    if calls == [] then []
    else EventsIn(Front(calls)) + if Last(calls).Push? then [LineOf(Last(calls).record)] else []
  }

  function Newest(calls: seq<Call>): Option<Line> {
    var lines := LinesIn(calls);
    if lines == [] then None else Some(lines[|lines| - 1])
  }

  /** How many lines have just repeated the one before them, since the last flush. */
  function Run(calls: seq<Call>): nat {
    if calls == [] then 0
    else match Last(calls)
      case Log(r) => if Newest(Front(calls)) == Some(LineOf(r)) then Run(Front(calls)) + 1 else 0
      case Flush => 0
      case Push(_) => Run(Front(calls))
  }

  predicate NoLongRun(calls: seq<Call>) { forall n :: 0 <= n <= |calls| ==> Run(calls[..n]) < COUNT }

  predicate AllFit(calls: seq<Call>) {
    forall i :: 0 <= i < |calls| ==> calls[i].Log? ==> Fits(LineOf(calls[i].record))
  }

  // ----- what can be read back -----

  function Copies(l: Line, n: nat): seq<Line> { seq(n, i => l) }

  /** A record stands for itself, a summary for as many lines as it counts. */
  function Expanded(r: LogRecord): seq<Line> { Copies(LineOf(r), if r.repeatCount == 0 then 1 else r.repeatCount) }

  function LinesOut(ring: seq<Entry>): seq<Line> {
    if ring == [] then []
    else LinesOut(ring[..|ring| - 1]) + if ring[|ring| - 1].Logged? then Expanded(ring[|ring| - 1].record) else []
  }

  function EventsOut(ring: seq<Entry>): seq<Line> {
    if ring == [] then []
    else EventsOut(ring[..|ring| - 1]) + if ring[|ring| - 1].Event? then [LineOf(ring[|ring| - 1].record)] else []
  }

  function StillOpen(s: Limiter): seq<Line> { if s.last.None? then [] else Copies(s.last.value, s.count) }

  /** Everything read back: the ring, then the run still open. */
  function ReadBack(s: Router): seq<Line> { LinesOut(s.ring) + StillOpen(s.limiter) }

  lemma LinesOutPush(ring: seq<Entry>, e: Entry)
    ensures LinesOut(ring + [e]) == LinesOut(ring) + if e.Logged? then Expanded(e.record) else []
    ensures EventsOut(ring + [e]) == EventsOut(ring) + if e.Event? then [LineOf(e.record)] else []
  {
    assert (ring + [e])[..|ring|] == ring;
  }

  lemma CopiesPush(l: Line, n: nat)
    ensures Copies(l, n + 1) == Copies(l, n) + [l]
  {
  }

  lemma SummaryStands(l: Line, count: nat)
    requires Fits(l) && count > 0
    ensures Expanded(Summary(l, count)) == Copies(l, count)
  {
  }

  lemma OneStands(r: LogRecord, l: Line)
    requires r.repeatCount == 0 && LineOf(r) == l
    ensures Expanded(r) == [l]
  {
  }

  lemma NoneBehind(lines: seq<Line>)
    ensures forall l :: lines + Copies(l, 0) == lines
  {
  }

  lemma NewestIs(calls: seq<Call>)
    requires calls != []
    ensures Newest(calls) == if Last(calls).Log? then Some(LineOf(Last(calls).record)) else Newest(Front(calls))
  {
    NoneAround(LinesIn(Front(calls)));
  }

  /** What the limiter holds, from the calls alone. */
  lemma {:induction false} LimiterFollows(calls: seq<Call>)
    ensures After(calls).limiter.last == Newest(calls)
    ensures After(calls).limiter.count == Run(calls) % COUNT
  {
    if calls == [] {
    } else {
      LimiterFollows(Front(calls));
      NewestIs(calls);
      RunCounts(Run(Front(calls)));
    }
  }

  lemma RunCounts(n: nat)
    ensures (n % COUNT + 1) % COUNT == (n + 1) % COUNT
  {
  }

  lemma {:induction false} NewestFits(calls: seq<Call>)
    requires AllFit(calls) && Newest(calls).Some?
    ensures Fits(Newest(calls).value)
  {
    if Last(calls).Log? {
    } else {
      assert forall i :: 0 <= i < |Front(calls)| ==> Front(calls)[i] == calls[i];
      NewestFits(Front(calls));
    }
  }

  /** Pushing the summary of the open run moves it into the ring unchanged. */
  lemma FlushedStands(s: Router)
    requires s.limiter.last.Some? ==> Fits(s.limiter.last.value)
    ensures LinesOut(s.ring + Summaries(PendingFlush(s.limiter))) == ReadBack(s)
  {
    if s.limiter.count == 0 || s.limiter.last.None? {
      assert s.ring + [] == s.ring && LinesOut(s.ring) + [] == LinesOut(s.ring);
    } else {
      SummaryStands(s.limiter.last.value, s.limiter.count);
      LinesOutPush(s.ring, Logged(Summary(s.limiter.last.value, s.limiter.count)));
    }
  }

  /** A repeated line only counts, and is read back behind the others unless the sixteen-bit count wraps to zero. */
  lemma RepeatReadsBack(s: Router, record: LogRecord)
    requires Repeats(s.limiter, LineOf(record))
    ensures s.limiter.count + 1 < COUNT ==> ReadBack(Step(s, Log(record))) == ReadBack(s) + [LineOf(record)]
    ensures s.limiter.count + 1 == COUNT ==> ReadBack(Step(s, Log(record))) == LinesOut(s.ring)
  {
    assert Step(s, Log(record)).ring == s.ring;
    CopiesPush(LineOf(record), s.limiter.count);
  }

  /** Any other line goes out itself, behind the summary of the run it ends. */
  lemma NewLineReadsBack(s: Router, record: LogRecord)
    requires s.limiter.last.Some? ==> Fits(s.limiter.last.value)
    requires !Repeats(s.limiter, LineOf(record))
    ensures ReadBack(Step(s, Log(record))) == ReadBack(s) + [LineOf(record)]
  {
    var ring := s.ring + Summaries(PendingFlush(s.limiter));
    var stamped := record.(repeatCount := 0, seqNo := s.nextSeq);
    FlushedStands(s);
    LinesOutPush(ring, Logged(stamped));
    OneStands(stamped, LineOf(record));
    assert Step(s, Log(record)).ring == ring + [Logged(stamped)];
    NoneBehind(LinesOut(ring + [Logged(stamped)]));
  }

  // ----- lossless, exactly when -----

  /** How often the sixteen-bit count has wrapped. */
  function Wraps(calls: seq<Call>): nat {
    if calls == [] then 0
    else Wraps(Front(calls)) + if JustWrapped(calls) then 1 else 0
  }

  predicate JustWrapped(calls: seq<Call>) {
    calls != [] && Last(calls).Log? && Run(calls) > 0 && Run(calls) % COUNT == 0
  }

  predicate WrapsNow(s: Router, c: Call) {
    c.Log? && Repeats(s.limiter, LineOf(c.record)) && s.limiter.count + 1 == COUNT
  }

  function Added(c: Call): seq<Line> { if c.Log? then [LineOf(c.record)] else [] }

  /** One call on what can be read back. */
  lemma StepReadsBack(s: Router, c: Call)
    requires s.limiter.last.Some? ==> Fits(s.limiter.last.value)
    requires s.limiter.count < COUNT
    ensures WrapsNow(s, c) && s.limiter.last.Some? ==> |ReadBack(Step(s, c))| + COUNT - 1 == |ReadBack(s)|
    ensures !WrapsNow(s, c) ==> ReadBack(Step(s, c)) == ReadBack(s) + Added(c)
  {
    match c
    case Log(record) =>
      if Repeats(s.limiter, LineOf(record)) { RepeatReadsBack(s, record); } else { NewLineReadsBack(s, record); }
    case Flush => FlushedStands(s);
    case Push(record) => LinesOutPush(s.ring, Event(record.(seqNo := s.nextSeq)));
  }

  lemma WrapsTogether(calls: seq<Call>)
    requires calls != []
    ensures JustWrapped(calls) == WrapsNow(After(Front(calls)), Last(calls))
  {
    LimiterFollows(Front(calls));
    RunCounts(Run(Front(calls)));
  }

  lemma CallReadsBack(calls: seq<Call>, s: Router)
    requires calls != [] && AllFit(calls) && s == After(Front(calls))
    ensures JustWrapped(calls) ==> |ReadBack(After(calls))| + COUNT - 1 == |ReadBack(s)|
    ensures !JustWrapped(calls) ==> ReadBack(After(calls)) == ReadBack(s) + Added(Last(calls))
  {
    var front := Front(calls);
    assert forall i :: 0 <= i < |front| ==> front[i] == calls[i];
    LimiterFollows(front);
    if Newest(front).Some? {
      NewestFits(front);
    }
    WrapsTogether(calls);
    StepReadsBack(s, Last(calls));
  }

  lemma {:induction false} LinesAreCounted(calls: seq<Call>)
    requires AllFit(calls)
    ensures |ReadBack(After(calls))| + COUNT * Wraps(calls) == |LinesIn(calls)|
    ensures Wraps(calls) == 0 ==> ReadBack(After(calls)) == LinesIn(calls)
  {
    if calls == [] {
    } else {
      assert forall i :: 0 <= i < |Front(calls)| ==> Front(calls)[i] == calls[i];
      LinesAreCounted(Front(calls));
      CallReadsBack(calls, After(Front(calls)));
      assert Wraps(calls) == Wraps(Front(calls)) + if JustWrapped(calls) then 1 else 0;
    }
  }

  lemma {:induction false} WrapsIff(calls: seq<Call>)
    ensures Wraps(calls) == 0 <==> NoLongRun(calls)
  {
    if calls == [] {
    } else {
      var front := Front(calls);
      WrapsIff(front);
      assert forall n :: 0 <= n <= |front| ==> front[..n] == calls[..n];
      assert calls[..|calls|] == calls && front[..|front|] == front;
    }
  }

  /** Every line fed can be read back, in order, exactly when no run is longer than its counter can hold. */
  lemma LosslessIff(calls: seq<Call>)
    requires AllFit(calls)
    ensures ReadBack(After(calls)) == LinesIn(calls) <==> NoLongRun(calls)
  {
    LinesAreCounted(calls);
    WrapsIff(calls);
  }

  lemma StepPassesEvents(s: Router, c: Call)
    ensures EventsOut(Step(s, c).ring) == EventsOut(s.ring) + if c.Push? then [LineOf(c.record)] else []
  {
    NoneAround(EventsOut(s.ring));
    match c
    case Log(record) =>
      var fed := FeedResult(s.limiter, LineOf(record));
      var ring := s.ring + Summaries(fed.pendingFlush);
      SummariesAreNoEvents(s.ring, fed.pendingFlush);
      NoneAround(ring);
      NoneAround(EventsOut(ring));
      LinesOutPush(ring, Logged(record.(repeatCount := 0, seqNo := s.nextSeq)));
    case Flush => SummariesAreNoEvents(s.ring, PendingFlush(s.limiter));
    case Push(record) => LinesOutPush(s.ring, Event(record.(seqNo := s.nextSeq)));
  }

  /** Events pass by the limiter: all of them, in order. */
  lemma {:induction false} EventsPassThrough(calls: seq<Call>)
    ensures EventsOut(After(calls).ring) == EventsIn(calls)
  {
    if calls == [] {
    } else {
      EventsPassThrough(Front(calls));
      StepPassesEvents(After(Front(calls)), Last(calls));
    }
  }

  lemma SummariesAreNoEvents(ring: seq<Entry>, r: Option<LogRecord>)
    ensures EventsOut(ring + Summaries(r)) == EventsOut(ring)
  {
    if r.None? {
      assert ring + [] == ring;
    } else {
      LinesOutPush(ring, Logged(r.value));
    }
  }

  // ----- numbers and copies -----

  /** How many records have been given a number: every line, repeated or not, and every event. */
  function Stamps(calls: seq<Call>): nat {
    if calls == [] then 0 else Stamps(Front(calls)) + if Last(calls).Flush? then 0 else 1
  }

  /** Numbers are given in order, modulo 2^32. */
  lemma {:induction false} NumbersFollow(calls: seq<Call>)
    ensures After(calls).nextSeq == Stamps(calls) % 0x1_0000_0000
  {
    if calls == [] {
    } else {
      NumbersFollow(Front(calls));
      NextNumber(Stamps(Front(calls)));
    }
  }

  lemma NextNumber(n: nat)
    ensures (n % 0x1_0000_0000 + 1) % 0x1_0000_0000 == (n + 1) % 0x1_0000_0000
  {
  }

  /** The record as the call pushes it: the line or event itself, under the next number. */
  function Pushed(calls: seq<Call>): LogRecord
    requires calls != [] && !Last(calls).Flush?
  {
    var number := Stamps(Front(calls)) % 0x1_0000_0000;
    match Last(calls)
    case Log(r) => r.(repeatCount := 0, seqNo := number)
    case Push(r) => r.(seqNo := number)
  }

  /** The call pushes its own record: any event, and any line that does not repeat the one before it. */
  predicate Pushes(calls: seq<Call>)
    requires calls != []
  {
    match Last(calls)
    case Log(r) => Newest(Front(calls)) != Some(LineOf(r))
    case Flush => false
    case Push(_) => true
  }

  /** The entry a call puts last, with its number, is its own record. */
  lemma PushedIsLast(calls: seq<Call>)
    requires calls != [] && Pushes(calls)
    ensures var ring := After(calls).ring;
            |ring| > 0 && ring[|ring| - 1] == if Last(calls).Log? then Logged(Pushed(calls)) else Event(Pushed(calls))
  {
    NumbersFollow(Front(calls));
    LimiterFollows(Front(calls));
  }

  /** What is kept for the crash: every event, and every error that was pushed. */
  function CriticalIn(calls: seq<Call>): seq<LogRecord> {
    if calls == [] then []
    else
      CriticalIn(Front(calls))
      + if Pushes(calls) && (Last(calls).Push? || Last(calls).record.level == Error) then [Pushed(calls)] else []
  }

  lemma {:induction false} CriticalIs(calls: seq<Call>)
    ensures After(calls).critical == CriticalIn(calls)
  {
    if calls == [] {
    } else {
      CriticalIs(Front(calls));
      NumbersFollow(Front(calls));
      LimiterFollows(Front(calls));
      NoneBehindRecords(CriticalIn(Front(calls)));
    }
  }

  lemma NoneBehindRecords(rs: seq<LogRecord>)
    ensures rs + [] == rs
  {
  }
}
