/**
 * What each step of the update task settles, over every run: what a confirmed image
 * has shown, what becomes of a request, and what a boot finds.
 */
module OtaDecisions {
  import opened Wrappers
  import opened OtaPolicy
  import opened OtaCodec
  import opened OtaSteps
  import opened OtaRuns
  import opened OtaTheorems
  import opened OtaWatch

  // ----- an image under test -----

  /** What has been shown since the boot, this tick included. */
  predicate Passed(run: seq<Event>, t: Tick, c: Config) { FirstTest(run + [Ticked(t)], c) == Some(true) }

  predicate HasFailed(run: seq<Event>, t: Tick, c: Config) { FirstTest(run + [Ticked(t)], c) == Some(false) }

  predicate Answered(run: seq<Event>, t: Tick) { FirstAnswer(run + [Ticked(t)]).Some? }

  /** It has run for the stability window, passed its self-tests, and been answered. */
  predicate Proven(run: seq<Event>, t: Tick, c: Config) {
    Passed(run, t, c) && Answered(run, t) && t.now >= c.stable
  }

  /** It has failed its self-tests, or run to the deadline without an answer. */
  predicate Lost(run: seq<Event>, t: Tick, c: Config) {
    HasFailed(run, t, c) || (!Answered(run, t) && t.now >= c.deadline)
  }

  /** What the look sees is what has happened since the boot. */
  lemma LooksAt(run: seq<Event>, t: Tick, c: Config)
    requires var s := After(run, c).state; s.up && s.situation == Validating
    ensures var s1 := Reach(Tested(After(run, c).state, t, c), t);
            && s1.selfTests == FirstTest(run + [Ticked(t)], c)
            && s1.reachableAt == (if Answered(run, t) then FirstAnswer(run + [Ticked(t)]).value else 0)
  {
    ControllerRemembers(run, c);
    assert (run + [Ticked(t)])[..|run|] == run;
    assert (run + [Ticked(t)])[|run|] == Ticked(t);
  }

  /** The verdict of a tick, by what has happened since the boot. */
  lemma VerdictOf(run: seq<Event>, t: Tick, c: Config)
    requires var s := After(run, c).state; s.up && s.situation == Validating
    ensures var v := VerdictAt(After(run, c).state, t, c);
            && (v == Confirm <==> Proven(run, t, c))
            && (v == RollbackSelfTest <==> HasFailed(run, t, c))
            && (v == RollbackNoConnectivity <==> Lost(run, t, c) && !HasFailed(run, t, c))
  {
    LooksAt(run, t, c);
    VerdictIs(Reach(Tested(After(run, c).state, t, c), t), t, c);
  }

  /** The facts of one look at an image. */
  lemma NotedAre(s: State, t: Tick, c: Config, f: Fact)
    ensures f in Noted(s, t, c) <==>
              || (s.reachableAt != 0 && f == Reached(s.running, s.reachableAt))
              || (s.reachableAt == 0 && t.now >= c.deadline && f == Unreached(s.running))
              || (s.selfTests == Some(false) && f == Failed(s.running))
  {
  }

  lemma WatchNotes(s: State, t: Tick, c: Config, f: Fact)
    requires s.up && s.situation == Validating
    ensures f in Watch(s, t, c).facts <==>
              || f in Noted(Reach(Tested(s, t, c), t), t, c)
              || (f == Kept(s.running) && Keeps(VerdictAt(s, t, c), t.rollsBack))
  {
    var s1 := Reach(Tested(s, t, c), t);
    var kept := if Keeps(VerdictAt(s, t, c), t.rollsBack) then [Kept(s1.running)] else [];
    assert Watch(s, t, c).facts == Noted(s1, t, c) + kept;
  }

  /** The facts of a tick with an image under test, but for what becomes of a request. */
  lemma LookNotes(s: State, t: Tick, c: Config, f: Fact)
    requires s.up && s.situation == Validating && !f.Wrote? && !f.Refused?
    ensures f in RunTick(s, t, c).facts <==> f in Watch(s, t, c).facts
  {
    HandleNotes(Watch(s, t, c).state, t, c, f);
  }

  /** What a tick notes about an image under test, by what has happened since the boot. */
  ghost predicate Notes(run: seq<Event>, t: Tick, c: Config, f: Fact) {
    var v := After(run, c).state.running;
    match f
    case Kept(_) => f == Kept(v) && (Proven(run, t, c) || (Lost(run, t, c) && !t.rollsBack))
    case Reached(_, at) => f == Reached(v, at) && FirstAnswer(run + [Ticked(t)]) == Some(at)
    case Unreached(_) => f == Unreached(v) && !Answered(run, t) && t.now >= c.deadline
    case Failed(_) => f == Failed(v) && HasFailed(run, t, c)
    case _ => false
  }

  /**
   * Over every run: an image under test is kept exactly when it is proven, or lost with
   * nothing to go back to; and the tick tells whether it has been answered, and when.
   */
  lemma KeptIff(run: seq<Event>, t: Tick, c: Config, f: Fact)
    requires var s := After(run, c).state; s.up && s.situation == Validating
    requires !f.Wrote? && !f.Refused?
    ensures f in RunTick(After(run, c).state, t, c).facts <==> Notes(run, t, c, f)
  {
    var s := After(run, c).state;
    LooksAt(run, t, c);
    VerdictOf(run, t, c);
    LookNotes(s, t, c, f);
    WatchNotes(s, t, c, f);
    NotedAre(Reach(Tested(s, t, c), t), t, c, f);
  }

  /** A kept image is settled: nothing is under test, and its boot no longer pending if it was proven. */
  lemma KeptIsSettled(run: seq<Event>, t: Tick, c: Config)
    requires var s := After(run, c).state; s.up && s.situation == Validating
    requires Proven(run, t, c) || (Lost(run, t, c) && !t.rollsBack)
    ensures var s, n := After(run, c).state, Watch(After(run, c).state, t, c).state;
            && n.up && n.situation == Normal && n.nvs == Stored(Encode(n.record))
            && n.record == s.record.(phase := Idle, lastFailure := "", attempts := 0)
            && n.pendingVerify == (s.pendingVerify && !Proven(run, t, c))
  {
    VerdictOf(run, t, c);
    var s := Reach(Tested(After(run, c).state, t, c), t);
    CarriedOut(s, VerdictAt(After(run, c).state, t, c), t.rollsBack);
  }

  /**
   * A lost image goes down when there is something to go back to, with the reason
   * stored: to be probed, unless it was its self-tests that failed.
   */
  lemma LostGoesDown(run: seq<Event>, t: Tick, c: Config)
    requires var s := After(run, c).state; s.up && s.situation == Validating
    requires Lost(run, t, c) && t.rollsBack
    ensures var s, n := After(run, c).state, RunTick(After(run, c).state, t, c).state;
            && !n.up && n.nvs == Stored(Encode(n.record))
            && n.record == if HasFailed(run, t, c) then s.record.(phase := Installed, lastFailure := "self_test")
                           else s.record.(phase := Probing, lastFailure := "no_connectivity")
  {
    VerdictOf(run, t, c);
    var s := Reach(Tested(After(run, c).state, t, c), t);
    CarriedOut(s, VerdictAt(After(run, c).state, t, c), t.rollsBack);
  }

  /** While an update is being judged no request changes anything. */
  lemma BusyIsLeftAlone(s: State, t: Tick, c: Config)
    requires Busy(s)
    ensures var o := HandleManifest(s, t, c);
            && o.facts == [] && o.state.record == s.record && o.state.nvs == s.nvs && o.state.up == s.up
            && o.state.situation == s.situation
  {
  }

  /** An image neither proven nor lost stays under test, and nothing is written. */
  lemma UndecidedWaits(run: seq<Event>, t: Tick, c: Config)
    requires Inv(After(run, c)) && var s := After(run, c).state; s.up && s.situation == Validating
    requires !Proven(run, t, c) && !Lost(run, t, c)
    ensures var s, n := After(run, c).state, RunTick(After(run, c).state, t, c).state;
            n.up && n.situation == Validating && n.record == s.record && n.nvs == s.nvs
  {
    var s := After(run, c).state;
    VerdictOf(run, t, c);
    var watched := Watch(s, t, c).state;
    assert watched == Reach(Tested(s, t, c), t);
    BusyIsLeftAlone(watched, t, c);
  }

  // ----- a probe -----

  /** The predecessor's first answer ends the probe, whenever it came; until then nothing is settled. */
  lemma ProbeEndsIff(run: seq<Event>, t: Tick, c: Config)
    requires Inv(After(run, c)) && var s := After(run, c).state; s.up && s.situation == ProbingPrevious
    ensures var s, o := After(run, c).state, Watch(After(run, c).state, t, c);
            match FirstAnswer(run + [Ticked(t)])
            case Some(at) => o.facts == [Reached(s.running, at)] && o.state.situation == Normal
                             && o.state.record.phase == Idle && o.state.nvs == Stored(Encode(o.state.record))
            case None => o.facts == [] && o.state.situation == ProbingPrevious && o.state.record == s.record
                         && o.state.nvs == s.nvs
  {
    ControllerRemembers(run, c);
    assert (run + [Ticked(t)])[..|run|] == run;
    assert (run + [Ticked(t)])[|run|] == Ticked(t);
  }

  // ----- a boot -----

  /** What a boot finds, by what the facts tell of the update. */
  lemma BootFinds(run: seq<Event>, version: string, pendingVerify: bool, c: Config)
    requires Usual(run)
    ensures var r, n := Told(After(run, c).history, c), Boot(After(run, c).state, version, pendingVerify, c).state;
            && n.up && n.running == version && n.current == None && n.nextAttemptAt == 0
            && n.situation == (if r.phase == Idle then Normal
                               else if version == r.target.version then Validating
                               else if r.phase == Installed then RolledBack
                               else ProbingPrevious)
            && n.pendingVerify == (pendingVerify && n.situation != Normal)
  {
    Reachable(run, c);
    ResplitsAreSameIff(After(run, c).state.record.bad);
  }

  /** What a boot reports of an image that did not come up again: why, and whether its release is now refused. */
  lemma RollbackIsReported(run: seq<Event>, version: string, c: Config)
    requires Usual(run)
    requires var r := Told(After(run, c).history, c); r.phase == Installed && version != r.target.version
    ensures var h := After(run, c).history;
            var r, found := Told(h, c), BootVerdict(Decode(After(run, c).state.nvs), version, c.maxAttempts);
            && found.situation == RolledBack && found.markedBad == Exhausted(h, r.target, c)
            && found.reason == if r.lastFailure == "" then "boot" else r.lastFailure
  {
    Reachable(run, c);
    ResplitsAreSameIff(After(run, c).state.record.bad);
    ExhaustedIff(After(run, c).state.record, After(run, c).history, c);
  }

  // ----- a request -----

  /** The request in hand, once this tick's message is in. */
  function InHand(s: State, t: Tick): Option<Release> { if t.request.Some? then t.request.value else s.current }

  /** A new message is looked at now, an old request not before its time. */
  predicate IsTime(s: State, t: Tick) { t.request.Some? || t.clock >= s.nextAttemptAt }

  /** An update, or a pending image, is still being judged. */
  predicate Busy(s: State) { s.pendingVerify || s.record.phase != Idle }

  predicate UsedUp(s: State, m: Release, c: Config) { s.record.target == m && s.record.attempts >= c.maxAttempts }

  /** Nothing that could change will let it in. */
  predicate Hopeless(s: State, m: Release, c: Config) {
    m.version == s.running || (!Busy(s) && (m in s.record.bad || UsedUp(s, m, c)))
  }

  /** Nothing is downloaded: the request stays in hand until a later time, or is dropped. */
  predicate PutOff(s: State, o: Outcome, current: Option<Release>, at: nat) {
    && o.facts == [] && o.state.up == s.up && o.state.record == s.record && o.state.nvs == s.nvs
    && o.state.current == current && (current.Some? ==> o.state.nextAttemptAt == at)
  }

  /** A download, by how it ends. */
  predicate Fetched(s: State, m: Release, t: Tick, o: Outcome) {
    match t.download
    case Broken => PutOff(s, o, Some(m), t.clock + 600_000)
    case BadImage => o.facts == [Refused(m)] && o.state.current == None && o.state.up == s.up
                     && o.state.nvs == Stored(Encode(o.state.record))
    case Done => o.facts == [Wrote(m)] && !o.state.up && o.state.nvs == Stored(Encode(o.state.record))
  }

  lemma FetchTable(s: State, m: Release, t: Tick)
    requires s.current == Some(m)
    ensures Fetched(s, m, t, Fetch(s, m, t))
  {
  }

  /** The download is tried. */
  predicate Tries(s: State, m: Release, t: Tick, c: Config) {
    InHand(s, t) == Some(m) && IsTime(s, t) && !Hopeless(s, m, c) && !Busy(s) && t.wifi && t.gateOpen
  }

  lemma Trying(s: State, m: Release, t: Tick, c: Config)
    requires Tries(s, m, t, c)
    ensures HandleManifest(s, t, c) == Fetch(Requested(s, t), m, t)
  {
  }

  lemma NotTrying(s: State, m: Release, t: Tick, c: Config)
    requires InHand(s, t) == Some(m) && !Tries(s, m, t, c)
    ensures var o := HandleManifest(s, t, c);
            if !IsTime(s, t) then PutOff(s, o, Some(m), s.nextAttemptAt)
            else if Hopeless(s, m, c) then PutOff(s, o, None, 0)
            else if Busy(s) then PutOff(s, o, Some(m), t.clock + 60_000)
            else if !t.wifi then PutOff(s, o, None, 0)
            else PutOff(s, o, Some(m), t.clock + 60_000)
  {
  }

  /** What becomes of a request in one tick, in every case. */
  lemma RequestTable(s: State, t: Tick, c: Config)
    ensures var o := HandleManifest(s, t, c);
            match InHand(s, t)
            case None => PutOff(s, o, None, 0)
            case Some(m) =>
              if !IsTime(s, t) then PutOff(s, o, Some(m), s.nextAttemptAt)
              else if Hopeless(s, m, c) then PutOff(s, o, None, 0)
              else if Busy(s) then PutOff(s, o, Some(m), t.clock + 60_000)
              else if !t.wifi then PutOff(s, o, None, 0)
              else if !t.gateOpen then PutOff(s, o, Some(m), t.clock + 60_000)
              else Fetched(s, m, t, o)
  {
    if InHand(s, t).Some? {
      var m := InHand(s, t).value;
      if Tries(s, m, t, c) {
        Trying(s, m, t, c);
        FetchTable(Requested(s, t), m, t);
      } else {
        NotTrying(s, m, t, c);
      }
    }
  }

  lemma WritesOnlyThen(s: State, t: Tick, m: Release, c: Config)
    requires Wrote(m) in HandleManifest(s, t, c).facts
    ensures InHand(s, t) == Some(m) && IsTime(s, t) && !Hopeless(s, m, c) && !Busy(s)
    ensures t.wifi && t.gateOpen && t.download == Done
  {
    RequestTable(s, t, c);
  }

  /** Where a tick's write comes from. */
  lemma WrittenByHandling(s: State, t: Tick, m: Release, c: Config)
    requires Wrote(m) in RunTick(s, t, c).facts
    ensures s.up && Watch(s, t, c).state.up && Wrote(m) in HandleManifest(Watch(s, t, c).state, t, c).facts
  {
    WatchWritesNothing(s, t, c);
    assert Wrote(m) !in Watch(s, t, c).facts;
  }

  /** A write is never of an image that runs, nor of one refused for good, nor while an update is being judged. */
  predicate WriteIsAllowed(r: Record, h: seq<Fact>, s: State, m: Release, c: Config) {
    && m.version != s.running && m !in r.bad && r.phase == Idle && !s.pendingVerify
    && (r.target == m ==> Streak(h, m) < Max(1, c.maxAttempts))
  }

  lemma AllowedByRecord(s: State, h: seq<Fact>, m: Release, c: Config)
    requires Counted(s.record, h) && !Hopeless(s, m, c) && !Busy(s)
    ensures WriteIsAllowed(s.record, h, s, m, c)
  {
  }

  /** Over every run, by what the facts tell when the request is looked at. */
  lemma NeverWritesWhatItMayNot(run: seq<Event>, t: Tick, m: Release, c: Config)
    requires Usual(run) && StorableEvent(Ticked(t)) && Wrote(m) in RunTick(After(run, c).state, t, c).facts
    ensures var w := After(run, c); var before := Watch(w.state, t, c);
            var h := w.history + before.facts;
            WriteIsAllowed(Told(h, c), h, before.state, m, c) && RunsNow(h) == before.state.running
  {
    var w := After(run, c);
    var before := Watch(w.state, t, c);
    Reachable(run, c);
    WrittenByHandling(w.state, t, m, c);
    WatchIsTold(w, t, c);
    WatchKeeps(w.state, w.history, t, c);
    WritesOnlyThen(before.state, t, m, c);
    AllowedByRecord(before.state, w.history + before.facts, m, c);
  }
}
