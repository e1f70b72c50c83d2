/**
 * What the controller does, told by an observer beside the device: the record is a
 * function of the facts, and what a look at an image settles is a function of what
 * has happened since it booted.
 */
module OtaWatch {
  import opened Wrappers
  import opened OtaPolicy
  import opened OtaCodec
  import opened OtaSteps
  import opened OtaRuns
  import opened OtaTheorems

  // ----- the record, from the facts alone -----

  /** The image that ran last. */
  function RunsNow(h: seq<Fact>): string {
    if h == [] then "" else if Last(h).Ran? then Last(h).version else RunsNow(Front(h))
  }

  /** The list with one more release in front, and at most four. */
  function Listed(bad: seq<Release>, b: Release): seq<Release> {
    if b in bad then bad else if |bad| < 4 then [b] + bad else [b] + bad[..3]
  }

  /** The update is over, perhaps with its release to blame. */
  function Settled(r: Record, blamed: bool): Record {
    r.(phase := Idle, lastFailure := "", bad := if blamed then Listed(r.bad, r.target) else r.bad)
  }

  /** What one more fact means for the record. */
  function Tell(r: Record, h: seq<Fact>, f: Fact, c: Config): Record {
    match f
    case Wrote(m) => Record(Installed, m, RunsNow(h), Min(255, Streak(h, m) + 1), "", r.bad)
    case Refused(m) => r.(bad := Listed(r.bad, m))
    case Kept(_) => r.(phase := Idle, lastFailure := "", attempts := 0)
    case Ran(v) =>
      if r.phase == Idle then r
      else if v == r.target.version then r.(phase := Installed)
      else if r.phase == Probing then r
      else Settled(r, Exhausted(h, r.target, c))
    case Unreached(_) => r.(phase := Probing, lastFailure := "no_connectivity")
    case Failed(_) => r.(phase := Installed, lastFailure := "self_test")
    case Reached(v, at) =>
      if r.phase == Probing then Settled(r, at <= c.deadline || Exhausted(h, r.target, c)) else r
  }

  function Told(h: seq<Fact>, c: Config): Record {
    if h == [] then EMPTY else Tell(Told(Front(h), c), Front(h), Last(h), c)
  }

  lemma ToldOne(h: seq<Fact>, f: Fact, c: Config)
    ensures Told(h + [f], c) == Tell(Told(h, c), h, f, c)
  {
    assert Front(h + [f]) == h;
  }

  lemma RunsOne(h: seq<Fact>, f: Fact)
    ensures RunsNow(h + [f]) == if f.Ran? then f.version else RunsNow(h)
  {
    assert Front(h + [f]) == h;
  }

  /** The record is what the facts tell, and the observer knows what runs. */
  ghost predicate AsTold(w: World, c: Config) {
    w.state.record == Told(w.history, c) && (w.state.up ==> RunsNow(w.history) == w.state.running)
  }

  lemma MarkIsListed(r: Record, b: Release)
    requires |r.bad| <= MAX_BAD
    ensures MarkBad(r, b) == r.(bad := Listed(r.bad, b))
  {
    if b !in r.bad && |r.bad| == 4 {
      assert ([b] + r.bad)[..4] == [b] + r.bad[..3];
    }
  }

  lemma ExhaustedIff(r: Record, h: seq<Fact>, c: Config)
    requires Counted(r, h) && r.phase != Idle
    ensures r.attempts >= c.maxAttempts <==> Exhausted(h, r.target, c)
  {
  }

  lemma BootIsTold(w: World, version: string, pendingVerify: bool, c: Config)
    requires Inv(w) && Fair(w, c) && AsTold(w, c)
    ensures AsTold(World(Boot(w.state, version, pendingVerify, c).state, w.history + [Ran(version)]), c)
  {
    var r, h := w.state.record, w.history;
    ResplitsAreSameIff(r.bad);
    assert Decode(w.state.nvs) == r;
    ToldOne(h, Ran(version), c);
    RunsOne(h, Ran(version));
    MarkIsListed(r, r.target);
    if r.phase != Idle {
      ExhaustedIff(r, h, c);
    }
  }

  lemma SeenIsTold(s: State, h: seq<Fact>, t: Tick, c: Config)
    requires s.situation == Validating && Inv(World(s, h)) && s.up && AsTold(World(s, h), c)
    ensures var seen := Seen(s, t, c);
            && RunsNow(h + seen) == s.running
            && Told(h + seen, c) == if s.reachableAt == 0 && t.now >= c.deadline
                                    then s.record.(phase := Probing, lastFailure := "no_connectivity") else s.record
  {
    var seen := Seen(s, t, c);
    if seen == [] {
      assert h + seen == h;
    } else {
      ToldOne(h, seen[0], c);
      RunsOne(h, seen[0]);
    }
  }

  lemma NotedIsTold(s: State, h: seq<Fact>, t: Tick, c: Config)
    requires s.situation == Validating && Inv(World(s, h)) && s.up && AsTold(World(s, h), c)
    ensures var noted := Noted(s, t, c);
            && RunsNow(h + noted) == s.running
            && Told(h + noted, c)
               == Shown(s.record, s.selfTests == Some(false), s.reachableAt == 0 && t.now >= c.deadline)
  {
    var seen := Seen(s, t, c);
    SeenIsTold(s, h, t, c);
    if s.selfTests == Some(false) {
      ToldOne(h + seen, Failed(s.running), c);
      RunsOne(h + seen, Failed(s.running));
      NotedInTurn(h, seen, [Failed(s.running)]);
    } else {
      assert seen + [] == seen;
    }
  }

  /** Which verdict is which, in terms of what has been shown. */
  lemma VerdictIs(s: State, t: Tick, c: Config)
    ensures var v := OtaSteps.Verdict(s, t, c);
            && (v == RollbackSelfTest <==> s.selfTests == Some(false))
            && (v == Confirm <==> s.selfTests == Some(true) && s.reachableAt != 0 && t.now >= c.stable)
            && (v == RollbackNoConnectivity <==>
                  s.selfTests != Some(false) && s.reachableAt == 0 && t.now >= c.deadline)
  {
  }

  /** What is left of the record, by verdict. */
  lemma CarriedOut(s: State, v: OtaPolicy.Verdict, rollsBack: bool)
    ensures CarryOut(s, v, rollsBack).running == s.running
    ensures CarryOut(s, v, rollsBack).record
         == if Keeps(v, rollsBack) then s.record.(phase := Idle, lastFailure := "", attempts := 0)
            else match v
              case RollbackSelfTest => s.record.(phase := Installed, lastFailure := "self_test")
              case RollbackNoConnectivity => s.record.(phase := Probing, lastFailure := "no_connectivity")
              case _ => s.record
  {
  }

  /** The record as told once the image has been looked at. */
  function Shown(r: Record, failed: bool, silent: bool): Record {
    if failed then r.(phase := Installed, lastFailure := "self_test")
    else if silent then r.(phase := Probing, lastFailure := "no_connectivity")
    else r
  }

  lemma LookSettles(s: State, t: Tick, c: Config)
    ensures var v := OtaSteps.Verdict(s, t, c);
            var shown := Shown(s.record, s.selfTests == Some(false), s.reachableAt == 0 && t.now >= c.deadline);
            CarryOut(s, v, t.rollsBack).record
            == if Keeps(v, t.rollsBack) then shown.(phase := Idle, lastFailure := "", attempts := 0) else shown
  {
    var v := OtaSteps.Verdict(s, t, c);
    VerdictIs(s, t, c);
    CarriedOut(s, v, t.rollsBack);
  }

  lemma LookIsTold(s: State, h: seq<Fact>, t: Tick, c: Config)
    requires s.situation == Validating && Inv(World(s, h)) && s.up && AsTold(World(s, h), c)
    ensures var v := OtaSteps.Verdict(s, t, c);
            var kept := if Keeps(v, t.rollsBack) then [Kept(s.running)] else [];
            AsTold(World(CarryOut(s, v, t.rollsBack), (h + Noted(s, t, c)) + kept), c)
  {
    var v, g := OtaSteps.Verdict(s, t, c), h + Noted(s, t, c);
    NotedIsTold(s, h, t, c);
    LookSettles(s, t, c);
    CarriedOut(s, v, t.rollsBack);
    NothingNoted(World(s, g));
    ToldOne(g, Kept(s.running), c);
    RunsOne(g, Kept(s.running));
  }

  lemma ValidateIsTold(s: State, h: seq<Fact>, t: Tick, c: Config)
    requires s.situation == Validating && Inv(World(s, h)) && s.up && AsTold(World(s, h), c)
    ensures var o := Validate(s, t, c); AsTold(World(o.state, h + o.facts), c)
  {
    var s1 := Reach(Tested(s, t, c), t);
    LookIsTold(s1, h, t, c);
    NotedInTurn(h, Noted(s1, t, c),
      if Keeps(OtaSteps.Verdict(s1, t, c), t.rollsBack) then [Kept(s1.running)] else []);
  }

  lemma ProbeIsTold(s: State, h: seq<Fact>, t: Tick, c: Config)
    requires s.situation == ProbingPrevious && Inv(World(s, h)) && s.up && AsTold(World(s, h), c)
    ensures var o := Probe(s, t, c); AsTold(World(o.state, h + o.facts), c)
  {
    var s1 := Reach(s, t);
    var f := Reached(s1.running, s1.reachableAt);
    assert h + [] == h;
    ToldOne(h, f, c);
    RunsOne(h, f);
    MarkIsListed(s.record, s.record.target);
    ExhaustedIff(s.record, h, c);
  }

  lemma FetchIsTold(s: State, h: seq<Fact>, m: Release, t: Tick, c: Config)
    requires Inv(World(s, h)) && s.up && AsTold(World(s, h), c)
    ensures var o := Fetch(s, m, t); AsTold(World(o.state, h + o.facts), c)
  {
    match t.download
    case Broken => assert h + [] == h;
    case BadImage =>
      ToldOne(h, Refused(m), c);
      RunsOne(h, Refused(m));
      MarkIsListed(s.record, m);
    case Done =>
      ToldOne(h, Wrote(m), c);
      RunsOne(h, Wrote(m));
      InstallCounts(s.record, h, m);
  }

  lemma HandleIsTold(s: State, h: seq<Fact>, t: Tick, c: Config)
    requires Inv(World(s, h)) && s.up && StorableEvent(Ticked(t)) && AsTold(World(s, h), c)
    ensures var o := HandleManifest(s, t, c); AsTold(World(o.state, h + o.facts), c)
  {
    var o, s1 := HandleManifest(s, t, c), Requested(s, t);
    NothingNoted(World(o.state, h));
    RequestedKeeps(s, h, t);
    if s1.current.Some? {
      FetchIsTold(s1, h, s1.current.value, t, c);
    }
  }

  lemma InstallCounts(r: Record, h: seq<Fact>, m: Release)
    requires Counted(r, h)
    ensures RecordInstalled(r, m, "").attempts == Min(255, Streak(h, m) + 1)
  {
  }

  lemma WatchIsTold(w: World, t: Tick, c: Config)
    requires Inv(w) && AsTold(w, c) && w.state.up
    ensures var o := Watch(w.state, t, c); AsTold(World(o.state, w.history + o.facts), c)
  {
    NothingNoted(w);
    if w.state.situation == Validating {
      ValidateIsTold(w.state, w.history, t, c);
    } else if w.state.situation == ProbingPrevious {
      ProbeIsTold(w.state, w.history, t, c);
    }
  }

  lemma StepIsTold(w: World, e: Event, c: Config)
    requires Inv(w) && Fair(w, c) && StorableEvent(e) && AsTold(w, c)
    ensures var o := Step(w.state, e, c); AsTold(World(o.state, w.history + o.facts), c)
  {
    var s, h := w.state, w.history;
    NothingNoted(w);
    match e
    case PowerOn(version, pendingVerify) => BootIsTold(w, version, pendingVerify, c);
    case Ticked(t) =>
      if s.up {
        var watched := Watch(s, t, c);
        WatchKeeps(s, h, t, c);
        WatchIsTold(w, t, c);
        if watched.state.up {
          HandleIsTold(watched.state, h + watched.facts, t, c);
          NotedInTurn(h, watched.facts, HandleManifest(watched.state, t, c).facts);
        }
      }
  }

  /** Over every run with names that can be kept, the record is exactly what the observer's facts tell. */
  lemma {:induction false} RecordIsTold(run: seq<Event>, c: Config)
    requires StorableRun(run) && forall i :: 0 <= i < |run| ==> TabFreeEvent(run[i])
    ensures AsTold(After(run, c), c)
  {
    if run == [] {
    } else {
      var front := run[..|run| - 1];
      assert forall i :: 0 <= i < |front| ==> front[i] == run[i];
      RecordIsTold(front, c);
      RecordFollowsHistory(front, c);
      OnlyTheGuiltyAreBad(front, c);
      StepIsTold(After(front, c), run[|run| - 1], c);
    }
  }

  /** An image is being watched: one under test, or the predecessor of one. */
  predicate Watching(s: State) { s.up && (s.situation == Validating || s.situation == ProbingPrevious) }

  // ----- what the list holds -----

  /** A release leaves the list only when it is full and the release is the oldest one on it. */
  lemma LeavesOnlyWhenFull(h: seq<Fact>, f: Fact, b: Release, c: Config)
    requires |Told(h, c).bad| <= 4 && b in Told(h, c).bad && b !in Told(h + [f], c).bad
    ensures |Told(h, c).bad| == 4 && b == Told(h, c).bad[3] && Told(h + [f], c).bad[1..] == Told(h, c).bad[..3]
  {
    ToldOne(h, f, c);
    ListedDrops(Told(h, c).bad, b);
  }

  lemma ListedKeeps(bad: seq<Release>, i: nat, r: Release)
    requires i < |bad| && (|bad| < 4 || i < 3)
    ensures bad[i] in Listed(bad, r)
  {
    if r !in bad {
      assert Listed(bad, r)[i + 1] == if |bad| < 4 then bad[i] else bad[..3][i];
    }
  }

  lemma ListedDrops(bad: seq<Release>, b: Release)
    requires |bad| <= 4 && b in bad
    ensures forall r :: b !in Listed(bad, r) ==> |bad| == 4 && b == bad[3] && Listed(bad, r)[1..] == bad[..3]
  {
    var i :| 0 <= i < |bad| && bad[i] == b;
    forall r | b !in Listed(bad, r)
      ensures |bad| == 4 && b == bad[3] && Listed(bad, r)[1..] == bad[..3]
    {
      if |bad| < 4 || i < 3 {
        ListedKeeps(bad, i, r);
      }
    }
  }

  /** The predecessor's answer lists the release under probe when it speaks against it. */
  lemma AnswerBlames(s: State, h: seq<Fact>, at: nat, b: Release, c: Config)
    requires Inv(World(s, h)) && AsTold(World(s, h), c) && Watching(s)
    requires SpeaksAgainst(h + [Reached(s.running, at)], b, c)
    ensures s.situation == ProbingPrevious && b in Told(h + [Reached(s.running, at)], c).bad
  {
    var f := Reached(s.running, at);
    assert Front(h + [f]) == h && Last(h + [f]) == f;
    assert Streak(h + [f], b) == Streak(h, b) >= 1;
    assert b == s.record.target;
    ToldOne(h, f, c);
  }

  lemma HandleNotes(s: State, t: Tick, c: Config, f: Fact)
    ensures f in HandleManifest(s, t, c).facts ==> f.Wrote? || f.Refused?
  {
  }

  lemma WatchLast(s: State, t: Tick, c: Config)
    requires s.up && Watch(s, t, c).facts != []
    ensures var f := Last(Watch(s, t, c).facts);
            && !f.Ran? && Watching(s)
            && (f.Reached? ==> Watch(s, t, c).facts == [Reached(s.running, f.at)])
  {
  }

  /** A tick that ends with an answer noted nothing else, and no tick notes a boot. */
  lemma LastNoted(s: State, t: Tick, c: Config)
    requires RunTick(s, t, c).facts != []
    ensures var f := Last(RunTick(s, t, c).facts);
            && !f.Ran?
            && (f.Reached? ==> Watching(s) && RunTick(s, t, c).facts == [Reached(s.running, f.at)])
  {
    var watched := Watch(s, t, c);
    var more := if watched.state.up then HandleManifest(watched.state, t, c).facts else [];
    assert RunTick(s, t, c).facts == watched.facts + more;
    if more == [] {
      assert RunTick(s, t, c).facts == watched.facts;
      WatchLast(s, t, c);
    } else {
      HandleNotes(watched.state, t, c, Last(more));
      assert Last(RunTick(s, t, c).facts) == Last(more);
    }
  }

  lemma TickBlames(w: World, t: Tick, b: Release, c: Config)
    requires Inv(w) && Fair(w, c) && AsTold(w, c) && StorableEvent(Ticked(t)) && RunTick(w.state, t, c).facts != []
    requires SpeaksAgainst(w.history + RunTick(w.state, t, c).facts, b, c)
    ensures b in RunTick(w.state, t, c).state.record.bad
  {
    var h, facts := w.history, RunTick(w.state, t, c).facts;
    var f := Last(facts);
    StepIsTold(w, Ticked(t), c);
    LastNoted(w.state, t, c);
    assert Last(h + facts) == f;
    if f.Reached? {
      AnswerBlames(w.state, h, f.at, b, c);
    } else {
      assert Front(h + facts) == h + Front(facts);
      var bad := Told(h + Front(facts), c).bad;
      assert b !in bad ==> Listed(bad, b)[0] == b;
    }
  }

  lemma RebootBlames(w: World, version: string, pendingVerify: bool, c: Config)
    requires Inv(w) && Fair(w, c) && AsTold(w, c)
    requires var r := Told(w.history, c);
             r.phase == Installed && version != r.target.version && Exhausted(w.history, r.target, c)
    ensures Told(w.history, c).target in Boot(w.state, version, pendingVerify, c).state.record.bad
  {
    var r := Told(w.history, c);
    BootIsTold(w, version, pendingVerify, c);
    ToldOne(w.history, Ran(version), c);
    assert r.target !in r.bad ==> Listed(r.bad, r.target)[0] == r.target;
  }

  /** Names that the store keeps as they are. */
  predicate Usual(run: seq<Event>) { StorableRun(run) && forall i :: 0 <= i < |run| ==> TabFreeEvent(run[i]) }

  lemma Reachable(run: seq<Event>, c: Config)
    requires Usual(run)
    ensures Inv(After(run, c)) && Fair(After(run, c), c) && AsTold(After(run, c), c)
  {
    RecordFollowsHistory(run, c);
    OnlyTheGuiltyAreBad(run, c);
    RecordIsTold(run, c);
  }

  /**
   * Whatever speaks against a release lists it, over every run: a tick that ends with
   * a wrong image or with its predecessor's answer, and a boot of another image once
   * its attempts are used up and it was not left for want of an answer.
   */
  lemma BlameIsComplete(run: seq<Event>, c: Config)
    requires Usual(run)
    ensures var s, h := After(run, c).state, After(run, c).history;
            && (forall t, b :: StorableEvent(Ticked(t)) && RunTick(s, t, c).facts != []
                               && SpeaksAgainst(h + RunTick(s, t, c).facts, b, c) ==>
                                 b in RunTick(s, t, c).state.record.bad)
            && (forall version, pv ::
                  Told(h, c).phase == Installed && version != Told(h, c).target.version
                  && Exhausted(h, Told(h, c).target, c) ==>
                    Told(h, c).target in Boot(s, version, pv, c).state.record.bad)
  {
    var w := After(run, c);
    var s, h := w.state, w.history;
    Reachable(run, c);
    forall t, b | StorableEvent(Ticked(t)) && RunTick(s, t, c).facts != []
                  && SpeaksAgainst(h + RunTick(s, t, c).facts, b, c)
      ensures b in RunTick(s, t, c).state.record.bad
    {
      TickBlames(w, t, b, c);
    }
    forall version, pv | Told(h, c).phase == Installed && version != Told(h, c).target.version
                         && Exhausted(h, Told(h, c).target, c)
      ensures Told(h, c).target in Boot(s, version, pv, c).state.record.bad
    {
      RebootBlames(w, version, pv, c);
    }
  }

  // ----- what has happened since the device was switched on -----

  /** How the self-tests came out at the first tick from the stability window on. */
  function FirstTest(run: seq<Event>, c: Config): Option<bool> {
    if run == [] || run[|run| - 1].PowerOn? then None
    else
      var before, t := FirstTest(run[..|run| - 1], c), run[|run| - 1].t;
      if before.Some? then before else if t.now >= c.stable then Some(t.testsPass) else None
  }

  /** When the server's first answer came, at least 1. */
  function FirstAnswer(run: seq<Event>): (at: Option<nat>)
    ensures at.Some? ==> at.value >= 1
  {
    if run == [] || run[|run| - 1].PowerOn? then None
    else
      var before, t := FirstAnswer(run[..|run| - 1]), run[|run| - 1].t;
      if before.Some? then before else if t.answered then Some(Max(1, t.answeredAt)) else None
  }

  /** While it watches an image, the controller knows exactly that. */
  ghost predicate Remembers(s: State, run: seq<Event>, c: Config) {
    Watching(s) ==>
      && (s.situation == Validating ==> s.selfTests == FirstTest(run, c))
      && s.reachableAt == if FirstAnswer(run).Some? then FirstAnswer(run).value else 0
  }

  lemma HandleLeavesWatch(s: State, t: Tick, c: Config)
    requires s.up
    ensures var n := HandleManifest(s, t, c).state;
            n.situation == s.situation && n.selfTests == s.selfTests && n.reachableAt == s.reachableAt
  {
  }

  lemma WatchRemembers(run: seq<Event>, s: State, t: Tick, c: Config)
    requires Remembers(s, run, c) && s.up
    ensures Remembers(Watch(s, t, c).state, run + [Ticked(t)], c)
  {
    assert (run + [Ticked(t)])[..|run|] == run;
    assert (run + [Ticked(t)])[|run|] == Ticked(t);
  }

  lemma HandleRemembers(run: seq<Event>, s: State, t: Tick, c: Config)
    requires Remembers(s, run, c) && s.up
    ensures Remembers(HandleManifest(s, t, c).state, run, c)
  {
    HandleLeavesWatch(s, t, c);
  }

  lemma TickRemembers(run: seq<Event>, s: State, t: Tick, c: Config)
    requires Remembers(s, run, c)
    ensures Remembers(RunTick(s, t, c).state, run + [Ticked(t)], c)
  {
    var after, n := run + [Ticked(t)], RunTick(s, t, c).state;
    if s.up {
      var watched := Watch(s, t, c).state;
      WatchRemembers(run, s, t, c);
      if watched.up {
        HandleRemembers(after, watched, t, c);
        assert n == HandleManifest(watched, t, c).state;
      } else {
        assert n == watched;
      }
    } else {
      assert n == s;
    }
  }

  lemma {:induction false} ControllerRemembers(run: seq<Event>, c: Config)
    ensures Remembers(After(run, c).state, run, c)
  {
    if run == [] {
    } else {
      var front := run[..|run| - 1];
      assert front + [run[|run| - 1]] == run;
      ControllerRemembers(front, c);
      match run[|run| - 1]
      case PowerOn(version, pendingVerify) =>
      case Ticked(t) => TickRemembers(front, After(front, c).state, t, c);
    }
  }
}
