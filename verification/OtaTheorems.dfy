/** What holds over every run of the update machine: the attempt bound, who may be blamed, and a dead end. */
module OtaTheorems {
  import opened Wrappers
  import opened Text
  import opened OtaPolicy
  import opened OtaCodec
  import opened OtaSteps
  import opened OtaRuns

  // ----- the attempt bound -----

  function Bound(c: Config): nat { Max(1, c.maxAttempts) }

  ghost predicate WithinBound(h: seq<Fact>, c: Config) { forall b :: Streak(h, b) <= Bound(c) }

  predicate NoWrites(fs: seq<Fact>) { forall i :: 0 <= i < |fs| ==> !fs[i].Wrote? }

  lemma {:induction false} NoWritesNoStreak(h: seq<Fact>, fs: seq<Fact>, b: Release)
    requires NoWrites(fs)
    ensures Streak(h + fs, b) <= Streak(h, b)
  {
    if fs == [] {
      assert h + fs == h;
    } else {
      NoWritesNoStreak(h, Front(fs), b);
      assert Front(h + fs) == h + Front(fs);
      assert Last(h + fs) == Last(fs);
    }
  }

  lemma BoundStays(h: seq<Fact>, fs: seq<Fact>, c: Config)
    requires NoWrites(fs) && WithinBound(h, c)
    ensures WithinBound(h + fs, c)
  {
    forall b ensures Streak(h + fs, b) <= Bound(c) {
      NoWritesNoStreak(h, fs, b);
    }
  }

  lemma WatchWritesNothing(s: State, t: Tick, c: Config)
    ensures NoWrites(Watch(s, t, c).facts)
  {
  }

  /** Once its installs are used up a release is refused, whatever runs and however often it is asked for. */
  lemma ExhaustedIsFinal(w: World, m: Release, running: string, pendingVerify: bool, c: Config)
    requires Inv(w) && Streak(w.history, m) >= Bound(c)
    ensures DecideManifest(w.state.record, m, running, pendingVerify, c.maxAttempts) != Install
  {
    assert w.state.record.target == m;
  }

  lemma HandleWithinBound(s: State, h: seq<Fact>, t: Tick, c: Config)
    requires Inv(World(s, h)) && StorableEvent(Ticked(t)) && WithinBound(h, c)
    ensures WithinBound(h + HandleManifest(s, t, c).facts, c)
  {
    var fs := HandleManifest(s, t, c).facts;
    if NoWrites(fs) {
      BoundStays(h, fs, c);
    } else {
      var s1 := Requested(s, t);
      var m := s1.current.value;
      assert fs == [Wrote(m)] && Front(h + fs) == h;
      RequestedKeeps(s, h, t);
      if Streak(h, m) >= Bound(c) {
        ExhaustedIsFinal(World(s1, h), m, s1.running, s1.pendingVerify, c);
      }
    }
  }

  lemma StepWithinBound(w: World, e: Event, c: Config)
    requires Inv(w) && StorableEvent(e) && WithinBound(w.history, c)
    ensures WithinBound(w.history + Step(w.state, e, c).facts, c)
  {
    var s, h := w.state, w.history;
    NothingNoted(w);
    match e
    case PowerOn(version, _) => BoundStays(h, [Ran(version)], c);
    case Ticked(t) =>
      if s.up {
        var watched := Watch(s, t, c);
        WatchKeeps(s, h, t, c);
        WatchWritesNothing(s, t, c);
        BoundStays(h, watched.facts, c);
        if watched.state.up {
          HandleWithinBound(watched.state, h + watched.facts, t, c);
          NotedInTurn(h, watched.facts, HandleManifest(watched.state, t, c).facts);
        }
      }
  }

  /** Over every run, no release is installed more often in a row than the setting allows. */
  lemma {:induction false} AttemptsAreBounded(run: seq<Event>, c: Config)
    requires StorableRun(run)
    ensures WithinBound(After(run, c).history, c)
  {
    if run == [] {
    } else {
      var front := run[..|run| - 1];
      assert forall i :: 0 <= i < |front| ==> front[i] == run[i];
      AttemptsAreBounded(front, c);
      RecordFollowsHistory(front, c);
      StepWithinBound(After(front, c), run[|run| - 1], c);
    }
  }

  function Installs(h: seq<Fact>): nat {
    if h == [] then 0 else Installs(Front(h)) + if Last(h).Wrote? then 1 else 0
  }

  /** With one request and nothing kept, the streak is the number of installs. */
  lemma {:induction false} StreakIsAllInstalls(h: seq<Fact>, m: Release)
    requires forall f :: f in h ==> !f.Kept? && (f.Wrote? ==> f.release == m)
    ensures Streak(h, m) == Installs(h)
  {
    if h == [] {
    } else {
      StreakIsAllInstalls(Front(h), m);
    }
  }

  // ----- exactly which requests the bound covers -----

  predicate OnlyRequests(run: seq<Event>, m: Release) {
    forall i :: 0 <= i < |run| ==>
      match run[i]
      case PowerOn(version, _) => StorableVersion(version)
      case Ticked(t) => t.request.Some? && t.request.value.Some? ==> t.request.value.value == m
  }

  function Other(a: string, b: string): (v: string)
    ensures v != a && v != b && StorableVersion(v)
  {
    if a != "1" && b != "1" then "1" else if a != "2" && b != "2" then "2" else "3"
  }

  function Ask(m: Release): Tick { Tick(0, true, true, 0, true, Some(Some(m)), 0, true, true, Done) }

  /** A name that the store cannot keep is never what was loaded. */
  lemma UnstorableIsForgotten(nvs: string, blob: string, m: Release)
    requires !Storable(m) && nvs == Stored(blob)
    ensures Decode(nvs).target != m && m !in Decode(nvs).bad
  {
    LoadedLacks(blob);
  }

  predicate Ready(s: State, m: Release, v: string) {
    && s.up && s.running == v && !s.pendingVerify && s.record.target != m && m !in s.record.bad
    && s.situation != Validating && s.reachableAt == 0
    && (s.situation == ProbingPrevious || s.record.phase == Idle)
  }

  lemma BootIsReady(s: State, blob: string, m: Release, c: Config)
    requires !Storable(m) && s.nvs == Stored(blob)
    ensures var v := Other(m.version, Decode(s.nvs).target.version); Ready(Boot(s, v, false, c).state, m, v)
  {
    UnstorableIsForgotten(s.nvs, blob, m);
  }

  lemma ReadyInstalls(s: State, h: seq<Fact>, m: Release, v: string, c: Config)
    requires Ready(s, m, v) && v != m.version
    ensures var o := RunTick(s, Ask(m), c);
            Streak(h + o.facts, m) == Streak(h, m) + 1 && o.state.nvs == Stored(Encode(o.state.record))
  {
    var t := Ask(m);
    var watched := Watch(s, t, c);
    var o := RunTick(s, t, c);
    assert watched.state.up && watched.state.record.phase == Idle && watched.state.record.target != m;
    assert m !in watched.state.record.bad;
    assert o.facts == watched.facts + [Wrote(m)];
    assert Front(h + o.facts) == h + watched.facts && Last(h + o.facts) == Wrote(m);
    if watched.facts == [] {
      assert h + watched.facts == h;
    } else {
      assert watched.facts == [Reached(v, 1)];
      NeutralFact(h, Reached(v, 1), m, c);
    }
  }

  lemma AfterOne(run: seq<Event>, e: Event, c: Config)
    ensures var w := After(run, c); var o := Step(w.state, e, c);
            After(run + [e], c) == World(o.state, w.history + o.facts)
  {
    assert (run + [e])[..|run|] == run;
  }

  ghost predicate WasStored(nvs: string) { exists blob :: nvs == Stored(blob) }

  function AskedAgain(run: seq<Event>, m: Release, v: string): seq<Event> {
    run + [PowerOn(v, false)] + [Ticked(Ask(m))]
  }

  lemma AskedOnly(run: seq<Event>, m: Release, v: string)
    requires OnlyRequests(run, m) && StorableVersion(v)
    ensures OnlyRequests(AskedAgain(run, m, v), m)
  {
  }

  /** One boot of another image and one request: another install. */
  lemma AskedInstalls(run: seq<Event>, m: Release, c: Config) returns (v: string)
    requires !Storable(m) && WasStored(After(run, c).state.nvs)
    ensures StorableVersion(v)
    ensures Streak(After(AskedAgain(run, m, v), c).history, m) == Streak(After(run, c).history, m) + 1
    ensures WasStored(After(AskedAgain(run, m, v), c).state.nvs)
  {
    var w := After(run, c);
    var blob :| w.state.nvs == Stored(blob);
    v := Other(m.version, Decode(w.state.nvs).target.version);
    BootIsReady(w.state, blob, m, c);
    NeutralFact(w.history, Ran(v), m, c);
    AfterOne(run, PowerOn(v, false), c);
    var booted := After(run + [PowerOn(v, false)], c);
    ReadyInstalls(booted.state, booted.history, m, v, c);
    AfterOne(run + [PowerOn(v, false)], Ticked(Ask(m)), c);
  }

  /** A request whose name holds a newline or a NUL is installed again at every boot. */
  lemma {:induction false} UnstorableIsInstalledForever(m: Release, n: nat, c: Config) returns (run: seq<Event>)
    requires !Storable(m)
    ensures OnlyRequests(run, m) && WasStored(After(run, c).state.nvs)
    ensures Streak(After(run, c).history, m) == n
  {
    if n == 0 {
      run := [];
      assert After(run, c).state.nvs == Stored("");
    } else {
      var front := UnstorableIsInstalledForever(m, n - 1, c);
      var v := AskedInstalls(front, m, c);
      AskedOnly(front, m, v);
      run := AskedAgain(front, m, v);
    }
  }

  /** The attempt bound holds for a retained request exactly when its names fit the store. */
  lemma AttemptsAreBoundedIff(m: Release, c: Config)
    ensures (forall run :: OnlyRequests(run, m) ==> Streak(After(run, c).history, m) <= Bound(c)) <==> Storable(m)
  {
    if Storable(m) {
      forall run | OnlyRequests(run, m) ensures Streak(After(run, c).history, m) <= Bound(c) {
        assert StorableRun(run);
        AttemptsAreBounded(run, c);
      }
    } else {
      var run := UnstorableIsInstalledForever(m, Bound(c) + 1, c);
    }
  }

  lemma MissedInstalls(r: Record, h: seq<Fact>, m: Release)
    requires r.target != m && Streak(h, m) > 0
    ensures !Counted(r, h)
  {
  }

  /** A request that does not fit the store is forgotten at the next boot, with its install. */
  lemma InstallIsForgotten(m: Release, c: Config) returns (run: seq<Event>)
    requires !Storable(m)
    ensures OnlyRequests(run, m) && !Counted(After(run, c).state.record, After(run, c).history)
  {
    var front := UnstorableIsInstalledForever(m, 1, c);
    var w := After(front, c);
    var v := Other(m.version, Decode(w.state.nvs).target.version);
    run := front + [PowerOn(v, false)];
    AfterOne(front, PowerOn(v, false), c);
    NeutralFact(w.history, Ran(v), m, c);
    assert After(run, c).state.record.target != m by {
      var blob :| w.state.nvs == Stored(blob);
      BootIsReady(w.state, blob, m, c);
    }
    MissedInstalls(After(run, c).state.record, After(run, c).history, m);
  }

  /** The record counts the installs of a retained request, over all runs, exactly when its names fit the store. */
  lemma RecordFollowsHistoryIff(m: Release, c: Config)
    ensures (forall run :: OnlyRequests(run, m) ==> Counted(After(run, c).state.record, After(run, c).history))
       <==> Storable(m)
  {
    if Storable(m) {
      forall run | OnlyRequests(run, m)
        ensures Counted(After(run, c).state.record, After(run, c).history)
      {
        assert StorableRun(run);
        RecordFollowsHistory(run, c);
      }
    } else {
      var run := InstallIsForgotten(m, c);
    }
  }

  // ----- blame -----

  predicate TabFree(b: Release) { Lacks(b.version, '\t') }

  predicate TabFreeState(s: State) {
    && TabFree(s.record.target) && (s.current.Some? ==> TabFree(s.current.value))
    && forall i :: 0 <= i < |s.record.bad| ==> TabFree(s.record.bad[i])
  }

  predicate TabFreeEvent(e: Event) {
    e.Ticked? && e.t.request.Some? && e.t.request.value.Some? ==> TabFree(e.t.request.value.value)
  }

  predicate AllGuilty(bad: seq<Release>, h: seq<Fact>, c: Config) {
    forall i :: 0 <= i < |bad| ==> Guilty(h, bad[i], c)
  }

  predicate Fair(w: World, c: Config) { TabFreeState(w.state) && AllGuilty(w.state.record.bad, w.history, c) }

  lemma {:induction false} GuiltyStays(bad: seq<Release>, h: seq<Fact>, fs: seq<Fact>, c: Config)
    requires AllGuilty(bad, h, c)
    ensures AllGuilty(bad, h + fs, c)
  {
    if fs == [] {
      assert h + fs == h;
    } else {
      GuiltyStays(bad, h, Front(fs), c);
      assert Front(h + fs) == h + Front(fs);
    }
  }

  lemma MarkedGuilty(r: Record, m: Release, h: seq<Fact>, c: Config)
    requires AllGuilty(r.bad, h, c) && Guilty(h, m, c)
    ensures AllGuilty(MarkBad(r, m).bad, h, c)
  {
  }

  lemma MarkedTabFree(r: Record, m: Release)
    requires TabFree(m) && forall i :: 0 <= i < |r.bad| ==> TabFree(r.bad[i])
    ensures forall i :: 0 <= i < |MarkBad(r, m).bad| ==> TabFree(MarkBad(r, m).bad[i])
  {
  }

  lemma BootIsFair(w: World, version: string, pendingVerify: bool, c: Config)
    requires Inv(w) && Fair(w, c)
    ensures Fair(World(Boot(w.state, version, pendingVerify, c).state, w.history + [Ran(version)]), c)
  {
    var r, h := w.state.record, w.history + [Ran(version)];
    ResplitsAreSameIff(r.bad);
    GuiltyStays(r.bad, w.history, [Ran(version)], c);
    NeutralFact(w.history, Ran(version), r.target, c);
    if r.phase == Installed && version != r.target.version && r.attempts >= c.maxAttempts {
      assert SpeaksAgainst(h, r.target, c);
      MarkedGuilty(r, r.target, h, c);
      MarkedTabFree(r, r.target);
    }
  }

  lemma ProbeIsFair(s: State, h: seq<Fact>, t: Tick, c: Config)
    requires Inv(World(s, h)) && Fair(World(s, h), c) && s.up && s.situation == ProbingPrevious
    ensures var o := Probe(s, t, c); Fair(World(o.state, h + o.facts), c)
  {
    var o := Probe(s, t, c);
    var r, at := s.record, Reach(s, t).reachableAt;
    GuiltyStays(r.bad, h, o.facts, c);
    if at != 0 && ProbeMarks(r, EvaluateProbe(at, c.deadline), c.maxAttempts) {
      NeutralFact(h, Reached(s.running, at), r.target, c);
      assert SpeaksAgainst(h + o.facts, r.target, c);
      MarkedGuilty(r, r.target, h + o.facts, c);
      MarkedTabFree(r, r.target);
    }
  }

  lemma CarryOutBlamesNobody(s: State, v: OtaPolicy.Verdict, rollsBack: bool)
    ensures var n := CarryOut(s, v, rollsBack);
            n.record.bad == s.record.bad && n.record.target == s.record.target && n.current == s.current
  {
  }

  lemma ValidateIsFair(s: State, h: seq<Fact>, t: Tick, c: Config)
    requires Fair(World(s, h), c)
    ensures var o := Validate(s, t, c); Fair(World(o.state, h + o.facts), c)
  {
    var s1 := Reach(Tested(s, t, c), t);
    CarryOutBlamesNobody(s1, OtaSteps.Verdict(s1, t, c), t.rollsBack);
    GuiltyStays(s.record.bad, h, Validate(s, t, c).facts, c);
  }

  lemma WatchIsFair(s: State, h: seq<Fact>, t: Tick, c: Config)
    requires Inv(World(s, h)) && Fair(World(s, h), c) && s.up
    ensures var o := Watch(s, t, c); Fair(World(o.state, h + o.facts), c)
  {
    NothingNoted(World(s, h));
    if s.situation == Validating {
      ValidateIsFair(s, h, t, c);
    } else if s.situation == ProbingPrevious {
      ProbeIsFair(s, h, t, c);
    }
  }

  lemma HandleIsFair(s: State, h: seq<Fact>, t: Tick, c: Config)
    requires Fair(World(s, h), c) && TabFreeEvent(Ticked(t))
    ensures var o := HandleManifest(s, t, c); Fair(World(o.state, h + o.facts), c)
  {
    var o := HandleManifest(s, t, c);
    GuiltyStays(s.record.bad, h, o.facts, c);
    if o.facts != [] && o.facts[0].Refused? {
      var m := Requested(s, t).current.value;
      assert SpeaksAgainst(h + o.facts, m, c);
      MarkedGuilty(s.record, m, h + o.facts, c);
      MarkedTabFree(s.record, m);
    }
  }

  lemma StepIsFair(w: World, e: Event, c: Config)
    requires Inv(w) && Fair(w, c) && StorableEvent(e) && TabFreeEvent(e)
    ensures var o := Step(w.state, e, c); Fair(World(o.state, w.history + o.facts), c)
  {
    var s, h := w.state, w.history;
    NothingNoted(w);
    match e
    case PowerOn(version, pendingVerify) => BootIsFair(w, version, pendingVerify, c);
    case Ticked(t) =>
      if s.up {
        var watched := Watch(s, t, c);
        WatchIsFair(s, h, t, c);
        if watched.state.up {
          HandleIsFair(watched.state, h + watched.facts, t, c);
          NotedInTurn(h, watched.facts, HandleManifest(watched.state, t, c).facts);
        }
      }
  }

  /** Over every run, a release is refused for good only when the history holds a reason. */
  lemma {:induction false} OnlyTheGuiltyAreBad(run: seq<Event>, c: Config)
    requires StorableRun(run) && forall i :: 0 <= i < |run| ==> TabFreeEvent(run[i])
    ensures Fair(After(run, c), c)
  {
    if run == [] {
    } else {
      var front := run[..|run| - 1];
      assert forall i :: 0 <= i < |front| ==> front[i] == run[i];
      OnlyTheGuiltyAreBad(front, c);
      RecordFollowsHistory(front, c);
      StepIsFair(After(front, c), run[|run| - 1], c);
    }
  }

  function Refuse(m: Release): Tick { Ask(m).(download := BadImage) }

  /** A first boot and a request. */
  function FirstRequest(v: string, t: Tick): seq<Event> { [PowerOn(v, false), Ticked(t)] }

  /** A wrong image, and a reboot. */
  function RefusedRun(m: Release): seq<Event> {
    FirstRequest(Other(m.version, ""), Refuse(m)) + [PowerOn(Other(m.version, ""), false)]
  }

  /** An idle device that has never been updated. */
  predicate Untouched(s: State, v: string) {
    && s.up && s.situation == Normal && s.record == EMPTY && s.running == v && !s.pendingVerify && s.current == None
  }

  lemma FirstBoot(v: string, c: Config)
    ensures Untouched(Boot(START.state, v, false, c).state, v) && After([PowerOn(v, false)], c).history == [Ran(v)]
    ensures After([PowerOn(v, false)], c).state == Boot(START.state, v, false, c).state
  {
    assert Decode("") == EMPTY;
    AfterOne([], PowerOn(v, false), c);
    assert [] + [PowerOn(v, false)] == [PowerOn(v, false)] && [] + [Ran(v)] == [Ran(v)];
  }

  lemma FirstFetch(s: State, v: string, m: Release, t: Tick, c: Config)
    requires Untouched(s, v) && v != m.version && m != EMPTY.target
    requires t.request == Some(Some(m)) && t.wifi && t.gateOpen
    ensures var f := Fetch(Requested(s, t), m, t);
            RunTick(s, t, c).state == f.state && RunTick(s, t, c).facts == f.facts
  {
    var f := Fetch(Requested(s, t), m, t);
    assert Decide(Requested(s, t), t, c) == Install;
    assert HandleManifest(s, t, c) == f;
    assert [] + f.facts == f.facts;
  }

  lemma AfterFirstFetch(v: string, m: Release, t: Tick, c: Config)
    requires v != m.version && m != EMPTY.target && t.request == Some(Some(m)) && t.wifi && t.gateOpen
    ensures var s := Boot(START.state, v, false, c).state;
            var f, w := Fetch(Requested(s, t), m, t), After(FirstRequest(v, t), c);
            w.state == f.state && w.history == [Ran(v)] + f.facts
  {
    var s := Boot(START.state, v, false, c).state;
    FirstBoot(v, c);
    FirstFetch(s, v, m, t, c);
    AfterOne([PowerOn(v, false)], Ticked(t), c);
    assert [PowerOn(v, false)] + [Ticked(t)] == FirstRequest(v, t);
  }

  lemma RefusedIsMarked(m: Release, c: Config)
    requires Storable(m) && m != EMPTY.target
    ensures var v, w := Other(m.version, ""), After(FirstRequest(Other(m.version, ""), Refuse(m)), c);
            w.history == [Ran(v), Refused(m)] && w.state.record == EMPTY.(bad := [m])
            && w.state.nvs == Stored(Encode(w.state.record))
  {
    var v := Other(m.version, "");
    FirstBoot(v, c);
    AfterFirstFetch(v, m, Refuse(m), c);
    assert ([m] + [])[..1] == [m];
  }

  /** After the reboot the release is on the list under the name its tab splits it into. */
  lemma RefusedIsResplit(m: Release, c: Config)
    requires Storable(m) && m != EMPTY.target
    ensures var v, w := Other(m.version, ""), After(RefusedRun(m), c);
            w.history == [Ran(v), Refused(m), Ran(v)] && w.state.record.bad == [Resplit(m)]
  {
    var v := Other(m.version, "");
    var first := FirstRequest(v, Refuse(m));
    RefusedIsMarked(m, c);
    SavedReadsBack(EMPTY.(bad := [m]));
    AfterOne(first, PowerOn(v, false), c);
    assert Resplits([m]) == [Resplit(m)];
    assert [Ran(v), Refused(m)] + [Ran(v)] == [Ran(v), Refused(m), Ran(v)];
  }

  lemma NobodyElseIsGuilty(m: Release, b: Release, v: string, c: Config)
    requires b != m
    ensures !Guilty([Ran(v), Refused(m), Ran(v)], b, c)
  {
    var h1, h2, h3 := [Ran(v)], [Ran(v), Refused(m)], [Ran(v), Refused(m), Ran(v)];
    assert Front(h1) == [] && Front(h2) == h1 && Front(h3) == h2;
    assert Streak(h1, b) == 0 && Streak(h2, b) == 0 && Streak(h3, b) == 0;
    assert !Guilty(h1, b, c) && !Guilty(h2, b, c);
  }

  lemma TabBlamesAnother(m: Release, c: Config)
    requires Storable(m) && !TabFree(m)
    ensures OnlyRequests(RefusedRun(m), m)
    ensures var w := After(RefusedRun(m), c); |w.state.record.bad| > 0 && !Guilty(w.history, w.state.record.bad[0], c)
  {
    RefusedIsResplit(m, c);
    ResplitIsSameIff(m);
    NobodyElseIsGuilty(m, Resplit(m), Other(m.version, ""), c);
  }

  /**
   * Of a retained request that the store keeps: only the guilty are refused for
   * good, whatever happens to it, exactly when its version holds no tab.
   */
  lemma GuiltyOfStorableIff(m: Release, c: Config)
    requires Storable(m)
    ensures (forall run :: OnlyRequests(run, m) ==>
               AllGuilty(After(run, c).state.record.bad, After(run, c).history, c))
       <==> TabFree(m)
  {
    if TabFree(m) {
      forall run | OnlyRequests(run, m)
        ensures AllGuilty(After(run, c).state.record.bad, After(run, c).history, c)
      {
        OnlyTheGuiltyAreBad(run, c);
      }
    } else {
      var w := After(RefusedRun(m), c);
      TabBlamesAnother(m, c);
      assert !AllGuilty(w.state.record.bad, w.history, c);
    }
  }

  // ----- a dead end -----

  /** The verdict of one look at the image under validation. */
  function VerdictAt(s: State, t: Tick, c: Config): OtaPolicy.Verdict {
    OtaSteps.Verdict(Reach(Tested(s, t, c), t), t, c)
  }

  function TickAll(s: State, ticks: seq<Tick>, c: Config): State {
    if ticks == [] then s else RunTick(TickAll(s, ticks[..|ticks| - 1], c), ticks[|ticks| - 1], c).state
  }

  /** Nothing is under test, and the image that runs still counts as pending. */
  predicate Stuck(s: State) { s.up && s.situation == Normal && s.pendingVerify }

  lemma {:induction false} StuckStays(s: State, ticks: seq<Tick>, c: Config)
    requires Stuck(s)
    ensures Stuck(TickAll(s, ticks, c)) && TickAll(s, ticks, c).record == s.record
  {
    if ticks == [] {
    } else {
      StuckStays(s, ticks[..|ticks| - 1], c);
    }
  }

  lemma StuckWritesNothing(s: State, t: Tick, c: Config)
    requires Stuck(s)
    ensures NoWrites(RunTick(s, t, c).facts)
  {
  }

  /** A request that nothing on record speaks against. */
  predicate Eligible(s: State, m: Release, c: Config) {
    m.version != s.running && m !in s.record.bad && (s.record.target == m ==> s.record.attempts < c.maxAttempts)
  }

  /** Some tick of this boot, after any others, installs the request. */
  ghost predicate CanInstall(s: State, m: Release, c: Config) {
    exists ticks: seq<Tick>, t: Tick :: Wrote(m) in RunTick(TickAll(s, ticks, c), t, c).facts
  }

  lemma SettledCanInstall(s: State, m: Release, c: Config)
    requires s.up && s.situation == Normal && s.record.phase == Idle && !s.pendingVerify && Eligible(s, m, c)
    ensures CanInstall(s, m, c)
  {
    assert TickAll(s, [], c) == s;
    assert RunTick(s, Ask(m), c).facts == [] + [Wrote(m)];
    assert Wrote(m) in RunTick(TickAll(s, [], c), Ask(m), c).facts;
  }

  lemma HandleKeepsNothing(s: State, t: Tick, c: Config)
    ensures forall f :: f in HandleManifest(s, t, c).facts ==> !f.Kept?
    ensures HandleManifest(s, t, c).state.up && s.up ==>
      var n := HandleManifest(s, t, c).state;
      n.situation == s.situation && n.record.phase == s.record.phase && n.pendingVerify == s.pendingVerify
  {
  }

  lemma ValidateKept(s: State, t: Tick, c: Config)
    requires s.situation == Validating && s.up && Kept(s.running) in Validate(s, t, c).facts
    ensures var n := Validate(s, t, c).state;
            && n.up && n.situation == Normal && n.record.phase == Idle
            && n.pendingVerify == (s.pendingVerify && VerdictAt(s, t, c) != Confirm)
  {
    var s1 := Reach(Tested(s, t, c), t);
    assert forall f :: f in Noted(s1, t, c) ==> !f.Kept?;
    assert Keeps(VerdictAt(s, t, c), t.rollsBack);
  }

  /** What a tick that keeps the image leaves behind, if it installs nothing itself. */
  lemma KeptState(s: State, t: Tick, c: Config)
    requires s.up && s.situation == Validating
    requires Kept(s.running) in RunTick(s, t, c).facts && RunTick(s, t, c).state.up
    ensures var n := RunTick(s, t, c).state;
            && n.situation == Normal && n.record.phase == Idle
            && n.pendingVerify == (s.pendingVerify && VerdictAt(s, t, c) != Confirm)
  {
    var watched := Validate(s, t, c);
    HandleKeepsNothing(watched.state, t, c);
    assert Kept(s.running) in watched.facts;
    ValidateKept(s, t, c);
  }

  /**
   * An image that a tick keeps takes an eligible update later in the same boot
   * exactly when it was confirmed, or was not pending in the first place.
   */
  lemma KeptTakesUpdatesIff(s: State, t: Tick, m: Release, c: Config)
    requires s.up && s.situation == Validating
    requires Kept(s.running) in RunTick(s, t, c).facts && RunTick(s, t, c).state.up
    requires Eligible(RunTick(s, t, c).state, m, c)
    ensures CanInstall(RunTick(s, t, c).state, m, c) <==> VerdictAt(s, t, c) == Confirm || !s.pendingVerify
  {
    var n := RunTick(s, t, c).state;
    KeptState(s, t, c);
    if n.pendingVerify {
      forall ticks: seq<Tick>, u: Tick ensures Wrote(m) !in RunTick(TickAll(n, ticks, c), u, c).facts {
        StuckStays(n, ticks, c);
        StuckWritesNothing(TickAll(n, ticks, c), u, c);
      }
    } else {
      SettledCanInstall(n, m, c);
    }
  }

  const UPDATE := Release("2", "r")

  /** A tick past the stability window in which a self-test fails and the bootloader has nothing to go back to. */
  function FailsWithNoWayBack(c: Config): Tick { Tick(c.stable, false, false, 0, false, None, 0, true, true, Done) }

  function PendingRun(): seq<Event> { FirstRequest("1", Ask(UPDATE)) + [PowerOn("2", true)] }

  function DeadEndRun(c: Config): seq<Event> { PendingRun() + [Ticked(FailsWithNoWayBack(c))] }

  const INSTALLED := Record(Installed, UPDATE, "1", 1, "", [])

  lemma UpdateIsInstalled(c: Config)
    ensures After(FirstRequest("1", Ask(UPDATE)), c).state.nvs == Stored(Encode(INSTALLED))
  {
    FirstBoot("1", c);
    AfterFirstFetch("1", UPDATE, Ask(UPDATE), c);
  }

  lemma InstalledReadsBack()
    ensures Decode(Stored(Encode(INSTALLED))) == INSTALLED
  {
    SavedReadsBack(INSTALLED);
    assert Resplits([]) == [];
  }

  lemma UpdateIsValidating(c: Config)
    ensures var s := After(PendingRun(), c).state;
            && s.up && s.situation == Validating && s.pendingVerify && s.selfTests == None && s.reachableAt == 0
            && s.running == "2" && s.current == None && s.record == INSTALLED
  {
    var first := FirstRequest("1", Ask(UPDATE));
    UpdateIsInstalled(c);
    InstalledReadsBack();
    BootsValidating(After(first, c).state, c);
    AfterOne(first, PowerOn("2", true), c);
  }

  lemma BootsValidating(s: State, c: Config)
    requires Decode(s.nvs) == INSTALLED
    ensures var n := Boot(s, "2", true, c).state;
            && n.up && n.situation == Validating && n.pendingVerify && n.selfTests == None && n.reachableAt == 0
            && n.running == "2" && n.current == None && n.record == INSTALLED
  {
  }

  /**
   * There is a run into the dead end: install, boot the pending image, fail its
   * self-test, find nothing to go back to.
   */
  lemma DeadEndIsReached(c: Config, m: Release)
    requires m.version != "2" && m != UPDATE
    ensures var s, n, t := After(PendingRun(), c).state, After(DeadEndRun(c), c).state, FailsWithNoWayBack(c);
            && s.up && s.situation == Validating && s.pendingVerify && VerdictAt(s, t, c) == RollbackSelfTest
            && n == RunTick(s, t, c).state && Kept(s.running) in RunTick(s, t, c).facts
            && Stuck(n) && Eligible(n, m, c) && !CanInstall(n, m, c)
  {
    var t := FailsWithNoWayBack(c);
    var s := After(PendingRun(), c).state;
    UpdateIsValidating(c);
    AfterOne(PendingRun(), Ticked(t), c);
    var n := RunTick(s, t, c).state;
    assert Tested(s, t, c).selfTests == Some(false);
    assert Validate(s, t, c).facts[|Validate(s, t, c).facts| - 1] == Kept("2");
    KeptTakesUpdatesIff(s, t, m, c);
  }

  // ----- the deadline -----

  /** Validation has decided by the deadline, in whatever state, exactly when the stability window ends no later. */
  lemma ValidationEndsAtDeadlineIff(c: Config)
    ensures (forall s: State, t: Tick :: t.now >= c.deadline ==> VerdictAt(s, t, c) != Wait) <==> c.stable <= c.deadline
  {
    if c.stable > c.deadline {
      var s := START.state.(reachableAt := 1);
      var t := Tick(c.deadline, true, true, 1, true, None, 0, true, true, Done);
      assert VerdictAt(s, t, c) == Wait;
    } else {
      forall s: State, t: Tick | t.now >= c.deadline ensures VerdictAt(s, t, c) != Wait {
        var tests := Reach(Tested(s, t, c), t).selfTests;
        if tests.value { assert tests == Some(true); } else { assert tests == Some(false); }
      }
    }
  }
}
