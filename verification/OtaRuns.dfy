/** Whole runs of the update machine: any image may boot, any request arrive, any download end in any way. */
module OtaRuns {
  import opened Wrappers
  import opened Text
  import opened OtaPolicy
  import opened OtaCodec
  import opened OtaSteps

  datatype Event = PowerOn(version: string, pendingVerify: bool) | Ticked(t: Tick)

  /** The controller and everything the observer has noted so far. */
  datatype World = World(state: State, history: seq<Fact>)

  const START := World(State("", EMPTY, Normal, None, 0, None, 0, "", false, false), [])

  function Step(s: State, e: Event, c: Config): Outcome {
    match e
    case PowerOn(version, pendingVerify) => Boot(s, version, pendingVerify, c)
    case Ticked(t) => RunTick(s, t, c)
  }

  function After(run: seq<Event>, c: Config): World {
    if run == [] then START
    else
      var w := After(run[..|run| - 1], c);
      var o := Step(w.state, run[|run| - 1], c);
      World(o.state, w.history + o.facts)
  }

  // ----- what the history says, without the record -----

  function Front(h: seq<Fact>): seq<Fact>
    requires h != []
  {
    h[..|h| - 1]
  }

  function Last(h: seq<Fact>): Fact
    requires h != []
  {
    h[|h| - 1]
  }

  /** Installs of b in a row: since an image was kept and since another release was written. */
  function Streak(h: seq<Fact>, b: Release): nat {
    if h == [] then 0
    else match Last(h)
      case Kept(_) => 0
      case Wrote(r) => if r == b then 1 + Streak(Front(h), b) else 0
      case _ => Streak(Front(h), b)
  }

  /** Since the last write, with no image kept, this version ran to the deadline unanswered. */
  predicate TimedOut(h: seq<Fact>, version: string) {
    h != [] && match Last(h)
      case Kept(_) => false
      case Wrote(_) => false
      case Unreached(v) => v == version || TimedOut(Front(h), version)
      case _ => TimedOut(Front(h), version)
  }

  predicate Exhausted(h: seq<Fact>, b: Release, c: Config) { Streak(h, b) >= Max(1, c.maxAttempts) }

  /** Something has just happened that speaks against b. */
  predicate SpeaksAgainst(h: seq<Fact>, b: Release, c: Config) {
    h != [] && match Last(h)
      case Refused(r) => r == b
      case Ran(v) => v != b.version && Exhausted(h, b, c)
      case Reached(v, at) =>
        && v != b.version && Streak(h, b) >= 1 && TimedOut(h, b.version)
        && (0 < at <= c.deadline || Exhausted(h, b, c))
      case _ => false
  }

  predicate Guilty(h: seq<Fact>, b: Release, c: Config) {
    h != [] && (SpeaksAgainst(h, b, c) || Guilty(Front(h), b, c))
  }

  predicate Neutral(f: Fact) { !f.Wrote? && !f.Kept? }

  lemma NeutralFact(h: seq<Fact>, f: Fact, b: Release, c: Config)
    ensures Guilty(h, b, c) ==> Guilty(h + [f], b, c)
    ensures Neutral(f) ==> Streak(h + [f], b) == Streak(h, b)
    ensures Neutral(f) && TimedOut(h, b.version) ==> TimedOut(h + [f], b.version)
  {
    assert Front(h + [f]) == h;
  }

  // ----- what every reachable state keeps -----

  predicate Storable(b: Release) { ReleaseLacks(b, '\n') && ReleaseLacks(b, '\0') }

  predicate StorableRecord(r: Record) { RecordLacks(r, '\n') && RecordLacks(r, '\0') && |r.bad| <= MAX_BAD }

  predicate StorableVersion(v: string) { Lacks(v, '\n') && Lacks(v, '\0') }

  /** What is stored is what is in memory, up to where a bad release splits. */
  predicate Synced(s: State) {
    && StorableRecord(s.record) && StorableVersion(s.running)
    && (s.current.Some? ==> Storable(s.current.value))
    && Decode(s.nvs) == s.record.(bad := Resplits(s.record.bad))
  }

  ghost predicate Counted(r: Record, h: seq<Fact>) {
    && r.attempts == Min(255, Streak(h, r.target))
    && (forall b :: b != r.target ==> Streak(h, b) == 0)
    && (r.phase != Idle ==> Streak(h, r.target) >= 1)
    && (r.phase == Probing ==> TimedOut(h, r.target.version))
  }

  predicate InStep(s: State) {
    && (s.up && s.situation == Validating ==> s.record.phase == Installed && s.running == s.record.target.version)
    && (s.up && s.situation == ProbingPrevious ==> s.record.phase == Probing && s.running != s.record.target.version)
    && (s.up && (s.situation == Normal || s.situation == RolledBack) ==> s.record.phase == Idle)
  }

  ghost predicate Inv(w: World) { Synced(w.state) && Counted(w.state.record, w.history) && InStep(w.state) }

  /** What the theorems ask of the world: names that fit on a line of the blob. */
  predicate StorableEvent(e: Event) {
    match e
    case PowerOn(version, _) => StorableVersion(version)
    case Ticked(t) => t.request.Some? && t.request.value.Some? ==> Storable(t.request.value.value)
  }

  predicate StorableRun(run: seq<Event>) { forall i :: 0 <= i < |run| ==> StorableEvent(run[i]) }

  lemma SavedIsSynced(n: State)
    requires StorableRecord(n.record) && StorableVersion(n.running) && n.nvs == Stored(Encode(n.record))
    requires n.current.Some? ==> Storable(n.current.value)
    ensures Synced(n)
  {
    SavedReadsBack(n.record);
  }

  lemma CountedNeutral(r: Record, h: seq<Fact>, f: Fact, c: Config)
    requires Counted(r, h) && Neutral(f)
    ensures Counted(r, h + [f])
  {
    forall b ensures Streak(h + [f], b) == Streak(h, b) {
      NeutralFact(h, f, b, c);
    }
    NeutralFact(h, f, r.target, c);
  }

  lemma BootKeeps(w: World, version: string, pendingVerify: bool, c: Config)
    requires Inv(w) && StorableVersion(version)
    ensures Inv(World(Boot(w.state, version, pendingVerify, c).state, w.history + [Ran(version)]))
  {
    var r := Decode(w.state.nvs);
    var n := Boot(w.state, version, pendingVerify, c).state;
    ResplitsStorable(w.state.record.bad);
    CountedNeutral(r, w.history, Ran(version), c);
    MarkBadStorable(r, r.target);
    SavedIsSynced(n);
  }

  lemma ResplitsStorable(bad: seq<Release>)
    ensures forall i :: 0 <= i < |bad| && Storable(bad[i]) ==> Storable(Resplits(bad)[i])
  {
    forall i | 0 <= i < |bad| && Storable(bad[i]) ensures Storable(Resplit(bad[i])) {
      BadLineLacks(bad[i], '\n');
      BadLineLacks(bad[i], '\0');
    }
  }

  lemma MarkBadStorable(r: Record, m: Release)
    requires StorableRecord(r) && Storable(m)
    ensures StorableRecord(MarkBad(r, m))
  {
  }

  /** Watching the server tells the observer at most one thing, and a timeout tells it enough. */
  lemma SeenKeeps(s: State, h: seq<Fact>, t: Tick, c: Config)
    requires Counted(s.record, h)
    ensures Counted(s.record, h + Seen(s, t, c))
    ensures s.reachableAt == 0 && t.now >= c.deadline ==> TimedOut(h + Seen(s, t, c), s.running)
  {
    var seen := Seen(s, t, c);
    if seen == [] {
      assert h + seen == h;
    } else {
      CountedNeutral(s.record, h, seen[0], c);
      assert Front(h + seen) == h;
    }
  }

  lemma NotedKeeps(s: State, h: seq<Fact>, t: Tick, c: Config)
    requires Counted(s.record, h)
    ensures Counted(s.record, h + Noted(s, t, c))
    ensures s.reachableAt == 0 && t.now >= c.deadline ==> TimedOut(h + Noted(s, t, c), s.running)
  {
    var seen := Seen(s, t, c);
    SeenKeeps(s, h, t, c);
    if s.selfTests == Some(false) {
      CountedNeutral(s.record, h + seen, Failed(s.running), c);
      NeutralFact(h + seen, Failed(s.running), Release(s.running, ""), c);
      NotedInTurn(h, seen, [Failed(s.running)]);
    } else {
      assert seen + [] == seen;
    }
  }

  lemma KeptCounts(r: Record, h: seq<Fact>, version: string)
    ensures Counted(RecordConfirmed(r), h + [Kept(version)])
  {
  }

  lemma ReasonsAreStorable()
    ensures StorableVersion(REASON_SELF_TEST) && StorableVersion(REASON_NO_CONNECTIVITY)
  {
  }

  lemma KeepKeeps(s: State, h: seq<Fact>, n: State)
    requires Synced(s) && n.record == RecordConfirmed(s.record) && n.nvs == Stored(Encode(n.record))
    requires n.running == s.running && n.current == s.current && n.situation == Normal
    ensures Inv(World(n, h + [Kept(s.running)]))
  {
    KeptCounts(s.record, h, s.running);
    SavedIsSynced(n);
  }

  lemma GoBackKeeps(s: State, h: seq<Fact>, v: OtaPolicy.Verdict)
    requires Inv(World(s, h)) && s.up && s.situation == Validating
    requires v == RollbackSelfTest || (v == RollbackNoConnectivity && TimedOut(h, s.running))
    ensures Inv(World(GoBack(s, v).(up := false), h)) && Synced(GoBack(s, v))
  {
    ReasonsAreStorable();
    SavedIsSynced(GoBack(s, v));
    SavedIsSynced(GoBack(s, v).(up := false));
  }

  lemma CarryOutKeeps(s: State, h: seq<Fact>, v: OtaPolicy.Verdict, rollsBack: bool)
    requires Inv(World(s, h)) && s.up && s.situation == Validating
    requires v == RollbackNoConnectivity ==> TimedOut(h, s.running)
    ensures Inv(World(CarryOut(s, v, rollsBack), h + if Keeps(v, rollsBack) then [Kept(s.running)] else []))
  {
    assert h + [] == h;
    match v
    case Wait =>
    case Confirm => KeepKeeps(s, h, CarryOut(s, v, rollsBack));
    case _ =>
      GoBackKeeps(s, h, v);
      if !rollsBack {
        KeepKeeps(GoBack(s, v), h, CarryOut(s, v, rollsBack));
      }
  }

  lemma ValidateKeeps(s: State, h: seq<Fact>, t: Tick, c: Config)
    requires Inv(World(s, h)) && s.up && s.situation == Validating
    ensures Inv(World(Validate(s, t, c).state, h + Validate(s, t, c).facts))
  {
    var s1 := Reach(Tested(s, t, c), t);
    var v := OtaSteps.Verdict(s1, t, c);
    var seen := Noted(s1, t, c);
    NotedKeeps(s1, h, t, c);
    CarryOutKeeps(s1, h + seen, v, t.rollsBack);
    var kept := if Keeps(v, t.rollsBack) then [Kept(s1.running)] else [];
    assert h + (seen + kept) == (h + seen) + kept;
  }

  lemma ProbedCounts(r: Record, h: seq<Fact>, v: ProbeVerdict, f: Fact, c: Config)
    requires Counted(r, h) && Neutral(f) && v != StillWaiting
    ensures Counted(RecordProbeResult(r, v, c.maxAttempts), h + [f])
  {
    CountedNeutral(r, h, f, c);
  }

  lemma ProbedKeeps(s: State, h: seq<Fact>, v: ProbeVerdict, f: Fact, n: State, c: Config)
    requires Inv(World(s, h)) && Neutral(f) && v != StillWaiting
    requires n == Save(s.(record := RecordProbeResult(s.record, v, c.maxAttempts), situation := Normal))
    ensures Inv(World(n, h + [f]))
  {
    MarkBadStorable(s.record, s.record.target);
    ProbedCounts(s.record, h, v, f, c);
    SavedIsSynced(n);
  }

  lemma ProbeKeeps(s: State, h: seq<Fact>, t: Tick, c: Config)
    requires Inv(World(s, h)) && s.up && s.situation == ProbingPrevious
    ensures var o := Probe(s, t, c); Inv(World(o.state, h + o.facts))
  {
    var s1 := Reach(s, t);
    NothingNoted(World(s1, h));
    if s1.reachableAt != 0 {
      ProbedKeeps(s1, h, EvaluateProbe(s1.reachableAt, c.deadline),
        Reached(s1.running, s1.reachableAt), Probe(s, t, c).state, c);
    }
  }

  lemma WroteCounts(r: Record, h: seq<Fact>, m: Release, running: string)
    requires Counted(r, h)
    ensures Counted(RecordInstalled(r, m, running), h + [Wrote(m)])
  {
    var g := h + [Wrote(m)];
    assert Front(g) == h;
    forall b | b != m ensures Streak(g, b) == 0 {
    }
  }

  lemma InstallKeeps(s: State, h: seq<Fact>, m: Release, n: State)
    requires Inv(World(s, h)) && Storable(m)
    requires n.record == RecordInstalled(s.record, m, s.running) && n.nvs == Stored(Encode(n.record))
    requires n.running == s.running && n.current == Some(m) && !n.up
    ensures Inv(World(n, h + [Wrote(m)]))
  {
    WroteCounts(s.record, h, m, s.running);
    SavedIsSynced(n);
  }

  lemma RefuseKeeps(s: State, h: seq<Fact>, m: Release, n: State, c: Config)
    requires Inv(World(s, h)) && Storable(m) && s.up
    requires n == Save(s.(record := MarkBad(s.record, m), current := None))
    ensures Inv(World(n, h + [Refused(m)]))
  {
    MarkBadStorable(s.record, m);
    CountedNeutral(n.record, h, Refused(m), c);
    SavedIsSynced(n);
  }

  lemma FetchKeeps(s: State, h: seq<Fact>, m: Release, t: Tick, c: Config)
    requires Inv(World(s, h)) && s.up && s.current == Some(m)
    ensures Inv(World(Fetch(s, m, t).state, h + Fetch(s, m, t).facts))
  {
    assert h + [] == h;
    match t.download
    case Broken =>
    case BadImage => RefuseKeeps(s, h, m, Fetch(s, m, t).state, c);
    case Done => InstallKeeps(s, h, m, Fetch(s, m, t).state);
  }

  lemma NothingNoted(w: World)
    ensures World(w.state, w.history + []) == w
  {
  }

  lemma NotedInTurn(h: seq<Fact>, a: seq<Fact>, b: seq<Fact>)
    ensures h + (a + b) == (h + a) + b
  {
  }

  lemma PutOff(s: State, h: seq<Fact>, at: nat)
    requires Inv(World(s, h))
    ensures Inv(World(s.(current := None), h)) && Inv(World(s.(nextAttemptAt := at), h))
  {
  }

  lemma RequestedKeeps(s: State, h: seq<Fact>, t: Tick)
    requires Inv(World(s, h)) && StorableEvent(Ticked(t))
    ensures Inv(World(Requested(s, t), h))
  {
  }

  lemma HandleKeeps(s: State, h: seq<Fact>, t: Tick, c: Config)
    requires Inv(World(s, h)) && s.up && StorableEvent(Ticked(t))
    ensures var o := HandleManifest(s, t, c); Inv(World(o.state, h + o.facts))
  {
    var o := HandleManifest(s, t, c);
    var s1 := Requested(s, t);
    RequestedKeeps(s, h, t);
    PutOff(s1, h, t.clock + GATE_RETRY_MS);
    NothingNoted(World(o.state, h));
    if s1.current.Some? {
      FetchKeeps(s1, h, s1.current.value, t, c);
    }
  }

  lemma WatchKeeps(s: State, h: seq<Fact>, t: Tick, c: Config)
    requires Inv(World(s, h)) && s.up
    ensures Inv(World(Watch(s, t, c).state, h + Watch(s, t, c).facts))
  {
    assert h + [] == h;
    if s.situation == Validating {
      ValidateKeeps(s, h, t, c);
    } else if s.situation == ProbingPrevious {
      ProbeKeeps(s, h, t, c);
    }
  }

  lemma TickKeeps(w: World, t: Tick, c: Config)
    requires Inv(w) && StorableEvent(Ticked(t))
    ensures var o := RunTick(w.state, t, c); Inv(World(o.state, w.history + o.facts))
  {
    var o := RunTick(w.state, t, c);
    var watched := Watch(w.state, t, c);
    NothingNoted(w);
    if w.state.up {
      WatchKeeps(w.state, w.history, t, c);
      if watched.state.up {
        var handled := HandleManifest(watched.state, t, c);
        HandleKeeps(watched.state, w.history + watched.facts, t, c);
        NotedInTurn(w.history, watched.facts, handled.facts);
      }
    }
  }

  /** In every reachable state the record is what the history says it should be, in memory and in the store. */
  lemma {:induction false} RecordFollowsHistory(run: seq<Event>, c: Config)
    requires StorableRun(run)
    ensures Inv(After(run, c))
  {
    if run == [] {
    } else {
      var front := run[..|run| - 1];
      assert forall i :: 0 <= i < |front| ==> front[i] == run[i];
      RecordFollowsHistory(front, c);
      var w := After(front, c);
      match run[|run| - 1]
      case PowerOn(version, pendingVerify) => BootKeeps(w, version, pendingVerify, c);
      case Ticked(t) => TickKeeps(w, t, c);
    }
  }
}
