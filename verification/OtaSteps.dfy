/**
 * What one boot or one tick of the update task does to the controller
 * (ota/OtaController.cpp), and what it shows of the world.
 */
module OtaSteps {
  import opened Wrappers
  import opened OtaPolicy
  import opened OtaCodec

  /**
   * The compile-time settings: stability window and confirmation deadline in
   * milliseconds, and installs per request.
   */
  datatype Config = Config(stable: nat, deadline: nat, maxAttempts: byte)

  const GATE_RETRY_MS: nat := 60 * 1000
  const DOWNLOAD_RETRY_MS: nat := 10 * 60 * 1000

  /** `nvs` is what is stored; the rest is the controller's memory, gone at the next boot. */
  datatype State = State(
    nvs: string,
    record: Record,
    situation: Situation,
    selfTests: Option<bool>,
    reachableAt: nat,
    current: Option<Release>,
    nextAttemptAt: nat,
    running: string,
    pendingVerify: bool,
    up: bool)

  datatype Download = Done | Broken | BadImage

  /**
   * What one tick meets: the uptimes it reads, whether the self-tests pass, whether the server has answered,
   * whether the bootloader can go back, a new request or a cleared one, and how a download ends.
   */
  datatype Tick = Tick(
    now: nat,
    testsPass: bool,
    answered: bool,
    answeredAt: nat,
    rollsBack: bool,
    request: Option<Option<Release>>,
    clock: nat,
    wifi: bool,
    gateOpen: bool,
    download: Download)

  /** What an observer beside the device notes down. */
  datatype Fact =
    | Ran(version: string)                 // an image started
    | Reached(version: string, at: nat)    // it has had the server's answer, first at this uptime
    | Unreached(version: string)           // it has run to the deadline without one
    | Failed(version: string)              // it has failed its self-tests
    | Wrote(release: Release)              // an image was written and set to boot
    | Refused(release: Release)            // an image arrived whole but wrong
    | Kept(version: string)                // the running image is the one to stay

  datatype Outcome = Outcome(state: State, facts: seq<Fact>)

  function Save(s: State): State { s.(nvs := Stored(Encode(s.record))) }

  /** Memory at power-on, with the stored record loaded. */
  function PoweredOn(s: State): State {
    State(s.nvs, Decode(s.nvs), s.situation, None, 0, None, 0, s.running, s.pendingVerify, true)
  }

  /** What the image that boots is to the update; a pending one that no update put there is accepted. */
  function Judged(s: State, version: string, pendingVerify: bool, c: Config): State {
    var situation := BootVerdict(s.record, version, c.maxAttempts).situation;
    s.(record := OnBoot(s.record, version, c.maxAttempts), situation := situation, running := version,
       pendingVerify := situation != Normal && pendingVerify)
  }

  function Boot(s: State, version: string, pendingVerify: bool, c: Config): Outcome {
    Outcome(Save(Judged(PoweredOn(s), version, pendingVerify, c)), [Ran(version)])
  }

  function Reach(s: State, t: Tick): State {
    if s.reachableAt == 0 && t.answered then s.(reachableAt := Max(1, t.answeredAt)) else s
  }

  /** The self-tests run once, when the stability window has passed. */
  function Tested(s: State, t: Tick, c: Config): State {
    if t.now >= c.stable && s.selfTests.None? then s.(selfTests := Some(t.testsPass)) else s
  }

  function Verdict(s: State, t: Tick, c: Config): OtaPolicy.Verdict {
    EvaluateValidation(t.now, s.selfTests == Some(true), s.selfTests == Some(false),
                       s.reachableAt != 0, c.stable, c.deadline)
  }

  function Seen(s: State, t: Tick, c: Config): seq<Fact> {
    if s.reachableAt != 0 then [Reached(s.running, s.reachableAt)]
    else if t.now >= c.deadline then [Unreached(s.running)]
    else []
  }

  /** What a look at the image under validation shows. */
  function Noted(s: State, t: Tick, c: Config): seq<Fact> {
    Seen(s, t, c) + if s.selfTests == Some(false) then [Failed(s.running)] else []
  }

  function Keep(s: State): State { Save(s.(record := RecordConfirmed(s.record), situation := Normal)) }

  function GoBack(s: State, v: OtaPolicy.Verdict): State { Save(s.(record := RecordRollback(s.record, v))) }

  /** A verdict carried out; the bootloader may have no image to go back to. */
  function CarryOut(s: State, v: OtaPolicy.Verdict, rollsBack: bool): State {
    match v
    case Wait => s
    case Confirm => Keep(s).(pendingVerify := false)
    case _ => if rollsBack then GoBack(s, v).(up := false) else Keep(GoBack(s, v))
  }

  predicate Keeps(v: OtaPolicy.Verdict, rollsBack: bool) { v == Confirm || (v != Wait && !rollsBack) }

  function Validate(s: State, t: Tick, c: Config): Outcome {
    var s := Reach(Tested(s, t, c), t);
    var v := Verdict(s, t, c);
    Outcome(CarryOut(s, v, t.rollsBack), Noted(s, t, c) + if Keeps(v, t.rollsBack) then [Kept(s.running)] else [])
  }

  function Probe(s: State, t: Tick, c: Config): Outcome {
    var s := Reach(s, t);
    var v := EvaluateProbe(s.reachableAt, c.deadline);
    if v == StillWaiting then Outcome(s, [])
    else
      Outcome(Save(s.(record := RecordProbeResult(s.record, v, c.maxAttempts), situation := Normal)),
              [Reached(s.running, s.reachableAt)])
  }

  /** A message that came since the last tick replaces the request being worked on. */
  function Requested(s: State, t: Tick): State {
    if t.request.Some? then s.(current := t.request.value, nextAttemptAt := 0) else s
  }

  function Fetch(s: State, m: Release, t: Tick): Outcome {
    match t.download
    case Broken => Outcome(s.(nextAttemptAt := t.clock + DOWNLOAD_RETRY_MS), [])
    case BadImage => Outcome(Save(s.(record := MarkBad(s.record, m), current := None)), [Refused(m)])
    case Done => Outcome(Save(s.(record := RecordInstalled(s.record, m, s.running), up := false)), [Wrote(m)])
  }

  function Decide(s: State, t: Tick, c: Config): Decision
    requires s.current.Some?
  {
    DecideManifest(s.record, s.current.value, s.running, s.pendingVerify, c.maxAttempts)
  }

  function HandleManifest(s: State, t: Tick, c: Config): Outcome {
    var s := Requested(s, t);
    if s.current.None? || t.clock < s.nextAttemptAt then Outcome(s, [])
    else
      var decision := Decide(s, t, c);
      if decision == IgnoreBusy then Outcome(s.(nextAttemptAt := t.clock + GATE_RETRY_MS), [])
      else if decision != Install || !t.wifi then Outcome(s.(current := None), [])
      else if !t.gateOpen then Outcome(s.(nextAttemptAt := t.clock + GATE_RETRY_MS), [])
      else Fetch(s, s.current.value, t)
  }

  /** One of the two watches, then the request. */
  function Watch(s: State, t: Tick, c: Config): Outcome {
    if s.situation == Validating then Validate(s, t, c)
    else if s.situation == ProbingPrevious then Probe(s, t, c)
    else Outcome(s, [])
  }

  function RunTick(s: State, t: Tick, c: Config): Outcome {
    if !s.up then Outcome(s, [])
    else
      var watched := Watch(s, t, c);
      if !watched.state.up then watched
      else
        var handled := HandleManifest(watched.state, t, c);
        Outcome(handled.state, watched.facts + handled.facts)
  }
}
