/**
 * The update controller as the source runs it: an object whose methods change
 * its fields and its record (ota/OtaController.cpp).
 */
module OtaController {
  import opened Wrappers
  import opened OtaPolicy
  import opened OtaCodec
  import Steps = OtaSteps

  class Controller {
    const config: Steps.Config
    const record: OtaRecord
    var nvs: string
    var situation: Situation
    var selfTestsPassed: Option<bool>
    var reachableAtMs: nat
    var current: Option<Release>
    var nextAttemptAtMs: nat
    var runningVersion: string
    var runningPendingVerify: bool
    var up: bool

    function View(): Steps.State
      reads this, record
    {
      Steps.State(nvs, record.Contents(), situation, selfTestsPassed, reachableAtMs, current, nextAttemptAtMs,
                  runningVersion, runningPendingVerify, up)
    }

    /** A device on which no update was ever stored, before it first boots. */
    constructor (config: Steps.Config)
      ensures this.config == config && fresh(record)
      ensures View() == Steps.State("", EMPTY, Normal, None, 0, None, 0, "", false, false)
    {
      this.config := config;
      record := new OtaRecord();
      nvs, situation, selfTestsPassed, reachableAtMs, current := "", Normal, None, 0, None;
      nextAttemptAtMs, runningVersion, runningPendingVerify, up := 0, "", false, false;
    }

    method Save()
      modifies this`nvs
      ensures View() == Steps.Save(old(View()))
    {
      var blob := EncodeRecord(record.Contents());
      nvs := Stored(blob);
    }

    method Load()
      modifies record
      ensures View() == old(View()).(record := Decode(nvs))
    {
      var loaded := DecodeRecord(nvs);
      record.Assign(loaded);
    }

    /** The globals as they are set up at power-on, and the stored record. */
    method PowerOn()
      modifies this, record
      ensures View() == Steps.PoweredOn(old(View()))
    {
      selfTestsPassed, reachableAtMs, current, nextAttemptAtMs, up := None, 0, None, 0, true;
      Load();
    }

    /** The middle of `begin`: what the image that boots is to the update. */
    method Judge(version: string, pendingVerify: bool)
      modifies this, record
      ensures View() == Steps.Judged(old(View()), version, pendingVerify, config)
    {
      runningVersion := version;
      runningPendingVerify := pendingVerify;
      var outcome := record.Booted(runningVersion, config.maxAttempts);
      situation := outcome.situation;
      if situation == Normal && runningPendingVerify { runningPendingVerify := false; }
    }

    method Begin(version: string, pendingVerify: bool)
      modifies this, record
      ensures View() == Steps.Boot(old(View()), version, pendingVerify, config).state
    {
      PowerOn();
      Judge(version, pendingVerify);
      Save();
    }

    method ServerReachable(t: Steps.Tick) returns (reachable: bool)
      modifies this`reachableAtMs
      ensures View() == Steps.Reach(old(View()), t)
      ensures reachable == (reachableAtMs != 0)
    {
      if reachableAtMs != 0 { return true; }
      if t.answered {
        reachableAtMs := t.answeredAt;
        if reachableAtMs == 0 { reachableAtMs := 1; }
      }
      reachable := reachableAtMs != 0;
    }

    method CarryOut(verdict: Verdict, rollsBack: bool)
      modifies this, record
      ensures View() == Steps.CarryOut(old(View()), verdict, rollsBack)
    {
      match verdict {
        case Wait =>
        case Confirm =>
          record.ConfirmRunning();
          Save();
          runningPendingVerify := false;
          situation := Normal;
        case _ =>
          record.RollBack(verdict);
          Save();
          ghost var back := View();
          assert back == Steps.GoBack(old(View()), verdict);
          if rollsBack {
            up := false;
          } else {
            record.ConfirmRunning();
            Save();
            situation := Normal;
            assert View() == Steps.Keep(back);
          }
      }
    }

    method Validate(t: Steps.Tick)
      modifies this, record
      ensures View() == Steps.Validate(old(View()), t, config).state
    {
      if t.now >= config.stable && selfTestsPassed.None? { selfTestsPassed := Some(t.testsPass); }
      var passed := selfTestsPassed == Some(true);
      var failed := selfTestsPassed == Some(false);
      var reachable := ServerReachable(t);
      var verdict := EvaluateValidation(t.now, passed, failed, reachable, config.stable, config.deadline);
      CarryOut(verdict, t.rollsBack);
    }

    method Probe(t: Steps.Tick)
      modifies this, record
      ensures View() == Steps.Probe(old(View()), t, config).state
    {
      var reachable := ServerReachable(t);
      var verdict := EvaluateProbe(if reachable then reachableAtMs else 0, config.deadline);
      if verdict == StillWaiting { return; }
      var bad := record.Probed(verdict, config.maxAttempts);
      Save();
      situation := Normal;
    }

    method HandlePendingManifest(t: Steps.Tick)
      modifies this, record
      ensures View() == Steps.HandleManifest(old(View()), t, config).state
    {
      if t.request.Some? {
        current := t.request.value;
        nextAttemptAtMs := 0;
      }
      if current.None? || t.clock < nextAttemptAtMs { return; }
      var m := current.value;
      var decision := DecideManifest(record.Contents(), m, runningVersion, runningPendingVerify, config.maxAttempts);
      if decision == IgnoreBusy {
        nextAttemptAtMs := t.clock + Steps.GATE_RETRY_MS;
        return;
      }
      if decision != Install || !t.wifi {
        current := None;
        return;
      }
      if !t.gateOpen {
        nextAttemptAtMs := t.clock + Steps.GATE_RETRY_MS;
        return;
      }
      Fetch(m, t);
    }

    /** The download and what follows from how it ends. */
    method Fetch(m: Release, t: Steps.Tick)
      modifies this, record
      ensures View() == Steps.Fetch(old(View()), m, t).state
    {
      match t.download {
        case Broken => nextAttemptAtMs := t.clock + Steps.DOWNLOAD_RETRY_MS;
        case BadImage =>
          record.Blame(m);
          Save();
          current := None;
        case Done =>
          record.Install(m, runningVersion);
          Save();
          up := false;
      }
    }

    /** The first two lines of `tick`. */
    method Watch(t: Steps.Tick)
      modifies this, record
      ensures View() == Steps.Watch(old(View()), t, config).state
    {
      if situation == Validating {
        Validate(t);
      } else if situation == ProbingPrevious {
        Probe(t);
      }
    }

    method Tick(t: Steps.Tick)
      modifies this, record
      ensures View() == Steps.RunTick(old(View()), t, config).state
    {
      if !up { return; }
      Watch(t);
      if !up { return; }
      HandlePendingManifest(t);
    }
  }
}
