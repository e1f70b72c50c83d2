/** The decisions of the update flow and the record they are taken on (ota/OtaPolicy.cpp). */
module OtaPolicy {
  import opened Wrappers

  datatype Phase = Idle | Installed | Probing

  /** What an update is named by: the version it installs and the request that asked for it. */
  datatype Release = Release(version: string, requestId: string)

  /** The contents of an `OtaRecord`. */
  datatype Record = Record(
    phase: Phase,
    target: Release,
    previousVersion: string,
    attempts: byte,
    lastFailure: string,
    bad: seq<Release>)

  const EMPTY := Record(Idle, Release("", ""), "", 0, "", [])
  const MAX_BAD: nat := 4
  const MAX_U8: byte := 255

  const REASON_BOOT := "boot"
  const REASON_SELF_TEST := "self_test"
  const REASON_NO_CONNECTIVITY := "no_connectivity"

  datatype Decision = Install | IgnoreSameVersion | IgnoreBusy | IgnoreBad | IgnoreAttemptsExhausted

  function DecideManifest(r: Record, m: Release, running: string, pendingVerify: bool, maxAttempts: byte): Decision {
    if m.version == running then IgnoreSameVersion
    else if pendingVerify || r.phase != Idle then IgnoreBusy
    else if m in r.bad then IgnoreBad
    else if r.target == m && r.attempts >= maxAttempts then IgnoreAttemptsExhausted
    else Install
  }

  function RecordInstalled(r: Record, m: Release, running: string): Record {
    var before: byte := if r.target == m then r.attempts else 0;
    Record(Installed, m, running, if before < MAX_U8 then before + 1 else before, "", r.bad)
  }

  function MarkBad(r: Record, m: Release): Record {
    if m in r.bad then r else r.(bad := ([m] + r.bad)[..Min(MAX_BAD, |r.bad| + 1)])
  }

  datatype Situation = Normal | Validating | RolledBack | ProbingPrevious

  datatype BootOutcome = BootOutcome(situation: Situation, reason: string, markedBad: bool)

  function OnBoot(r: Record, running: string, maxAttempts: byte): Record {
    match r.phase
    case Idle => r
    case Installed =>
      if running == r.target.version then r
      else (if r.attempts >= maxAttempts then MarkBad(r, r.target) else r).(phase := Idle, lastFailure := "")
    case Probing =>
      if running == r.target.version then r.(phase := Installed) else r
  }

  function BootVerdict(r: Record, running: string, maxAttempts: byte): BootOutcome {
    match r.phase
    case Idle => BootOutcome(Normal, "", false)
    case Installed =>
      if running == r.target.version then BootOutcome(Validating, "", false)
      else BootOutcome(RolledBack, if r.lastFailure == "" then REASON_BOOT else r.lastFailure,
                       r.attempts >= maxAttempts)
    case Probing =>
      BootOutcome(if running == r.target.version then Validating else ProbingPrevious, "", false)
  }

  datatype Verdict = Wait | Confirm | RollbackSelfTest | RollbackNoConnectivity

  function EvaluateValidation(
    uptime: nat, passed: bool, failed: bool, reachable: bool, stable: nat, deadline: nat
  ): Verdict {
    if failed then RollbackSelfTest
    else if uptime >= stable && passed && reachable then Confirm
    else if uptime >= deadline then (if reachable then Wait else RollbackNoConnectivity)
    else Wait
  }

  function RecordRollback(r: Record, v: Verdict): Record {
    match v
    case RollbackSelfTest => r.(lastFailure := REASON_SELF_TEST, phase := Installed)
    case RollbackNoConnectivity => r.(lastFailure := REASON_NO_CONNECTIVITY, phase := Probing)
    case Wait | Confirm => r
  }

  function RecordConfirmed(r: Record): Record { r.(phase := Idle, lastFailure := "", attempts := 0) }

  datatype ProbeVerdict = StillWaiting | NewVersionGuilty | ExternalFault

  function EvaluateProbe(reachableAt: nat, deadline: nat): ProbeVerdict {
    if reachableAt == 0 then StillWaiting
    else if reachableAt <= deadline then NewVersionGuilty
    else ExternalFault
  }

  predicate ProbeMarks(r: Record, v: ProbeVerdict, maxAttempts: byte) {
    v == NewVersionGuilty || (v == ExternalFault && r.attempts >= maxAttempts)
  }

  function RecordProbeResult(r: Record, v: ProbeVerdict, maxAttempts: byte): Record {
    if v == StillWaiting then r
    else (if ProbeMarks(r, v, maxAttempts) then MarkBad(r, r.target) else r).(phase := Idle, lastFailure := "")
  }

  /** The record as the source keeps it: one object, changed in place. */
  class OtaRecord {
    var phase: Phase
    var requestId: string
    var targetVersion: string
    var previousVersion: string
    var attempts: byte
    var lastFailure: string
    var bad: seq<Release>

    function Contents(): Record
      reads this
    {
      Record(phase, Release(targetVersion, requestId), previousVersion, attempts, lastFailure, bad)
    }

    constructor ()
      ensures Contents() == EMPTY
    {
      phase, requestId, targetVersion, previousVersion, attempts, lastFailure, bad := Idle, "", "", "", 0, "", [];
    }

    method Assign(r: Record)
      modifies this
      ensures Contents() == r
    {
      phase, requestId, targetVersion := r.phase, r.target.requestId, r.target.version;
      previousVersion, attempts, lastFailure, bad := r.previousVersion, r.attempts, r.lastFailure, r.bad;
    }

    method Install(m: Release, running: string)
      modifies this
      ensures Contents() == RecordInstalled(old(Contents()), m, running)
    {
      var sameRequest := requestId == m.requestId && targetVersion == m.version;
      if !sameRequest { attempts := 0; }
      if attempts < MAX_U8 { attempts := attempts + 1; }
      requestId := m.requestId;
      targetVersion := m.version;
      previousVersion := running;
      lastFailure := "";
      phase := Installed;
    }

    method Blame(m: Release)
      modifies this
      ensures Contents() == MarkBad(old(Contents()), m)
    {
      if m in bad { return; }
      bad := [m] + bad;
      if |bad| > MAX_BAD { bad := bad[..MAX_BAD]; }
    }

    method Booted(running: string, maxAttempts: byte) returns (out: BootOutcome)
      modifies this
      ensures Contents() == OnBoot(old(Contents()), running, maxAttempts)
      ensures out == BootVerdict(old(Contents()), running, maxAttempts)
    {
      out := BootOutcome(Normal, "", false);
      match phase {
        case Idle =>
        case Installed =>
          if running == targetVersion {
            out := out.(situation := Validating);
            return;
          }
          out := out.(situation := RolledBack, reason := if lastFailure == "" then REASON_BOOT else lastFailure);
          if attempts >= maxAttempts {
            Blame(Release(targetVersion, requestId));
            out := out.(markedBad := true);
          }
          lastFailure := "";
          phase := Idle;
        case Probing =>
          if running == targetVersion {
            phase := Installed;
            out := out.(situation := Validating);
            return;
          }
          out := out.(situation := ProbingPrevious);
      }
    }

    method RollBack(v: Verdict)
      modifies this
      ensures Contents() == RecordRollback(old(Contents()), v)
    {
      if v == RollbackSelfTest {
        lastFailure := REASON_SELF_TEST;
        phase := Installed;
      } else if v == RollbackNoConnectivity {
        lastFailure := REASON_NO_CONNECTIVITY;
        phase := Probing;
      }
    }

    method ConfirmRunning()
      modifies this
      ensures Contents() == RecordConfirmed(old(Contents()))
    {
      phase := Idle;
      lastFailure := "";
      attempts := 0;
    }

    method Probed(v: ProbeVerdict, maxAttempts: byte) returns (marked: bool)
      modifies this
      ensures Contents() == RecordProbeResult(old(Contents()), v, maxAttempts)
      ensures marked == ProbeMarks(old(Contents()), v, maxAttempts)
    {
      if v == StillWaiting { return false; }
      marked := v == NewVersionGuilty || attempts >= maxAttempts;
      if marked { Blame(Release(targetVersion, requestId)); }
      phase := Idle;
      lastFailure := "";
    }
  }

  // ----- the list of bad releases -----

  predicate Distinct(bad: seq<Release>) { forall i, j :: 0 <= i < j < |bad| ==> bad[i] != bad[j] }

  /**
   * Marking puts the release in, keeps the list short and without repeats, and
   * drops only the oldest entry, only when full.
   */
  lemma MarkBadKeeps(r: Record, m: Release)
    requires Distinct(r.bad) && |r.bad| <= MAX_BAD
    ensures m in MarkBad(r, m).bad
    ensures Distinct(MarkBad(r, m).bad) && |MarkBad(r, m).bad| <= MAX_BAD
    ensures forall b :: b in MarkBad(r, m).bad ==> b == m || b in r.bad
    ensures forall b :: b in r.bad && (|r.bad| < MAX_BAD || b != r.bad[MAX_BAD - 1] || m in r.bad) ==>
              b in MarkBad(r, m).bad
  {
    if m !in r.bad {
      var longer := [m] + r.bad;
      var n := Min(MAX_BAD, |r.bad| + 1);
      assert longer[..n][0] == m;
      forall i | 0 <= i < |r.bad| && i + 1 < n ensures r.bad[i] in longer[..n] {
        assert longer[..n][i + 1] == r.bad[i];
      }
    }
  }
}
