/**
 The one-shot pod through which the smoke test reads the bucket of a cluster
 (scripts/smoke-local-integration.mjs): created, awaited, read and always
 deleted, whatever goes wrong in between.
 */
module OneShotPod {
  import opened Polling
  import opened Text

  datatype Command = Create | GetPhase | Logs | Delete

  datatype Result = Output(text: string) | NotCreated | NoPhase | NoLogs | PodFailed(logs: string) | TimedOut(phase: string)

  const SLEEP_MS := 500

  /** A pod whose phase says to wait on. */
  predicate IsWaitingOn(phase: Option<string>) {
    phase.Some? && phase.value != "Succeeded" && phase.value != "Failed"
  }

  /** The commands of a run that polled this often and then read the logs or not. */
  function Issued(polls: nat, logs: bool): seq<Command> {
    [Create] + seq(polls, k => GetPhase) + (if logs then [Logs] else []) + [Delete]
  }

  /** `kindOneShot`: `phase(k)` is what poll `k` reads and `logs` what the logs are,
      none where the command fails; `now(0)` is the clock at the start and
      `now(k + 1)` the clock after poll `k`. */
  method Run(created: bool, phase: nat -> Option<string>, logs: Option<string>, now: nat -> int, timeoutMs: int)
    returns (result: Result, commands: seq<Command>, polls: nat)
    requires now(1) >= now(0) && forall k: nat :: k > 0 ==> now(k + 1) >= now(k) + SLEEP_MS
    ensures !created ==> result == NotCreated && commands == [Create]
    ensures created ==> 1 <= polls <= PollsWithin(timeoutMs, SLEEP_MS) + 1
    ensures created ==> WaitedOn(IsWaitingOn, phase, now, now(0) + timeoutMs, polls - 1)
    ensures created ==> var last := phase(polls - 1);
      && commands == Issued(polls, last == Some("Succeeded") || last == Some("Failed"))
      && (match result
          case Output(text) => last == Some("Succeeded") && logs == Some(text)
          case PodFailed(text) => last == Some("Failed") && logs == Some(text)
          case NoLogs => (last == Some("Succeeded") || last == Some("Failed")) && logs.None?
          case NoPhase => last.None?
          case TimedOut(seen) => IsWaitingOn(last) && last == Some(seen) && now(polls) >= now(0) + timeoutMs
          case NotCreated => false)
  {
    hide WaitedOn;
    commands, polls := [Create], 0;
    if !created { return NotCreated, commands, polls; }
    var deadline := now(0) + timeoutMs;
    NoneWaited(IsWaitingOn, phase, now, deadline);
    while true
      invariant commands == [Create] + seq(polls, k => GetPhase)
      invariant polls > 0 ==> now(polls) >= now(0) + (polls - 1) * SLEEP_MS && now(polls) < deadline
      invariant polls <= PollsWithin(timeoutMs, SLEEP_MS)
      invariant WaitedOn(IsWaitingOn, phase, now, deadline, polls)
      decreases PollsWithin(timeoutMs, SLEEP_MS) - polls
    {
      var seen := phase(polls);
      commands := commands + [GetPhase];
      assert commands == [Create] + seq(polls + 1, k => GetPhase);
      polls := polls + 1;
      if seen.None? {
        commands := commands + [Delete];
        return NoPhase, commands, polls;
      }
      if seen.value == "Succeeded" || seen.value == "Failed" {
        commands := commands + [Logs] + [Delete];
        result := if logs.None? then NoLogs else if seen.value == "Succeeded" then Output(logs.value) else PodFailed(logs.value);
        return result, commands, polls;
      }
      if now(polls) >= deadline {
        commands := commands + [Delete];
        return TimedOut(seen.value), commands, polls;
      }
      WaitedOnce(IsWaitingOn, phase, now, deadline, polls - 1);
      assert now(polls) >= now(0) + (polls - 1) * SLEEP_MS;
      EarlyPoll(polls, timeoutMs, SLEEP_MS);
    }
  }
}
