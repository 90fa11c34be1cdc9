/**
 The readiness wait of scripts/k8s-up.mjs: what still stands between the
 topology and Ready, and the polling loop with its verdict.
 */
module ReadyWait {
  import opened Polling
  import opened Text

  datatype Kind = Deployment | StatefulSet | Job

  /** An object of `get deployments,statefulsets,jobs`, absent fields already at
      the values the script gives them. */
  datatype Workload = Workload(kind: Kind, name: string, desired: int, generation: int,
                               observed: int, updated: int, ready: int, complete: bool, failed: bool)

  /** What one poll reads. */
  datatype Observation = Observation(workloads: seq<Workload>, hpas: seq<string>)

  const BOOTSTRAP_JOB := "storage-init"
  const WORKER_HPA := "keda-hpa-worker"
  const POLL_MS := 5000

  predicate RolledOut(w: Workload) {
    w.observed >= w.generation && w.updated >= w.desired && w.ready >= w.desired
  }

  predicate IsBootstrap(w: Workload) {
    w.kind == Job && w.name == BOOTSTRAP_JOB
  }

  /** A workload that is not there yet; other Jobs do not matter. */
  predicate IsPending(w: Workload) {
    if w.kind == Job then IsBootstrap(w) && !w.complete else !RolledOut(w)
  }

  /** What the wait is for: every listed workload rolled out, the bootstrap Job
      there and complete, and the worker's HPA created. */
  predicate IsReady(o: Observation) {
    (forall k :: 0 <= k < |o.workloads| ==>
       var w := o.workloads[k];
       if w.kind == Job then w.name == "storage-init" ==> w.complete
       else w.observed >= w.generation && w.updated >= w.desired && w.ready >= w.desired)
    && (exists k :: 0 <= k < |o.workloads| && o.workloads[k].kind == Job && o.workloads[k].name == "storage-init")
    && "keda-hpa-worker" in o.hpas
  }

  /** The bootstrap Job has failed for good. */
  predicate HasFailed(o: Observation) {
    exists k :: 0 <= k < |o.workloads| && o.workloads[k].kind == Job && o.workloads[k].name == "storage-init"
                && !o.workloads[k].complete && o.workloads[k].failed
  }

  /** `Kind/name` */
  datatype Id = Listed(kind: Kind, name: string) | Autoscaler(name: string)

  function IdOf(w: Workload): Id { Listed(w.kind, w.name) }

  /** What there is to wait for: each listed workload that is not there yet, the
      bootstrap Job if it is not listed, and the worker's HPA if it is not there. */
  predicate IsAwaited(o: Observation, id: Id) {
    (exists k :: 0 <= k < |o.workloads| && IsPending(o.workloads[k]) && IdOf(o.workloads[k]) == id)
    || (id == Listed(Job, BOOTSTRAP_JOB) && forall k :: 0 <= k < |o.workloads| ==> !IsBootstrap(o.workloads[k]))
    || (id == Autoscaler(WORKER_HPA) && WORKER_HPA !in o.hpas)
  }

  /** `pendingWorkloads` */
  method PendingWorkloads(o: Observation) returns (pending: seq<Id>, failed: bool)
    ensures forall id :: id in pending <==> IsAwaited(o, id)
    ensures pending == [] <==> IsReady(o)
    ensures failed <==> HasFailed(o)
  {
    pending, failed := [], false;
    var seen := false;
    for k := 0 to |o.workloads|
      invariant pending == [] <==> forall j :: 0 <= j < k ==> !IsPending(o.workloads[j])
      invariant failed <==> exists j ::
        0 <= j < k && IsBootstrap(o.workloads[j]) && !o.workloads[j].complete && o.workloads[j].failed
      invariant seen <==> exists j :: 0 <= j < k && IsBootstrap(o.workloads[j])
      invariant forall id :: id in pending <==>
        exists j :: 0 <= j < k && IsPending(o.workloads[j]) && IdOf(o.workloads[j]) == id
    {
      var w := o.workloads[k];
      if w.kind == Job {
        if IsBootstrap(w) { seen := true; }
        if !IsBootstrap(w) || w.complete { continue; }
        failed := failed || w.failed;
        pending := pending + [IdOf(w)];
      } else if !RolledOut(w) {
        pending := pending + [IdOf(w)];
      }
    }
    if !seen { pending := pending + [Listed(Job, BOOTSTRAP_JOB)]; }
    if WORKER_HPA !in o.hpas { pending := pending + [Autoscaler(WORKER_HPA)]; }
  }

  datatype Verdict = Ready | JobFailed | TimedOut | Unreadable

  /** A poll that neither ends the wait nor fails to read. */
  predicate IsWaiting(seen: Option<Observation>) {
    seen.Some? && !IsReady(seen.value) && !HasFailed(seen.value)
  }

  /** `waitForTopology`. `look(k)` is what poll `k` reads, none when kubectl
      fails; `now(0)` is the clock at the start and `now(k + 1)` the clock after
      poll `k`; a sleep takes at least the poll interval. */
  method WaitForTopology(look: nat -> Option<Observation>, now: nat -> int, budget: int)
    returns (verdict: Verdict, polls: nat)
    requires now(1) >= now(0) && forall k: nat :: k > 0 ==> now(k + 1) >= now(k) + POLL_MS
    ensures 1 <= polls <= PollsWithin(budget, POLL_MS) + 1
    ensures WaitedOn(IsWaiting, look, now, now(0) + budget, polls - 1)
    ensures verdict == Unreadable <==> look(polls - 1).None?
    ensures verdict == Ready <==> look(polls - 1).Some? && IsReady(look(polls - 1).value)
    ensures verdict == JobFailed <==>
      look(polls - 1).Some? && !IsReady(look(polls - 1).value) && HasFailed(look(polls - 1).value)
    ensures verdict == TimedOut ==> now(polls) >= now(0) + budget
  {
    hide IsReady, HasFailed, WaitedOn;
    var deadline := now(0) + budget;
    polls := 0;
    NoneWaited(IsWaiting, look, now, deadline);
    while true
      invariant polls > 0 ==> now(polls) >= now(0) + (polls - 1) * POLL_MS && now(polls) < deadline
      invariant polls <= PollsWithin(budget, POLL_MS)
      invariant WaitedOn(IsWaiting, look, now, deadline, polls)
      decreases PollsWithin(budget, POLL_MS) - polls
    {
      var seen := look(polls);
      polls := polls + 1;
      if seen.None? { return Unreadable, polls; }
      var pending, failed := PendingWorkloads(seen.value);
      if |pending| == 0 { return Ready, polls; }
      var timedOut := now(polls) >= deadline;
      if failed { return JobFailed, polls; }
      if timedOut { return TimedOut, polls; }
      WaitedOnce(IsWaiting, look, now, deadline, polls - 1);
      assert now(polls) >= now(0) + (polls - 1) * POLL_MS;
      EarlyPoll(polls, budget, POLL_MS);
    }
  }
}
