/**
 What every run of scripts/k8s-up.mjs keeps, whatever other runs do and
 wherever it stops: the two broker Secrets agree, no Secret is rotated, and the
 recorded host-port map is the one the cluster publishes.
 */
module ProvisioningSafety {
  import opened Text
  import opened Provisioning

  // ------------------------------------------------------------- the promises

  /** The broker Secrets are ones this command writes. */
  predicate BrokersWritten(c: Cluster) {
    (RabbitMq in c.secrets ==>
       Alphanumeric(RabbitUser(c.secrets[RabbitMq])))
    && (KedaRabbitMq in c.secrets ==>
          Alphanumeric(KedaUser(c.secrets[KedaRabbitMq])))
  }

  predicate BrokersAgree(c: Cluster) {
    RabbitMq in c.secrets && KedaRabbitMq in c.secrets ==>
      RabbitUser(c.secrets[RabbitMq]) == KedaUser(c.secrets[KedaRabbitMq])
  }

  predicate MapMatches(c: Cluster) {
    c.hostMap.Some? ==> c.hostMap.value == HostMapData(c.ports)
  }

  predicate Sound(c: Option<Cluster>) {
    c.Some? ==> BrokersWritten(c.value) && BrokersAgree(c.value) && MapMatches(c.value)
  }

  /** Every Secret of `before` is still there with its data. */
  predicate NothingRotated(before: Option<Cluster>, after: Option<Cluster>) {
    before.Some? ==>
      after.Some? && forall name :: name in before.value.secrets ==>
                       name in after.value.secrets && after.value.secrets[name] == before.value.secrets[name]
  }

  /** The cluster publishes the ports the run asked for and has them recorded. */
  predicate RecordedFor(c: Option<Cluster>, ports: Ports) {
    c.Some? && c.value.ports == ports && c.value.hostMap == Some(HostMapData(ports))
  }

  lemma SecretUsers(u: Credentials)
    requires Alphanumeric(u)
    ensures RabbitUser(RabbitData(u)) == u && KedaUser(KedaData(u)) == u
  {
    hide UserInfo, KedaHost;
    UserInfoRecovers(u);
  }

  /** A map that does not differ from the run's ports records exactly them. */
  lemma SameMapSamePorts(c: Cluster, ports: Ports)
    requires MapMatches(c) && c.hostMap.Some? && !Differs(c.hostMap.value, ports)
    ensures c.ports == ports
  {
    hide NatText;
    NatTextInjective(c.ports.catalog, ports.catalog);
    NatTextInjective(c.ports.storage, ports.storage);
  }

  // ------------------------------------------------------- any runs at once

  /** A KEDA Secret alone was there before the run listed the Secrets. */
  predicate KedaWasListed(c: Cluster, snapshot: set<Name>) {
    KedaRabbitMq in c.secrets && RabbitMq !in c.secrets ==> KedaRabbitMq in snapshot
  }

  /** The run's broker user is that of the Secrets it must agree with. */
  predicate UserFits(c: Cluster, existing: set<Name>, rabbit: Credentials, next: nat) {
    Alphanumeric(rabbit)
    && (RabbitMq in existing && RabbitMq in c.secrets ==> rabbit == RabbitUser(c.secrets[RabbitMq]))
    && (RabbitMq !in existing && KedaRabbitMq in existing && KedaRabbitMq in c.secrets ==>
          rabbit == KedaUser(c.secrets[KedaRabbitMq]))
    && (next > 2 ==> RabbitMq in c.secrets && rabbit == RabbitUser(c.secrets[RabbitMq]))
  }

  /** The brokers a run listed are still there. */
  predicate BrokersStay(c: Cluster, listed: set<Name>) {
    (RabbitMq in listed ==> RabbitMq in c.secrets) && (KedaRabbitMq in listed ==> KedaRabbitMq in c.secrets)
  }

  predicate RunFits(c: Option<Cluster>, run: Run) {
    match run.phase
    case Namespacing => c.Some? && c.value.ports == run.request.ports
    case Recording => c.Some? && c.value.ports == run.request.ports
    case Listing => RecordedFor(c, run.request.ports)
    case Recovering(snapshot) =>
      RecordedFor(c, run.request.ports) && BrokersStay(c.value, snapshot) && KedaWasListed(c.value, snapshot)
    case CreatingSecrets(existing, rabbit, next) =>
      RecordedFor(c, run.request.ports)
      && (next <= 3 ==>
            BrokersStay(c.value, existing) && KedaWasListed(c.value, existing)
            && UserFits(c.value, existing, rabbit, next))
    case Done => RecordedFor(c, run.request.ports)
    case _ => true
  }

  /** How a command of one run may change the cluster under the others. */
  predicate Grows(before: Option<Cluster>, after: Option<Cluster>) {
    NothingRotated(before, after)
    && (before.Some? ==>
          after.value.ports == before.value.ports
          && (before.value.hostMap == Some(HostMapData(before.value.ports)) ==> after.value.hostMap == before.value.hostMap)
          && KedaWasListed(after.value, before.value.secrets.Keys))
  }

  lemma WantedOrder(withToken: bool, next: nat)
    requires next < |Wanted(withToken)|
    ensures (Wanted(withToken)[next] == RabbitMq <==> next == 2)
         && (Wanted(withToken)[next] == KedaRabbitMq <==> next == 3)
  {
  }

  lemma BrokerData(rabbit: Credentials, draws: Draws)
    ensures SecretData(RabbitMq, rabbit, draws) == RabbitData(rabbit)
    ensures SecretData(KedaRabbitMq, rabbit, draws) == KedaData(rabbit)
  {
  }

  lemma CreateKeeps(c: Cluster, run: Run, answer: Answer)
    requires Sound(Some(c)) && run.phase.CreatingSecrets? && RunFits(Some(c), run)
    ensures var after := InCluster(c, run, answer);
      Sound(after.cluster) && Grows(Some(c), after.cluster)
      && (after.run.Some? ==> RunFits(after.cluster, after.run.value))
  {
    hide HostMapData, Wanted, RabbitData, KedaData, SecretData, Alphanumeric, RabbitUser, KedaUser;
    var CreatingSecrets(existing, rabbit, next) := run.phase;
    var wanted := Wanted(run.request.withToken);
    if next < |wanted| {
      WantedOrder(run.request.withToken, next);
      BrokerData(rabbit, answer.draws);
      if next <= 3 {
        SecretUsers(rabbit);
      }
    }
  }

  lemma AdvanceKeeps(c: Option<Cluster>, run: Run, answer: Answer)
    requires Sound(c) && RunFits(c, run) && Alphanumeric(answer.drawn)
    ensures var after := Advance(c, run, answer);
      Sound(after.cluster) && Grows(c, after.cluster)
      && (after.run.Some? ==> RunFits(after.cluster, after.run.value))
  {
    hide HostMapData, Wanted, Alphanumeric, RabbitUser, KedaUser, SecretData, Differs;
    if run.phase.CreatingSecrets? {
      CreateKeeps(c.value, run, answer);
    } else if run.phase.Comparing? && c.Some? && c.value.hostMap.Some? && !Differs(c.value.hostMap.value, run.request.ports) {
      SameMapSamePorts(c.value, run.request.ports);
    }
  }

  lemma FitsStays(before: Option<Cluster>, after: Option<Cluster>, run: Run)
    requires RunFits(before, run) && Grows(before, after)
    ensures RunFits(after, run)
  {
    hide HostMapData, Alphanumeric, RabbitUser, KedaUser;
  }

  predicate AllFit(w: World) {
    Sound(w.cluster) && forall id :: id in w.runs ==> RunFits(w.cluster, w.runs[id])
  }

  predicate IsBroker(name: Name) { name == RabbitMq || name == KedaRabbitMq }

  /** A run between listing the Secrets and its last broker Secret. */
  predicate IsChoosing(run: Run) {
    run.phase.Recovering? || (run.phase.CreatingSecrets? && run.phase.next <= 3)
  }

  /** A run that counts on the cluster it has created or compared; one that is
      through counts on it until it stops. */
  predicate IsOnCluster(run: Run) {
    !(run.phase in {Looking, Inspecting, Comparing, CreatingCluster})
  }

  /** What the promises allow at any moment: any command with alphanumeric draws,
      the deletion of a Secret that is no broker's, that of a broker Secret while
      no run chooses, and a down while no run counts on the cluster. */
  predicate IsHarmless(w: World, event: Event) {
    match event
    case Command(_, answer) => Alphanumeric(answer.drawn)
    case DeleteSecret(name) => IsBroker(name) ==> forall id :: id in w.runs ==> !IsChoosing(w.runs[id])
    case Down => forall id :: id in w.runs ==> !IsOnCluster(w.runs[id])
    case _ => true
  }

  lemma DeletionFits(c: Cluster, name: Name, run: Run)
    requires RunFits(Some(c), run) && (IsBroker(name) ==> !IsChoosing(run))
    ensures RunFits(Some(c.(secrets := c.secrets - {name})), run)
  {
    hide HostMapData, Alphanumeric, RabbitUser, KedaUser;
  }

  lemma NoClusterFits(run: Run)
    requires !IsOnCluster(run)
    ensures RunFits(None, run)
  {
  }

  lemma PerformKeeps(w: World, event: Event)
    requires AllFit(w) && IsHarmless(w, event)
    ensures AllFit(Perform(w, event))
  {
    hide RunFits, Sound, Grows, Advance, Alphanumeric, IsChoosing, IsOnCluster, IsBroker;
    match event
    case Begin(id, request) => FreshFits(w.cluster, request);
    case Command(id, answer) =>
      if id in w.runs {
        var run := w.runs[id];
        AdvanceKeeps(w.cluster, run, answer);
        var after := Perform(w, event);
        forall other | other in after.runs && other != id ensures RunFits(after.cluster, after.runs[other]) {
          FitsStays(w.cluster, after.cluster, w.runs[other]);
        }
      }
    case DeleteSecret(name) =>
      if w.cluster.Some? {
        DeletionSound(w.cluster.value, name);
        forall id | id in w.runs ensures RunFits(Perform(w, event).cluster, w.runs[id]) {
          DeletionFits(w.cluster.value, name, w.runs[id]);
        }
      }
    case Down =>
      NoClusterIsSound();
      forall id | id in w.runs ensures RunFits(None, w.runs[id]) {
        NoClusterFits(w.runs[id]);
      }
    case _ =>
  }

  lemma GrowsKeeps(before: Option<Cluster>, after: Option<Cluster>)
    requires Grows(before, after)
    ensures NothingRotated(before, after)
  {
  }

  lemma FreshFits(c: Option<Cluster>, request: Request)
    ensures RunFits(c, Run(request, Looking))
  {
  }

  predicate AllHarmless(w: World, events: seq<Event>) {
    forall k :: 0 <= k < |events| ==> IsHarmless(Trace(w, events[..k]), events[k])
  }

  /** Any number of overlapping runs, each stopped anywhere, with deletions and
      downs while no run depends on what they take away: at every point the broker
      Secrets agree and the map is the cluster's, and a run that passed
      provisioning has its own ports recorded. */
  lemma {:induction false} OverlappingRunsAreSafe(w: World, events: seq<Event>)
    requires w.runs == map[] && Sound(w.cluster) && AllHarmless(w, events)
    ensures AllFit(Trace(w, events))
  {
    hide AllFit, Sound, IsHarmless, Perform;
    if events == [] {
      NoRunsFit(w);
    } else {
      var before := events[..|events| - 1];
      assert forall k :: 0 <= k < |before| ==> before[..k] == events[..k];
      OverlappingRunsAreSafe(w, before);
      assert IsHarmless(Trace(w, events[..|events| - 1]), events[|events| - 1]);
      PerformKeeps(Trace(w, before), events[|events| - 1]);
    }
  }

  lemma NoRunsFit(w: World)
    requires w.runs == map[] && Sound(w.cluster)
    ensures AllFit(w)
  {
  }

  predicate Holds(c: Option<Cluster>, name: Name, data: Data) {
    c.Some? && name in c.value.secrets && c.value.secrets[name] == data
  }

  lemma PerformRotatesNothing(w: World, event: Event, name: Name, data: Data)
    requires Holds(w.cluster, name, data) && event != DeleteSecret(name) && !event.Down?
    ensures Holds(Perform(w, event).cluster, name, data)
  {
    hide HostMapData, Wanted, SecretData, Differs, RabbitUser, KedaUser;
  }

  /** No run ever rotates a Secret: in every history, from any world, a Secret
      that is not deleted keeps its data to the end. */
  lemma {:induction false} NoSecretIsRotated(w: World, events: seq<Event>, k: nat, name: Name, data: Data)
    requires k <= |events| && Holds(Trace(w, events[..k]).cluster, name, data)
    requires forall n :: k <= n < |events| ==> events[n] != DeleteSecret(name) && !events[n].Down?
    ensures Holds(Trace(w, events).cluster, name, data)
    decreases |events|
  {
    hide Holds, Perform;
    if k == |events| {
      assert events[..k] == events;
    } else {
      var before := events[..|events| - 1];
      assert before[..k] == events[..k];
      NoSecretIsRotated(w, before, k, name, data);
      PerformRotatesNothing(Trace(w, before), events[|events| - 1], name, data);
    }
  }

  // --------------------------------------- one run at a time, with deletions

  /** Whatever broker Secret is present has the run's user. */
  predicate UserHolds(c: Cluster, rabbit: Credentials) {
    Alphanumeric(rabbit)
    && (RabbitMq in c.secrets ==> RabbitUser(c.secrets[RabbitMq]) == rabbit)
    && (KedaRabbitMq in c.secrets ==> KedaUser(c.secrets[KedaRabbitMq]) == rabbit)
  }

  /** Where the cluster is gone the run has nothing left to do but stop. */
  predicate RunHolds(c: Option<Cluster>, run: Run) {
    c.Some? ==>
    match run.phase
    case Namespacing => c.value.ports == run.request.ports
    case Recording => c.value.ports == run.request.ports
    case Listing => RecordedFor(c, run.request.ports)
    case Recovering(snapshot) =>
      RecordedFor(c, run.request.ports)
      && (RabbitMq in c.value.secrets ==> RabbitMq in snapshot)
      && (KedaRabbitMq in c.value.secrets ==> KedaRabbitMq in snapshot)
    case CreatingSecrets(_, rabbit, _) => RecordedFor(c, run.request.ports) && UserHolds(c.value, rabbit)
    case Done => RecordedFor(c, run.request.ports)
    case _ => true
  }

  predicate OneHolds(w: World) {
    Sound(w.cluster)
    && (forall id :: id in w.runs ==> RunHolds(w.cluster, w.runs[id]))
    && (forall a, b :: a in w.runs && b in w.runs ==> a == b)
  }

  /** Runs do not overlap each other; Secrets may be deleted and the cluster taken
      down any time. */
  predicate IsAlone(w: World, event: Event) {
    match event
    case Begin(_, _) => w.runs == map[]
    case Command(_, answer) => Alphanumeric(answer.drawn)
    case _ => true
  }

  predicate AllAlone(w: World, events: seq<Event>) {
    forall k :: 0 <= k < |events| ==> IsAlone(Trace(w, events[..k]), events[k])
  }

  lemma CreateHolds(c: Cluster, run: Run, answer: Answer)
    requires Sound(Some(c)) && run.phase.CreatingSecrets? && RunHolds(Some(c), run)
    ensures var after := InCluster(c, run, answer);
      Sound(after.cluster) && (after.run.Some? ==> RunHolds(after.cluster, after.run.value))
  {
    hide HostMapData, Wanted, RabbitData, KedaData, SecretData, Alphanumeric, RabbitUser, KedaUser;
    BrokerData(run.phase.rabbit, answer.draws);
    SecretUsers(run.phase.rabbit);
  }

  lemma AdvanceHolds(c: Option<Cluster>, run: Run, answer: Answer)
    requires Sound(c) && RunHolds(c, run) && Alphanumeric(answer.drawn)
    ensures var after := Advance(c, run, answer);
      Sound(after.cluster) && (after.run.Some? ==> RunHolds(after.cluster, after.run.value))
  {
    hide HostMapData, Wanted, Alphanumeric, RabbitUser, KedaUser, SecretData, Differs;
    if run.phase.CreatingSecrets? && c.Some? {
      CreateHolds(c.value, run, answer);
    } else if run.phase.Comparing? && c.Some? && c.value.hostMap.Some? && !Differs(c.value.hostMap.value, run.request.ports) {
      SameMapSamePorts(c.value, run.request.ports);
    }
  }

  lemma DeletionHolds(c: Cluster, name: Name, run: Run)
    requires Sound(Some(c)) && RunHolds(Some(c), run)
    ensures var after := Some(c.(secrets := c.secrets - {name}));
      Sound(after) && RunHolds(after, run)
  {
    hide HostMapData, Alphanumeric, RabbitUser, KedaUser;
  }

  lemma DeletionSound(c: Cluster, name: Name)
    requires Sound(Some(c))
    ensures Sound(Some(c.(secrets := c.secrets - {name})))
  {
    hide HostMapData, Alphanumeric, RabbitUser, KedaUser;
  }

  lemma PerformHolds(w: World, event: Event)
    requires OneHolds(w) && IsAlone(w, event)
    ensures OneHolds(Perform(w, event))
  {
    hide RunHolds, Sound, Advance, Alphanumeric;
    match event
    case Begin(id, request) => FreshHolds(w.cluster, request);
    case Command(id, answer) =>
      if id in w.runs {
        AdvanceHolds(w.cluster, w.runs[id], answer);
      }
    case DeleteSecret(name) =>
      if w.cluster.Some? {
        DeletionSound(w.cluster.value, name);
        forall id | id in w.runs ensures RunHolds(Perform(w, event).cluster, w.runs[id]) {
          DeletionHolds(w.cluster.value, name, w.runs[id]);
        }
      }
    case Down =>
      NoClusterIsSound();
      forall id | id in w.runs ensures RunHolds(None, w.runs[id]) {
        NoClusterHolds(w.runs[id]);
      }
    case _ =>
  }

  lemma NoClusterHolds(run: Run)
    ensures RunHolds(None, run)
  {
  }

  lemma FreshHolds(c: Option<Cluster>, request: Request)
    ensures RunHolds(c, Run(request, Looking))
  {
  }

  lemma NoClusterIsSound()
    ensures Sound(None)
  {
  }

  /** One run at a time, stopped anywhere, with Secrets deleted and the cluster
      taken down at any moment: the same promises hold. */
  lemma {:induction false} SingleRunsAreSafe(w: World, events: seq<Event>)
    requires w.runs == map[] && Sound(w.cluster) && AllAlone(w, events)
    ensures OneHolds(Trace(w, events))
  {
    hide OneHolds, Sound, IsAlone, Perform;
    if events == [] {
      NoRunsHold(w);
    } else {
      var before := events[..|events| - 1];
      assert forall k :: 0 <= k < |before| ==> before[..k] == events[..k];
      SingleRunsAreSafe(w, before);
      assert IsAlone(Trace(w, events[..|events| - 1]), events[|events| - 1]);
      PerformHolds(Trace(w, before), events[|events| - 1]);
    }
  }

  lemma NoRunsHold(w: World)
    requires w.runs == map[] && Sound(w.cluster)
    ensures OneHolds(w)
  {
  }

  // ---------------------------------------------------- what a run refuses

  /** On a cluster that has no map: the runs that find it get no further than
      comparing it, and none of them changes it. */
  predicate IsUnused(w: World, c: Cluster) {
    w.cluster == Some(c)
    && forall id :: id in w.runs ==> w.runs[id].phase in {Looking, Inspecting, Comparing}
  }

  function DeletedNames(events: seq<Event>): set<Name> {
    set event | event in events && event.DeleteSecret? :: event.name
  }

  lemma RefusalStep(w: World, c: Cluster, event: Event)
    requires IsUnused(w, c) && c.hostMap.None? && !event.Down?
    ensures IsUnused(Perform(w, event), c.(secrets := c.secrets - DeletedNames([event])))
  {
    assert DeletedNames([event]) == if event.DeleteSecret? then {event.name} else {};
    if !event.DeleteSecret? {
      assert c.secrets - {} == c.secrets;
    }
  }

  /** A cluster left without a map is refused, never reused: whatever runs begin
      on it, each ends before it changes anything, until the cluster is taken down.
      It keeps its ports, stays without a map, and loses the deleted Secrets only. */
  lemma {:induction false} UnrecordedClusterIsRefused(w: World, c: Cluster, events: seq<Event>)
    requires w.cluster == Some(c) && c.hostMap.None? && w.runs == map[]
    requires Down !in events
    ensures IsUnused(Trace(w, events), c.(secrets := c.secrets - DeletedNames(events)))
  {
    if events == [] {
      assert c.secrets - DeletedNames(events) == c.secrets;
    } else {
      hide Perform, IsUnused;
      var before, last := events[..|events| - 1], events[|events| - 1];
      UnrecordedClusterIsRefused(w, c, before);
      RefusalStep(Trace(w, before), c.(secrets := c.secrets - DeletedNames(before)), last);
      assert events == before + [last];
      assert DeletedNames(events) == DeletedNames(before) + DeletedNames([last]);
      assert c.secrets - DeletedNames(events) == c.secrets - DeletedNames(before) - DeletedNames([last]);
    }
  }

  /** A recorded cluster is reused exactly when its ports are the run's. */
  lemma ReuseExactly(c: Cluster, run: Run, answer: Answer)
    requires MapMatches(c) && run.phase.Comparing?
    ensures Advance(Some(c), run, answer).run.Some? <==> c.hostMap.Some? && c.ports == run.request.ports
  {
    hide NatText;
    if c.hostMap.Some? && !Differs(c.hostMap.value, run.request.ports) {
      SameMapSamePorts(c, run.request.ports);
    }
  }
}
