/**
 Exactly when the promises of scripts/k8s-up.mjs hold: over every history, of
 any overlapping runs, deletions and downs, the broker Secrets agree throughout
 unless a run creates one of them beside one that has another user, and the
 recorded map is the cluster's own throughout unless a run records its ports on
 a cluster that was created with others.
 */
module ProvisioningExact {
  import opened Text
  import opened Provisioning
  import opened ProvisioningSafety

  // --------------------------------------------------------- the broker users

  predicate Agrees(c: Option<Cluster>) { c.Some? ==> BrokersAgree(c.value) }

  /** The random generator draws alphanumeric values. */
  predicate IsDrawn(event: Event) { event.Command? ==> Alphanumeric(event.answer.drawn) }

  /** Every broker user, in a Secret or in a run's hands, was drawn. */
  predicate UsersDrawn(w: World) {
    (w.cluster.Some? ==> BrokersWritten(w.cluster.value))
    && forall id :: id in w.runs && w.runs[id].phase.CreatingSecrets? ==> Alphanumeric(w.runs[id].phase.rabbit)
  }

  /** The run's next command creates this Secret. */
  predicate Creates(c: Cluster, run: Run, name: Name) {
    run.phase.CreatingSecrets?
    && run.phase.next < |Wanted(run.request.withToken)| && Wanted(run.request.withToken)[run.phase.next] == name
    && name !in run.phase.existing && name !in c.secrets
  }

  /** The command creates one broker Secret while the other is there with a user
      that is not the run's. */
  predicate MixesUsers(w: World, event: Event) {
    event.Command? && event.id in w.runs && w.cluster.Some? &&
    var c, run := w.cluster.value, w.runs[event.id];
    (Creates(c, run, RabbitMq) && KedaRabbitMq in c.secrets && KedaUser(c.secrets[KedaRabbitMq]) != run.phase.rabbit)
    || (Creates(c, run, KedaRabbitMq) && RabbitMq in c.secrets && RabbitUser(c.secrets[RabbitMq]) != run.phase.rabbit)
  }

  lemma CreateWrites(c: Cluster, run: Run, answer: Answer)
    requires BrokersWritten(c) && run.phase.CreatingSecrets? && Alphanumeric(run.phase.rabbit)
    ensures var after := InCluster(c, run, answer);
      after.cluster.Some? && BrokersWritten(after.cluster.value)
      && (after.run.Some? && after.run.value.phase.CreatingSecrets? ==> after.run.value.phase.rabbit == run.phase.rabbit)
  {
    hide HostMapData, Wanted, RabbitData, KedaData, Alphanumeric, RabbitUser, KedaUser;
    SecretUsers(run.phase.rabbit);
  }

  lemma AdvanceWrites(c: Option<Cluster>, run: Run, answer: Answer)
    requires (c.Some? ==> BrokersWritten(c.value)) && Alphanumeric(answer.drawn)
    requires run.phase.CreatingSecrets? ==> Alphanumeric(run.phase.rabbit)
    ensures var after := Advance(c, run, answer);
      (after.cluster.Some? ==> BrokersWritten(after.cluster.value))
      && (after.run.Some? && after.run.value.phase.CreatingSecrets? ==> Alphanumeric(after.run.value.phase.rabbit))
  {
    hide HostMapData, Wanted, Alphanumeric, RabbitUser, KedaUser, SecretData, Differs;
    if run.phase.CreatingSecrets? && c.Some? {
      CreateWrites(c.value, run, answer);
    }
  }

  /** Drawn users stay drawn, whatever happens. */
  lemma PerformWrites(w: World, event: Event)
    requires UsersDrawn(w) && IsDrawn(event)
    ensures UsersDrawn(Perform(w, event))
  {
    hide Advance, Alphanumeric, RabbitUser, KedaUser;
    if event.Command? && event.id in w.runs {
      AdvanceWrites(w.cluster, w.runs[event.id], event.answer);
    }
  }

  lemma CreateAgreesExactly(c: Cluster, run: Run, answer: Answer)
    requires BrokersAgree(c) && run.phase.CreatingSecrets? && Alphanumeric(run.phase.rabbit)
    ensures Agrees(InCluster(c, run, answer).cluster) <==>
      !(Creates(c, run, RabbitMq) && KedaRabbitMq in c.secrets && KedaUser(c.secrets[KedaRabbitMq]) != run.phase.rabbit)
      && !(Creates(c, run, KedaRabbitMq) && RabbitMq in c.secrets && RabbitUser(c.secrets[RabbitMq]) != run.phase.rabbit)
  {
    hide HostMapData, Wanted, RabbitData, KedaData, Alphanumeric, RabbitUser, KedaUser;
    SecretUsers(run.phase.rabbit);
  }

  lemma OtherCommandsAgree(c: Option<Cluster>, run: Run, answer: Answer)
    requires Agrees(c) && !run.phase.CreatingSecrets?
    ensures Agrees(Advance(c, run, answer).cluster)
  {
    hide HostMapData, RabbitUser, KedaUser, Differs;
  }

  lemma DeletionAgrees(c: Cluster, name: Name)
    requires BrokersAgree(c)
    ensures BrokersAgree(c.(secrets := c.secrets - {name}))
  {
    hide RabbitUser, KedaUser;
  }

  /** One event: agreeing broker Secrets still agree exactly when it mixes no users. */
  lemma BrokersStepExactly(w: World, event: Event)
    requires UsersDrawn(w) && Agrees(w.cluster)
    ensures Agrees(Perform(w, event).cluster) <==> !MixesUsers(w, event)
  {
    hide InCluster, BrokersAgree, BrokersWritten, RabbitUser, KedaUser, Alphanumeric, Wanted;
    match event
    case Command(id, answer) =>
      if id in w.runs {
        var run := w.runs[id];
        if run.phase.CreatingSecrets? && w.cluster.Some? {
          CreateAgreesExactly(w.cluster.value, run, answer);
        } else if !run.phase.CreatingSecrets? {
          OtherCommandsAgree(w.cluster, run, answer);
        }
      }
    case DeleteSecret(name) =>
      if w.cluster.Some? {
        DeletionAgrees(w.cluster.value, name);
      }
    case _ =>
  }

  predicate AgreesThroughout(w: World, events: seq<Event>) {
    forall k :: 0 <= k <= |events| ==> Agrees(Trace(w, events[..k]).cluster)
  }

  predicate NeverMixes(w: World, events: seq<Event>) {
    forall k :: 0 <= k < |events| ==> !MixesUsers(Trace(w, events[..k]), events[k])
  }

  lemma {:induction false} UsersStayDrawn(w: World, events: seq<Event>)
    requires UsersDrawn(w) && forall event :: event in events ==> IsDrawn(event)
    ensures UsersDrawn(Trace(w, events))
  {
    hide UsersDrawn, IsDrawn, Perform;
    if events == [] {
    } else {
      UsersStayDrawn(w, events[..|events| - 1]);
      PerformWrites(Trace(w, events[..|events| - 1]), events[|events| - 1]);
    }
  }

  lemma Prefixes(events: seq<Event>)
    requires events != []
    ensures var before := events[..|events| - 1];
      events[..|events|] == events && forall k :: 0 <= k <= |before| ==> before[..k] == events[..k]
  {
  }

  /** Over every history the two broker Secrets agree at every point exactly when
      no command of it creates one of them beside one with another user. */
  lemma {:induction false} BrokersAgreeExactly(w: World, events: seq<Event>)
    requires UsersDrawn(w) && Agrees(w.cluster) && forall event :: event in events ==> IsDrawn(event)
    ensures AgreesThroughout(w, events) <==> NeverMixes(w, events)
    decreases |events|
  {
    hide UsersDrawn, IsDrawn, Perform, Agrees, MixesUsers;
    if events == [] {
    } else {
      var n := |events| - 1;
      var before := events[..n];
      Prefixes(events);
      BrokersAgreeExactly(w, before);
      assert AgreesThroughout(w, events) <==> AgreesThroughout(w, before) && Agrees(Trace(w, events).cluster);
      assert NeverMixes(w, events) <==> NeverMixes(w, before) && !MixesUsers(Trace(w, before), events[n]);
      if AgreesThroughout(w, before) {
        assert before[..n] == before;
        UsersStayDrawn(w, before);
        BrokersStepExactly(Trace(w, before), events[n]);
      }
    }
  }

  // ------------------------------------------------------- the recorded ports

  predicate Matches(c: Option<Cluster>) { c.Some? ==> MapMatches(c.value) }

  /** The command records a run's ports on a cluster that publishes others. */
  predicate RecordsForeign(w: World, event: Event) {
    event.Command? && event.id in w.runs && w.cluster.Some?
    && w.runs[event.id].phase.Recording? && w.cluster.value.ports != w.runs[event.id].request.ports
  }

  lemma HostMapExactly(a: Ports, b: Ports)
    ensures HostMapData(a) == HostMapData(b) <==> a == b
  {
    hide NatText;
    if HostMapData(a) == HostMapData(b) {
      NatTextInjective(a.catalog, b.catalog);
      NatTextInjective(a.storage, b.storage);
    }
  }

  /** One event: a map that is the cluster's own stays so exactly when the event
      records no other ports; what happens to Secrets does not matter. */
  lemma MapStepExactly(w: World, event: Event)
    requires Matches(w.cluster)
    ensures Matches(Perform(w, event).cluster) <==> !RecordsForeign(w, event)
  {
    hide HostMapData, Wanted, SecretData, RabbitUser, KedaUser, Differs;
    if event.Command? && event.id in w.runs && w.cluster.Some? {
      HostMapExactly(w.runs[event.id].request.ports, w.cluster.value.ports);
    }
  }

  predicate MatchesThroughout(w: World, events: seq<Event>) {
    forall k :: 0 <= k <= |events| ==> Matches(Trace(w, events[..k]).cluster)
  }

  predicate NeverRecordsForeign(w: World, events: seq<Event>) {
    forall k :: 0 <= k < |events| ==> !RecordsForeign(Trace(w, events[..k]), events[k])
  }

  /** Over every history the recorded map is the cluster's own at every point
      exactly when no command of it records a run's ports on another's cluster. */
  lemma {:induction false} MapMatchesExactly(w: World, events: seq<Event>)
    requires Matches(w.cluster)
    ensures MatchesThroughout(w, events) <==> NeverRecordsForeign(w, events)
    decreases |events|
  {
    hide Perform, Matches, RecordsForeign;
    if events == [] {
    } else {
      var n := |events| - 1;
      var before := events[..n];
      Prefixes(events);
      MapMatchesExactly(w, before);
      assert MatchesThroughout(w, events) <==> MatchesThroughout(w, before) && Matches(Trace(w, events).cluster);
      assert NeverRecordsForeign(w, events) <==> NeverRecordsForeign(w, before) && !RecordsForeign(Trace(w, before), events[n]);
      if MatchesThroughout(w, before) {
        assert before[..n] == before;
        MapStepExactly(Trace(w, before), events[n]);
      }
    }
  }

  // --------------------------------- what keeps a run from foreign clusters

  /** A run between deciding on its cluster and recording its ports there. */
  predicate IsRecording(run: Run) { run.phase.Namespacing? || run.phase.Recording? }

  predicate OwnClusters(w: World) {
    Matches(w.cluster)
    && forall id :: id in w.runs && IsRecording(w.runs[id]) ==>
         w.cluster.Some? && w.cluster.value.ports == w.runs[id].request.ports
  }

  predicate NoDownWhileRecording(w: World, events: seq<Event>) {
    forall k :: 0 <= k < |events| && events[k].Down? ==>
      forall id :: id in Trace(w, events[..k]).runs ==> !IsRecording(Trace(w, events[..k]).runs[id])
  }

  lemma PerformKeepsOwn(w: World, event: Event)
    requires OwnClusters(w) && (event.Down? ==> forall id :: id in w.runs ==> !IsRecording(w.runs[id]))
    ensures OwnClusters(Perform(w, event))
  {
    hide HostMapData, Wanted, SecretData, RabbitUser, KedaUser, Differs;
    if event.Command? && event.id in w.runs && w.cluster.Some? {
      var run := w.runs[event.id];
      if run.phase.Comparing? && w.cluster.value.hostMap.Some? && !Differs(w.cluster.value.hostMap.value, run.request.ports) {
        SameMapSamePorts(w.cluster.value, run.request.ports);
      }
    }
  }

  /** With any Secrets deleted at any moment and the cluster taken down whenever
      no run is about to record its ports, the map is the cluster's own. */
  lemma {:induction false} MapStaysOwn(w: World, events: seq<Event>)
    requires OwnClusters(w) && NoDownWhileRecording(w, events)
    ensures OwnClusters(Trace(w, events))
    decreases |events|
  {
    hide OwnClusters, IsRecording, Perform;
    if events == [] {
    } else {
      var before := events[..|events| - 1];
      Prefixes(events);
      MapStaysOwn(w, before);
      assert events[|events| - 1].Down? ==> forall id :: id in Trace(w, before).runs ==> !IsRecording(Trace(w, before).runs[id]);
      PerformKeepsOwn(Trace(w, before), events[|events| - 1]);
    }
  }
}
