/**
 What a run of scripts/k8s-up.mjs has brought about when it ends: every Secret
 the manifests read is there, but for those deleted meanwhile, and a run that is
 left alone and finds its machine ready does end, after a known number of
 commands.
 */
module ProvisioningDone {
  import opened Text
  import opened Provisioning
  import opened ProvisioningSafety
  import opened ProvisioningRun

  /** The manifests read every Secret but the registry's, which takes a token. */
  predicate IsRequired(name: Name, request: Request) {
    name != GhcrPull || request.withToken
  }

  // -------------------------------------------------------- over any history

  /** What a run has seen to: the Secrets it listed and those it has gone past are
      there, or were deleted. */
  predicate HasSeenTo(c: Option<Cluster>, run: Run, gone: set<Name>) {
    match run.phase
    case Looking => true
    case Inspecting => true
    case Comparing => true
    case CreatingCluster => true
    case Recovering(snapshot) => c.Some? && snapshot <= c.value.secrets.Keys + gone
    case CreatingSecrets(existing, _, next) =>
      c.Some? && existing <= c.value.secrets.Keys + gone
      && forall name :: IsRequired(name, run.request) && PlaceOf(name) < next ==> name in c.value.secrets || name in gone
    case Done => c.Some? && forall name :: IsRequired(name, run.request) ==> name in c.value.secrets || name in gone
    case _ => c.Some?
  }

  /** The order in which a run creates the Secrets. */
  function PlaceOf(name: Name): nat {
    match name
    case Postgres => 0
    case Storage => 1
    case RabbitMq => 2
    case KedaRabbitMq => 3
    case IdentityAdmin => 4
    case GrafanaAdmin => 5
    case GhcrPull => 6
  }

  lemma WantedIs(withToken: bool, next: nat)
    ensures |Wanted(withToken)| == if withToken then 7 else 6
    ensures next < |Wanted(withToken)| ==> PlaceOf(Wanted(withToken)[next]) == next
  {
  }

  lemma PlacesDiffer(a: Name, b: Name)
    requires PlaceOf(a) == PlaceOf(b)
    ensures a == b
  {
  }

  lemma OwnCommandSees(c: Option<Cluster>, run: Run, answer: Answer, gone: set<Name>)
    requires HasSeenTo(c, run, gone)
    ensures var after := Advance(c, run, answer); after.run.Some? ==> HasSeenTo(after.cluster, after.run.value, gone)
  {
    hide Wanted, SecretData, RabbitUser, KedaUser, HostMapData, Differs;
    if run.phase.CreatingSecrets? {
      var next := run.phase.next;
      WantedIs(run.request.withToken, next);
      forall name | PlaceOf(name) == next && next < |Wanted(run.request.withToken)|
        ensures name == Wanted(run.request.withToken)[next]
      {
        PlacesDiffer(name, Wanted(run.request.withToken)[next]);
      }
    }
  }

  /** A command never takes a Secret away. */
  lemma CommandKeepsSecrets(c: Option<Cluster>, run: Run, answer: Answer)
    ensures var after := Advance(c, run, answer).cluster;
      c.Some? ==> after.Some? && c.value.secrets.Keys <= after.value.secrets.Keys
  {
    hide Wanted, SecretData, RabbitUser, KedaUser, HostMapData, Differs;
  }

  lemma MoreSecretsSeen(c: Option<Cluster>, after: Option<Cluster>, run: Run, gone: set<Name>, more: set<Name>)
    requires HasSeenTo(c, run, gone)
    requires c.Some? ==> after.Some? && c.value.secrets.Keys + gone <= after.value.secrets.Keys + more
    ensures HasSeenTo(after, run, more)
  {
    if c.Some? {
      forall name | name in c.value.secrets || name in gone ensures name in after.value.secrets || name in more {
        assert name in c.value.secrets.Keys + gone;
      }
    }
  }

  lemma EventSees(w: World, event: Event, id: nat, gone: set<Name>)
    requires !event.Down? && (id in w.runs ==> HasSeenTo(w.cluster, w.runs[id], gone))
    ensures var after := Perform(w, event);
      id in after.runs ==> HasSeenTo(after.cluster, after.runs[id], gone + DeletedNames([event]))
  {
    hide HasSeenTo, Advance;
    var more := gone + DeletedNames([event]);
    match event
    case Begin(own, request) =>
      if id in w.runs {
        MoreSecretsSeen(w.cluster, w.cluster, w.runs[id], gone, more);
      } else {
        FreshSees(w.cluster, request, more);
      }
    case Command(own, answer) =>
      if own in w.runs && id in w.runs {
        CommandKeepsSecrets(w.cluster, w.runs[own], answer);
        var after := Advance(w.cluster, w.runs[own], answer);
        OwnCommandSees(w.cluster, w.runs[id], answer, gone);
        if own == id {
          if after.run.Some? {
            MoreSecretsSeen(after.cluster, after.cluster, after.run.value, gone, more);
          }
        } else {
          MoreSecretsSeen(w.cluster, after.cluster, w.runs[id], gone, more);
        }
      } else if id in w.runs {
        MoreSecretsSeen(w.cluster, w.cluster, w.runs[id], gone, more);
      }
    case Stop(own) =>
      if id in w.runs {
        MoreSecretsSeen(w.cluster, w.cluster, w.runs[id], gone, more);
      }
    case DeleteSecret(name) =>
      if id in w.runs {
        assert name in DeletedNames([event]);
        MoreSecretsSeen(w.cluster, Perform(w, event).cluster, w.runs[id], gone, more);
      }
  }

  lemma FreshSees(c: Option<Cluster>, request: Request, gone: set<Name>)
    ensures HasSeenTo(c, Run(request, Looking), gone)
  {
  }

  lemma {:induction false} HistorySees(w: World, events: seq<Event>, id: nat)
    requires id !in w.runs && Down !in events
    ensures var after := Trace(w, events);
      id in after.runs ==> HasSeenTo(after.cluster, after.runs[id], DeletedNames(events))
  {
    hide HasSeenTo, Perform;
    if events == [] {
    } else {
      var before, last := events[..|events| - 1], events[|events| - 1];
      assert events == before + [last];
      HistorySees(w, before, id);
      EventSees(Trace(w, before), last, id, DeletedNames(before));
      assert DeletedNames(events) == DeletedNames(before) + DeletedNames([last]);
    }
  }

  /** Whatever other runs do, a run that ends has every required Secret in the
      cluster, but for those deleted since before it began. */
  lemma DoneHasEverySecret(w: World, events: seq<Event>, id: nat)
    requires id !in w.runs && Down !in events
    ensures var after := Trace(w, events);
      id in after.runs && after.runs[id].phase.Done? ==>
        after.cluster.Some?
        && forall name :: IsRequired(name, after.runs[id].request) ==>
             name in after.cluster.value.secrets || name in DeletedNames(events)
  {
    hide Trace;
    HistorySees(w, events, id);
  }

  // ------------------------------------------------------------- a run alone

  /** The Secrets with the given ones created where they were absent. */
  function Filled(secrets: map<Name, Data>, names: seq<Name>, rabbit: Credentials, draws: Draws): map<Name, Data>
    decreases names
  {
    if names == [] then secrets
    else
      var first := if names[0] in secrets then secrets else secrets[names[0] := SecretData(names[0], rabbit, draws)];
      Filled(first, names[1..], rabbit, draws)
  }

  lemma {:induction false} FilledHas(secrets: map<Name, Data>, names: seq<Name>, rabbit: Credentials, draws: Draws)
    ensures forall name :: name in Filled(secrets, names, rabbit, draws) <==> name in secrets || name in names
    ensures forall name :: name in Filled(secrets, names, rabbit, draws) ==>
      Filled(secrets, names, rabbit, draws)[name]
      == if name in secrets then secrets[name] else SecretData(name, rabbit, draws)
    decreases names
  {
    hide SecretData;
    if names == [] {
    } else {
      var first := if names[0] in secrets then secrets else secrets[names[0] := SecretData(names[0], rabbit, draws)];
      FilledHas(first, names[1..], rabbit, draws);
      assert forall name :: name in names <==> name == names[0] || name in names[1..];
    }
  }

  /** The creating commands, from one place in the list to the end. */
  lemma {:induction false} CreatesTheRest(c: Cluster, request: Request, answer: Answer, existing: set<Name>,
                                          rabbit: Credentials, next: nat, n: nat)
    requires next <= |Wanted(request.withToken)|
    requires forall name :: PlaceOf(name) >= next ==> (name in c.secrets <==> name in existing)
    ensures var wanted := Wanted(request.withToken);
      var after := Iterate(Some(c), Run(request, CreatingSecrets(existing, rabbit, next)), answer, n);
      after.run.Some? && after.run.value.request == request && (after.run.value.phase.Done? <==> n > |wanted| - next)
      && (n > |wanted| - next ==>
            after.cluster == Some(c.(secrets := Filled(c.secrets, wanted[next..], rabbit, answer.draws))))
    decreases |Wanted(request.withToken)| - next
  {
    hide Wanted, SecretData, Advance, Iterate;
    var wanted, run := Wanted(request.withToken), Run(request, CreatingSecrets(existing, rabbit, next));
    WantedIs(request.withToken, next);
    CreateCommand(c, request, answer, existing, rabbit, next);
    IterateStep(Some(c), run, answer, n);
    if n == 0 {
    } else if next == |wanted| {
      DoneStays(Some(c), Run(request, Done), answer, n - 1);
      assert wanted[next..] == [];
    } else {
      var name := wanted[next];
      var grown := if name in existing then c
                   else c.(secrets := c.secrets[name := SecretData(name, rabbit, answer.draws)]);
      forall other | PlaceOf(other) >= next + 1 ensures other in grown.secrets <==> other in existing {
        assert other != name;
      }
      CreatesTheRest(grown, request, answer, existing, rabbit, next + 1, n - 1);
      assert wanted[next..][1..] == wanted[next + 1..];
    }
  }

  /** A command of a run that only moves on. */
  lemma OneMore(c: Option<Cluster>, run: Run, answer: Answer, n: nat, to: Option<Cluster>, phase: Phase)
    requires Advance(c, run, answer) == After(to, Some(run.(phase := phase)))
    ensures Iterate(c, run, answer, n)
         == if n == 0 then After(c, Some(run)) else Iterate(to, run.(phase := phase), answer, n - 1)
  {
    hide Advance;
    IterateStep(c, run, answer, n);
  }

  function Recovered(c: Cluster, answer: Answer): Credentials {
    if RabbitMq in c.secrets then RabbitUser(c.secrets[RabbitMq])
    else if KedaRabbitMq in c.secrets then KedaUser(c.secrets[KedaRabbitMq])
    else answer.drawn
  }

  /** The cluster a run leaves: its ports recorded, every wanted Secret there. */
  function Provisioned(c: Cluster, request: Request, answer: Answer): Cluster {
    Cluster(c.ports, Some(HostMapData(request.ports)),
            Filled(c.secrets, Wanted(request.withToken), Recovered(c, answer), answer.draws))
  }

  lemma NamespaceProvisions(c: Cluster, request: Request, answer: Answer, n: nat)
    ensures var after := Iterate(Some(c), Run(request, Namespacing), answer, n);
      var needed := 5 + |Wanted(request.withToken)|;
      after.run.Some? && after.run.value.request == request && (after.run.value.phase.Done? <==> n >= needed)
      && (n >= needed ==> after.cluster == Some(Provisioned(c, request, answer)))
  {
    hide Advance, Iterate, HostMapData, RabbitUser, KedaUser, Filled, Wanted;
    var recorded := c.(hostMap := Some(HostMapData(request.ports)));
    var existing, rabbit := c.secrets.Keys, Recovered(c, answer);
    NamespaceCommand(c, request, answer);
    RecordCommand(c, request, answer);
    ListCommand(recorded, request, answer);
    RecoverCommand(recorded, request, answer, rabbit);
    OneMore(Some(c), Run(request, Namespacing), answer, n, Some(c), Recording);
    if n >= 1 {
      OneMore(Some(c), Run(request, Recording), answer, n - 1, Some(recorded), Listing);
    }
    if n >= 2 {
      OneMore(Some(recorded), Run(request, Listing), answer, n - 2, Some(recorded), Recovering(existing));
    }
    if n >= 3 {
      OneMore(Some(recorded), Run(request, Recovering(existing)), answer, n - 3, Some(recorded),
              CreatingSecrets(existing, rabbit, 0));
    }
    if n >= 4 {
      CreatesTheRest(recorded, request, answer, existing, rabbit, 0, n - 4);
      assert Wanted(request.withToken)[0..] == Wanted(request.withToken);
    }
  }

  /** The commands a run alone takes to its end. */
  function CommandsNeeded(cluster: Option<Cluster>, request: Request): nat {
    (if cluster.None? then 13 else 14) + if request.withToken then 1 else 0
  }

  lemma StartProvisions(cluster: Option<Cluster>, request: Request, answer: Answer, n: nat)
    requires answer.nodesReady && answer.portsFree
    requires cluster.Some? ==> cluster.value.hostMap.Some? && !Differs(cluster.value.hostMap.value, request.ports)
    ensures var after := Iterate(cluster, Run(request, Looking), answer, n);
      var c := if cluster.Some? then cluster.value else Cluster(request.ports, None, map[]);
      after.run.Some? && after.run.value.request == request
      && (after.run.value.phase.Done? <==> n >= CommandsNeeded(cluster, request))
      && (n >= CommandsNeeded(cluster, request) ==> after.cluster == Some(Provisioned(c, request, answer)))
  {
    StartCommands(cluster, request, answer);
    WantedIs(request.withToken, 0);
    hide Advance, Iterate, Differs, Provisioned, Wanted;
    var run := Run(request, Looking);
    if cluster.None? {
      var c := Cluster(request.ports, None, map[]);
      OneMore(cluster, run, answer, n, cluster, CreatingCluster);
      if n >= 1 {
        OneMore(cluster, Run(request, CreatingCluster), answer, n - 1, Some(c), Namespacing);
      }
      if n >= 2 {
        NamespaceProvisions(c, request, answer, n - 2);
      }
    } else {
      OneMore(cluster, run, answer, n, cluster, Inspecting);
      if n >= 1 {
        OneMore(cluster, Run(request, Inspecting), answer, n - 1, cluster, Comparing);
      }
      if n >= 2 {
        OneMore(cluster, Run(request, Comparing), answer, n - 2, cluster, Namespacing);
      }
      if n >= 3 {
        NamespaceProvisions(cluster.value, request, answer, n - 3);
      }
    }
  }

  lemma StartCommands(cluster: Option<Cluster>, request: Request, answer: Answer)
    requires answer.nodesReady && answer.portsFree
    requires cluster.Some? ==> cluster.value.hostMap.Some? && !Differs(cluster.value.hostMap.value, request.ports)
    ensures Advance(cluster, Run(request, Looking), answer)
         == After(cluster, Some(Run(request, if cluster.None? then CreatingCluster else Inspecting)))
    ensures cluster.None? ==>
      Advance(cluster, Run(request, CreatingCluster), answer)
      == After(Some(Cluster(request.ports, None, map[])), Some(Run(request, Namespacing)))
    ensures cluster.Some? ==>
      Advance(cluster, Run(request, Inspecting), answer) == After(cluster, Some(Run(request, Comparing)))
      && Advance(cluster, Run(request, Comparing), answer) == After(cluster, Some(Run(request, Namespacing)))
  {
    hide Differs;
  }

  /** A run alone, on no cluster with its ports free or on a ready one recorded with
      its own ports, ends after exactly so many commands; then the run's ports are
      recorded, the Secrets are those there were and every required one, and what
      there was is as it was. */
  lemma RunAloneEnds(cluster: Option<Cluster>, request: Request, answer: Answer, n: nat)
    requires answer.nodesReady && answer.portsFree
    requires cluster.Some? ==> cluster.value.hostMap.Some? && !Differs(cluster.value.hostMap.value, request.ports)
    ensures var after := Iterate(cluster, Run(request, Looking), answer, n);
      after.run.Some? && (after.run.value.phase.Done? <==> n >= CommandsNeeded(cluster, request))
      && (after.run.value.phase.Done? ==>
            after.cluster.Some? && after.cluster.value.hostMap == Some(HostMapData(request.ports))
            && after.cluster.value.ports == (if cluster.Some? then cluster.value.ports else request.ports)
            && NothingRotated(cluster, after.cluster)
            && (forall name :: name in after.cluster.value.secrets <==>
                  IsRequired(name, request) || (cluster.Some? && name in cluster.value.secrets))
            && (cluster.None? && Alphanumeric(answer.drawn) ==>
                  HoldsDrawn(after.cluster.value.secrets, answer.drawn, answer.draws)))
  {
    hide Iterate, Differs, HostMapData, Filled, Wanted;
    StartProvisions(cluster, request, answer, n);
    var c := if cluster.Some? then cluster.value else Cluster(request.ports, None, map[]);
    FilledHas(c.secrets, Wanted(request.withToken), Recovered(c, answer), answer.draws);
    RequiredAreWanted(request);
    if cluster.None? && Alphanumeric(answer.drawn) {
      FreshSecretsHoldDrawn(Filled(c.secrets, Wanted(request.withToken), Recovered(c, answer), answer.draws),
                            answer.drawn, answer.draws);
    }
  }

  /** Every new Secret gives back what was drawn for it, the broker's user from each
      of the three places that name it. */
  predicate HoldsDrawn(secrets: map<Name, Data>, user: Credentials, draws: Draws) {
    (RabbitMq in secrets ==>
       RabbitUser(secrets[RabbitMq]) == user
       && "URL" in secrets[RabbitMq] && UserInfo(secrets[RabbitMq]["URL"]) == user)
    && (KedaRabbitMq in secrets ==> KedaUser(secrets[KedaRabbitMq]) == user)
    && Holds(secrets, Postgres, "POSTGRES_PASSWORD", draws.postgres)
    && Holds(secrets, Postgres, "CATALOG_DB_PASSWORD", "catalog")
    && Holds(secrets, Postgres, "NOTIFICATION_DB_PASSWORD", "notification")
    && Holds(secrets, IdentityAdmin, "KC_BOOTSTRAP_ADMIN_USERNAME", "admin")
    && Holds(secrets, GrafanaAdmin, "GF_SECURITY_ADMIN_USER", "admin")
    && Holds(secrets, Storage, "ACCESS_KEY", draws.accessKey) && Holds(secrets, Storage, "SECRET_KEY", draws.secretKey)
    && Holds(secrets, IdentityAdmin, "KC_BOOTSTRAP_ADMIN_PASSWORD", draws.identity)
    && Holds(secrets, GrafanaAdmin, "GF_SECURITY_ADMIN_PASSWORD", draws.grafana)
    && Holds(secrets, GhcrPull, ".dockerconfigjson", draws.pull)
  }

  predicate Holds(secrets: map<Name, Data>, name: Name, key: string, value: string) {
    name in secrets ==> key in secrets[name] && secrets[name][key] == value
  }

  lemma FreshSecretsHoldDrawn(secrets: map<Name, Data>, user: Credentials, draws: Draws)
    requires Alphanumeric(user) && forall name :: name in secrets ==> secrets[name] == SecretData(name, user, draws)
    ensures HoldsDrawn(secrets, user, draws)
  {
    hide UserInfo, KedaHost, Alphanumeric;
    SecretUsers(user);
    UrlRecovers(user);
  }

  /** Otherwise the run is refused where it finds out, and changes nothing. */
  lemma RunAloneRefused(cluster: Option<Cluster>, request: Request, answer: Answer, n: nat)
    requires cluster.None? ==> !answer.portsFree
    requires cluster.Some? ==>
      !answer.nodesReady || cluster.value.hostMap.None? || Differs(cluster.value.hostMap.value, request.ports)
    ensures var after := Iterate(cluster, Run(request, Looking), answer, n);
      after.cluster == cluster && (n >= 3 ==> after.run.None?)
  {
    hide Advance, Iterate, Differs;
    IterateStep(cluster, Run(request, Looking), answer, n);
    RefusedCommands(cluster, request, answer);
    if n >= 1 {
      IterateStep(cluster, Run(request, if cluster.None? then CreatingCluster else Inspecting), answer, n - 1);
    }
    if n >= 2 {
      IterateStep(cluster, Run(request, Comparing), answer, n - 2);
    }
  }

  lemma RefusedCommands(cluster: Option<Cluster>, request: Request, answer: Answer)
    requires cluster.None? ==> !answer.portsFree
    requires cluster.Some? ==>
      !answer.nodesReady || cluster.value.hostMap.None? || Differs(cluster.value.hostMap.value, request.ports)
    ensures Advance(cluster, Run(request, Looking), answer)
         == After(cluster, Some(Run(request, if cluster.None? then CreatingCluster else Inspecting)))
    ensures cluster.None? ==> Advance(cluster, Run(request, CreatingCluster), answer) == After(cluster, None)
    ensures cluster.Some? ==>
      Advance(cluster, Run(request, Inspecting), answer)
      == After(cluster, if answer.nodesReady then Some(Run(request, Comparing)) else None)
    ensures cluster.Some? && answer.nodesReady ==>
      Advance(cluster, Run(request, Comparing), answer) == After(cluster, None)
  {
    hide Differs;
  }

  lemma RequiredAreWanted(request: Request)
    ensures forall name :: name in Wanted(request.withToken) <==> IsRequired(name, request)
  {
    forall name ensures name in Wanted(request.withToken) <==> IsRequired(name, request) {
      if IsRequired(name, request) {
        assert Wanted(request.withToken)[PlaceOf(name)] == name;
      }
    }
  }
}
