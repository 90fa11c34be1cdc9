/**
 One run of scripts/k8s-up.mjs from start to end, in the order of `provision`
 and `provisionNamespace`, and two histories that show why the promises need
 their conditions.
 */
module ProvisioningRun {
  import opened Text
  import opened Provisioning
  import opened ProvisioningSafety

  /** At most `n` commands of one run, no other run in between. */
  function Iterate(cluster: Option<Cluster>, run: Run, answer: Answer, n: nat): After
    decreases n
  {
    if n == 0 then After(cluster, Some(run))
    else
      var after := Advance(cluster, run, answer);
      if after.run.None? then after else Iterate(after.cluster, after.run.value, answer, n - 1)
  }

  lemma IterateStep(cluster: Option<Cluster>, run: Run, answer: Answer, n: nat)
    ensures Iterate(cluster, run, answer, n) ==
      if n == 0 then After(cluster, Some(run))
      else
        var after := Advance(cluster, run, answer);
        if after.run.None? then after else Iterate(after.cluster, after.run.value, answer, n - 1)
  {
    hide Advance;
  }

  // ------------------------------------------------------------- the command

  lemma NamespaceCommand(c: Cluster, request: Request, answer: Answer)
    ensures Advance(Some(c), Run(request, Namespacing), answer) == After(Some(c), Some(Run(request, Recording)))
  {
  }

  lemma RecordCommand(c: Cluster, request: Request, answer: Answer)
    ensures Advance(Some(c), Run(request, Recording), answer)
         == After(Some(c.(hostMap := Some(HostMapData(request.ports)))), Some(Run(request, Listing)))
  {
    hide HostMapData;
  }

  lemma ListCommand(c: Cluster, request: Request, answer: Answer)
    ensures Advance(Some(c), Run(request, Listing), answer)
         == After(Some(c), Some(Run(request, Recovering(c.secrets.Keys))))
  {
  }

  /** What is recovered from a list that is still up to date. */
  lemma RecoverCommand(c: Cluster, request: Request, answer: Answer, rabbit: Credentials)
    requires rabbit == if RabbitMq in c.secrets then RabbitUser(c.secrets[RabbitMq])
                       else if KedaRabbitMq in c.secrets then KedaUser(c.secrets[KedaRabbitMq])
                       else answer.drawn
    ensures Advance(Some(c), Run(request, Recovering(c.secrets.Keys)), answer)
         == After(Some(c), Some(Run(request, CreatingSecrets(c.secrets.Keys, rabbit, 0))))
  {
    hide RabbitUser, KedaUser;
  }

  /** One turn of the loop over the wanted Secrets. */
  lemma CreateCommand(c: Cluster, request: Request, answer: Answer, existing: set<Name>, rabbit: Credentials, next: nat)
    ensures var run, wanted := Run(request, CreatingSecrets(existing, rabbit, next)), Wanted(request.withToken);
      Advance(Some(c), run, answer) ==
      if next >= |wanted| then After(Some(c), Some(Run(request, Done)))
      else
        var name, on := wanted[next], Run(request, CreatingSecrets(existing, rabbit, next + 1));
        if name in existing then After(Some(c), Some(on))
        else if name in c.secrets then After(Some(c), None)
        else After(Some(c.(secrets := c.secrets[name := SecretData(name, rabbit, answer.draws)])), Some(on))
  {
    hide Wanted, SecretData;
  }

  /** The machine's kind cluster as the commands change it. */
  class KindCluster {
    var present: bool
    var ports: Ports
    var hostMap: Option<HostMap>
    var secrets: map<Name, Data>

    ghost function State(): Option<Cluster>
      reads this
    {
      if present then Some(Cluster(ports, hostMap, secrets)) else None
    }

    constructor (ports: Ports)
      ensures State() == None
    {
      present, this.ports, hostMap, secrets := false, ports, None, map[];
    }

    /** Creates every wanted Secret that was absent when they were listed; stops
        at the first name that has appeared since, or when its commands are used
        up. */
    method CreateSecrets(request: Request, answer: Answer, existing: set<Name>, rabbit: Credentials, commands: nat)
      returns (run: Option<Run>)
      requires present
      modifies this`secrets
      ensures After(State(), run)
           == Iterate(old(State()), Run(request, CreatingSecrets(existing, rabbit, 0)), answer, commands)
    {
      hide Wanted, SecretData, Advance, Iterate;
      var wanted := Wanted(request.withToken);
      var next, left := 0, commands;
      while next < |wanted|
        invariant 0 <= next <= |wanted|
        invariant Iterate(old(State()), Run(request, CreatingSecrets(existing, rabbit, 0)), answer, commands)
               == Iterate(State(), Run(request, CreatingSecrets(existing, rabbit, next)), answer, left)
      {
        CreateCommand(State().value, request, answer, existing, rabbit, next);
        IterateStep(State(), Run(request, CreatingSecrets(existing, rabbit, next)), answer, left);
        if left == 0 { return Some(Run(request, CreatingSecrets(existing, rabbit, next))); }
        if wanted[next] !in existing {
          if wanted[next] in secrets { return None; }
          secrets := secrets[wanted[next] := SecretData(wanted[next], rabbit, answer.draws)];
        }
        next, left := next + 1, left - 1;
      }
      CreateCommand(State().value, request, answer, existing, rabbit, next);
      IterateStep(State(), Run(request, CreatingSecrets(existing, rabbit, next)), answer, left);
      if left == 0 { return Some(Run(request, CreatingSecrets(existing, rabbit, next))); }
      DoneStays(State(), Run(request, Done), answer, left - 1);
      return Some(Run(request, Done));
    }

    /** Namespace, ConfigMap and Secrets. */
    method ProvisionNamespace(request: Request, answer: Answer, commands: nat) returns (run: Option<Run>)
      requires present
      modifies this`hostMap, this`secrets
      ensures After(State(), run) == Iterate(old(State()), Run(request, Namespacing), answer, commands)
    {
      hide HostMapData, RabbitUser, KedaUser, Iterate, Advance;
      NamespaceCommand(State().value, request, answer);
      IterateStep(State(), Run(request, Namespacing), answer, commands);
      if commands == 0 { return Some(Run(request, Namespacing)); }
      IterateStep(State(), Run(request, Recording), answer, commands - 1);
      if commands == 1 { return Some(Run(request, Recording)); }
      RecordCommand(State().value, request, answer);
      hostMap := Some(HostMapData(request.ports));
      IterateStep(State(), Run(request, Listing), answer, commands - 2);
      if commands == 2 { return Some(Run(request, Listing)); }
      ListCommand(State().value, request, answer);
      var existing := secrets.Keys;
      IterateStep(State(), Run(request, Recovering(existing)), answer, commands - 3);
      if commands == 3 { return Some(Run(request, Recovering(existing))); }
      var rabbit := answer.drawn;
      if RabbitMq in existing {
        rabbit := RabbitUser(secrets[RabbitMq]);
      } else if KedaRabbitMq in existing {
        rabbit := KedaUser(secrets[KedaRabbitMq]);
      }
      RecoverCommand(State().value, request, answer, rabbit);
      run := CreateSecrets(request, answer, existing, rabbit, commands - 4);
    }

    /** `provision`, stopped after at most `commands` commands. A run that ends
        with `Done` has created or reused the cluster and left it provisioned. */
    method Provision(request: Request, answer: Answer, commands: nat) returns (run: Option<Run>)
      modifies this
      ensures After(State(), run) == Iterate(old(State()), Run(request, Looking), answer, commands)
    {
      hide HostMapData, Differs;
      if commands == 0 { return Some(Run(request, Looking)); }
      IterateStep(State(), Run(request, Looking), answer, commands);
      if !present {
        if commands == 1 { return Some(Run(request, CreatingCluster)); }
        IterateStep(State(), Run(request, CreatingCluster), answer, commands - 1);
        if !answer.portsFree { return None; }
        present, ports, hostMap, secrets := true, request.ports, None, map[];
        run := ProvisionNamespace(request, answer, commands - 2);
      } else {
        if commands == 1 { return Some(Run(request, Inspecting)); }
        IterateStep(State(), Run(request, Inspecting), answer, commands - 1);
        if !answer.nodesReady { return None; }
        if commands == 2 { return Some(Run(request, Comparing)); }
        IterateStep(State(), Run(request, Comparing), answer, commands - 2);
        if hostMap.None? || Differs(hostMap.value, request.ports) { return None; }
        run := ProvisionNamespace(request, answer, commands - 3);
      }
    }
  }

  lemma {:induction false} DoneStays(cluster: Option<Cluster>, run: Run, answer: Answer, n: nat)
    requires run.phase.Done?
    ensures Iterate(cluster, run, answer, n) == After(cluster, Some(run))
  {
    if n == 0 {
    } else {
      DoneStays(cluster, run, answer, n - 1);
    }
  }

  /** A run alone on a sound cluster keeps it sound wherever it stops, and one
      that reaches the end has its own ports recorded. */
  lemma {:induction false} IterateIsSafe(cluster: Option<Cluster>, run: Run, answer: Answer, n: nat)
    requires Sound(cluster) && RunFits(cluster, run) && Alphanumeric(answer.drawn)
    ensures var after := Iterate(cluster, run, answer, n);
      Sound(after.cluster) && NothingRotated(cluster, after.cluster)
      && (after.run.Some? ==> RunFits(after.cluster, after.run.value))
    decreases n
  {
    hide Sound, RunFits, Advance, Grows, Alphanumeric;
    if n == 0 {
    } else {
      AdvanceKeeps(cluster, run, answer);
      var after := Advance(cluster, run, answer);
      GrowsKeeps(cluster, after.cluster);
      if after.run.Some? {
        IterateIsSafe(after.cluster, after.run.value, answer, n - 1);
      }
    }
  }

  // ------------------------------------------------------- commands as events

  function Commands(id: nat, answer: Answer, n: nat): seq<Event> {
    if n == 0 then [] else Commands(id, answer, n - 1) + [Command(id, answer)]
  }

  lemma {:induction false} TraceAppend(w: World, a: seq<Event>, b: seq<Event>)
    ensures Trace(w, a + b) == Trace(Trace(w, a), b)
  {
    hide Perform;
    if b == [] {
      assert a + b == a;
    } else {
      assert (a + b)[..|a + b| - 1] == a + b[..|b| - 1];
      TraceAppend(w, a, b[..|b| - 1]);
    }
  }

  lemma {:induction false} IterateLast(cluster: Option<Cluster>, run: Run, answer: Answer, n: nat)
    ensures var before := Iterate(cluster, run, answer, n);
      Iterate(cluster, run, answer, n + 1)
      == if before.run.None? then before else Advance(before.cluster, before.run.value, answer)
    decreases n
  {
    hide Advance;
    if n > 0 {
      var after := Advance(cluster, run, answer);
      if after.run.Some? {
        IterateLast(after.cluster, after.run.value, answer, n - 1);
      }
    } else {
      var after := Advance(cluster, run, answer);
      assert after.run.Some? ==> Iterate(after.cluster, after.run.value, answer, 0) == after;
    }
  }

  /** The world with what a run alone has come to. */
  function WithRun(w: World, id: nat, after: After): World {
    World(after.cluster, if after.run.Some? then w.runs[id := after.run.value] else w.runs - {id})
  }

  lemma CommandStep(w: World, id: nat, answer: Answer, before: After)
    ensures Perform(WithRun(w, id, before), Command(id, answer))
         == WithRun(w, id, if before.run.None? then before else Advance(before.cluster, before.run.value, answer))
  {
    hide Advance;
    if before.run.Some? {
      var run, after := before.run.value, Advance(before.cluster, before.run.value, answer);
      assert w.runs[id := run] - {id} == w.runs - {id};
      assert after.run.Some? ==> w.runs[id := run][id := after.run.value] == w.runs[id := after.run.value];
    }
  }

  lemma LastCommand(w: World, id: nat, answer: Answer, n: nat)
    ensures Trace(w, Commands(id, answer, n + 1)) == Perform(Trace(w, Commands(id, answer, n)), Command(id, answer))
  {
    hide Perform;
    var before := Commands(id, answer, n);
    assert (before + [Command(id, answer)])[..|before|] == before;
  }

  lemma NoCommand(w: World, id: nat, answer: Answer)
    requires id in w.runs
    ensures Trace(w, Commands(id, answer, 0)) == WithRun(w, id, Iterate(w.cluster, w.runs[id], answer, 0))
  {
    assert w.runs[id := w.runs[id]] == w.runs;
  }

  /** A run's commands without any event in between. */
  lemma {:induction false} CommandsIterate(w: World, id: nat, answer: Answer, n: nat)
    requires id in w.runs
    ensures Trace(w, Commands(id, answer, n)) == WithRun(w, id, Iterate(w.cluster, w.runs[id], answer, n))
  {
    hide Perform, Trace, Commands, Iterate, Advance, WithRun;
    if n == 0 {
      NoCommand(w, id, answer);
    } else {
      CommandsIterate(w, id, answer, n - 1);
      IterateLast(w.cluster, w.runs[id], answer, n - 1);
      LastCommand(w, id, answer, n - 1);
      CommandStep(w, id, answer, Iterate(w.cluster, w.runs[id], answer, n - 1));
    }
  }

  // -------------------------------------------------- why the conditions matter

  const PORTS := Ports(3001, 9000)
  const REQUEST := Request(PORTS, false)

  function AnswerOf(user: string): Answer {
    Answer(true, true, Credentials(user, user), Draws("p", "a", "s", "i", "g", "t"))
  }

  /** A recorded cluster that holds no broker Secret. */
  function Recorded(secrets: map<Name, Data>): Cluster {
    Cluster(PORTS, Some(HostMapData(PORTS)), secrets)
  }

  lemma {:induction false} IterateAdd(cluster: Option<Cluster>, run: Run, answer: Answer, m: nat, n: nat)
    ensures var before := Iterate(cluster, run, answer, m);
      Iterate(cluster, run, answer, m + n)
      == if before.run.None? then before else Iterate(before.cluster, before.run.value, answer, n)
    decreases m
  {
    hide Advance;
    if m == 0 {
    } else {
      var after := Advance(cluster, run, answer);
      if after.run.Some? {
        IterateAdd(after.cluster, after.run.value, answer, m - 1, n);
      }
    }
  }

  /** Seven commands bring a run from its start to its first Secret. */
  lemma ReachesSecrets(secrets: map<Name, Data>, user: string)
    requires RabbitMq !in secrets && KedaRabbitMq !in secrets
    ensures Iterate(Some(Recorded(secrets)), Run(REQUEST, Looking), AnswerOf(user), 7)
         == After(Some(Recorded(secrets)),
                  Some(Run(REQUEST, CreatingSecrets(secrets.Keys, Credentials(user, user), 0))))
  {
    hide NatText, Iterate;
    var c, a := Some(Recorded(secrets)), AnswerOf(user);
    IterateStep(c, Run(REQUEST, Looking), a, 7);
    IterateStep(c, Run(REQUEST, Inspecting), a, 6);
    IterateStep(c, Run(REQUEST, Comparing), a, 5);
    IterateStep(c, Run(REQUEST, Namespacing), a, 4);
    IterateStep(c, Run(REQUEST, Recording), a, 3);
    IterateStep(c, Run(REQUEST, Listing), a, 2);
    IterateStep(c, Run(REQUEST, Recovering(secrets.Keys)), a, 1);
    IterateStep(c, Run(REQUEST, CreatingSecrets(secrets.Keys, Credentials(user, user), 0)), a, 0);
  }

  /** Two overlapping runs and one deleted Secret: run 1 creates the broker
      Secret and loses it, run 2 creates one with its own user, and run 1 goes on
      with the KEDA Secret. */
  function OverlapWithDeletion(): seq<Event> {
    [Begin(1, REQUEST)] + Commands(1, AnswerOf("one"), 10) + [DeleteSecret(RabbitMq), Begin(2, REQUEST)]
    + Commands(2, AnswerOf("two"), 10) + Commands(1, AnswerOf("one"), 1)
  }

  /** The Secrets of a run that has created the first `n` of them, `n` up to 3. */
  lemma FirstSecrets(user: string)
    ensures var p, s := SecretData(Postgres, Credentials(user, user), AnswerOf(user).draws),
                        SecretData(Storage, Credentials(user, user), AnswerOf(user).draws);
      var r := RabbitData(Credentials(user, user));
      Iterate(Some(Recorded(map[])), Run(REQUEST, Looking), AnswerOf(user), 10)
      == After(Some(Recorded(map[Postgres := p, Storage := s, RabbitMq := r])),
               Some(Run(REQUEST, CreatingSecrets({}, Credentials(user, user), 3))))
  {
    hide NatText, Iterate, Advance, RabbitData, SecretData;
    var u, a := Credentials(user, user), AnswerOf(user);
    var none: map<Name, Data> := map[];
    assert none.Keys == {};
    ReachesSecrets(none, user);
    IterateAdd(Some(Recorded(none)), Run(REQUEST, Looking), a, 7, 3);
    var one := none[Postgres := SecretData(Postgres, u, a.draws)];
    var two := one[Storage := SecretData(Storage, u, a.draws)];
    var three := two[RabbitMq := RabbitData(u)];
    Creates(none, Postgres, user, 0);
    Creates(one, Storage, user, 1);
    Creates(two, RabbitMq, user, 2);
    IterateStep(Some(Recorded(none)), Run(REQUEST, CreatingSecrets({}, u, 0)), a, 3);
    IterateStep(Some(Recorded(one)), Run(REQUEST, CreatingSecrets({}, u, 1)), a, 2);
    IterateStep(Some(Recorded(two)), Run(REQUEST, CreatingSecrets({}, u, 2)), a, 1);
    IterateStep(Some(Recorded(three)), Run(REQUEST, CreatingSecrets({}, u, 3)), a, 0);
    BrokerData(u, a.draws);
  }

  lemma Creates(secrets: map<Name, Data>, name: Name, user: string, next: nat)
    requires next < 3 && name == [Postgres, Storage, RabbitMq][next] && name !in secrets
    ensures var u, a := Credentials(user, user), AnswerOf(user);
      Advance(Some(Recorded(secrets)), Run(REQUEST, CreatingSecrets({}, u, next)), a)
      == After(Some(Recorded(secrets[name := SecretData(name, u, a.draws)])),
               Some(Run(REQUEST, CreatingSecrets({}, u, next + 1))))
  {
    hide NatText, Advance, SecretData;
    CreateCommand(Recorded(secrets), REQUEST, AnswerOf(user), {}, Credentials(user, user), next);
  }

  /** A run that finds the first two Secrets creates the broker Secret. */
  lemma SkipsTwo(p: Data, s: Data, user: string)
    ensures var secrets := map[Postgres := p, Storage := s];
      Iterate(Some(Recorded(secrets)), Run(REQUEST, Looking), AnswerOf(user), 10)
      == After(Some(Recorded(secrets[RabbitMq := RabbitData(Credentials(user, user))])),
               Some(Run(REQUEST, CreatingSecrets({Postgres, Storage}, Credentials(user, user), 3))))
  {
    hide NatText, Iterate, RabbitData;
    var u, a := Credentials(user, user), AnswerOf(user);
    var secrets := map[Postgres := p, Storage := s];
    var c := Some(Recorded(secrets));
    assert secrets.Keys == {Postgres, Storage};
    ReachesSecrets(secrets, user);
    IterateAdd(c, Run(REQUEST, Looking), a, 7, 3);
    IterateStep(c, Run(REQUEST, CreatingSecrets({Postgres, Storage}, u, 0)), a, 3);
    IterateStep(c, Run(REQUEST, CreatingSecrets({Postgres, Storage}, u, 1)), a, 2);
    IterateStep(c, Run(REQUEST, CreatingSecrets({Postgres, Storage}, u, 2)), a, 1);
    IterateStep(Some(Recorded(secrets[RabbitMq := RabbitData(u)])), Run(REQUEST, CreatingSecrets({Postgres, Storage}, u, 3)), a, 0);
  }

  const ONE := Credentials("one", "one")
  const TWO := Credentials("two", "two")

  /** The Secrets before the broker's, as run 1 creates them. */
  function Before(): map<Name, Data> {
    map[Postgres := SecretData(Postgres, ONE, AnswerOf("one").draws),
        Storage := SecretData(Storage, ONE, AnswerOf("one").draws)]
  }

  function FirstRun(): Run { Run(REQUEST, CreatingSecrets({}, ONE, 3)) }

  function SecondRun(): Run { Run(REQUEST, CreatingSecrets({Postgres, Storage}, TWO, 3)) }

  function Empty(): World { World(Some(Recorded(map[])), map[]) }

  /** Run 1 has created the broker Secret. */
  function Created(): World { World(Some(Recorded(Before()[RabbitMq := RabbitData(ONE)])), map[1 := FirstRun()]) }

  /** The Secret is deleted and run 2 begins. */
  function Deleted(): World { World(Some(Recorded(Before())), map[1 := FirstRun(), 2 := Run(REQUEST, Looking)]) }

  /** Run 2 has created a broker Secret with its own user. */
  function Recreated(): World {
    World(Some(Recorded(Before()[RabbitMq := RabbitData(TWO)])), map[1 := FirstRun(), 2 := SecondRun()])
  }

  lemma ToCreated()
    ensures Trace(Trace(Empty(), [Begin(1, REQUEST)]), Commands(1, AnswerOf("one"), 10)) == Created()
  {
    hide Iterate, Commands, NatText, RabbitData, Trace, Advance;
    TraceOne(Empty(), Begin(1, REQUEST));
    FirstSecrets("one");
    var w := World(Some(Recorded(map[])), map[1 := Run(REQUEST, Looking)]);
    assert Perform(Empty(), Begin(1, REQUEST)) == w;
    CommandsIterate(w, 1, AnswerOf("one"), 10);
  }

  lemma ToDeleted()
    ensures Trace(Created(), [DeleteSecret(RabbitMq), Begin(2, REQUEST)]) == Deleted()
  {
    hide NatText, RabbitData, Trace;
    TraceTwo(Created(), DeleteSecret(RabbitMq), Begin(2, REQUEST));
    assert Before()[RabbitMq := RabbitData(ONE)] - {RabbitMq} == Before();
  }

  lemma ToRecreated()
    ensures Trace(Deleted(), Commands(2, AnswerOf("two"), 10)) == Recreated()
  {
    hide Iterate, Commands, NatText, RabbitData, Trace, Advance, SecretData;
    SkipsTwo(Before()[Postgres], Before()[Storage], "two");
    CommandsIterate(Deleted(), 2, AnswerOf("two"), 10);
  }

  lemma ToMixed()
    ensures Trace(Recreated(), Commands(1, AnswerOf("one"), 1)).cluster
         == Some(Recorded(Before()[RabbitMq := RabbitData(TWO)][KedaRabbitMq := KedaData(ONE)]))
  {
    hide Iterate, Commands, NatText, RabbitData, KedaData, Trace;
    CommandsIterate(Recreated(), 1, AnswerOf("one"), 1);
    IterateStep(Recreated().cluster, FirstRun(), AnswerOf("one"), 1);
    IterateStep(Some(Recorded(Before()[RabbitMq := RabbitData(TWO)][KedaRabbitMq := KedaData(ONE)])),
               FirstRun().(phase := CreatingSecrets({}, ONE, 4)), AnswerOf("one"), 0);
  }

  /** Overlapping runs with a deletion keep no such promise: from a sound cluster
      the two broker Secrets end up with different users. */
  lemma OverlapWithDeletionBreaks()
    ensures Sound(Empty().cluster)
    ensures var end := Trace(Empty(), OverlapWithDeletion()).cluster;
      end.Some? && !BrokersAgree(end.value)
  {
    hide Commands, NatText, RabbitData, KedaData, RabbitUser, KedaUser, Trace, Before, Created, Deleted, Recreated;
    ToCreated();
    ToDeleted();
    ToRecreated();
    ToMixed();
    Chain(Empty(), [Begin(1, REQUEST)], Commands(1, AnswerOf("one"), 10), [DeleteSecret(RabbitMq), Begin(2, REQUEST)],
          Commands(2, AnswerOf("two"), 10), Commands(1, AnswerOf("one"), 1));
    NamesAreAlphanumeric();
    SecretUsers(ONE);
    SecretUsers(TWO);
  }

  lemma NamesAreAlphanumeric()
    ensures Alphanumeric(Credentials("one", "one")) && Alphanumeric(Credentials("two", "two"))
  {
  }

  lemma TraceOne(w: World, e: Event)
    ensures Trace(w, [e]) == Perform(w, e)
  {
    assert [e][..0] == [];
  }

  lemma TraceTwo(w: World, e: Event, f: Event)
    ensures Trace(w, [e, f]) == Perform(Perform(w, e), f)
  {
    assert [e, f][..1] == [e];
    TraceOne(w, e);
  }

  lemma Chain(w: World, a: seq<Event>, b: seq<Event>, c: seq<Event>, d: seq<Event>, e: seq<Event>)
    ensures Trace(w, a + b + c + d + e) == Trace(Trace(Trace(Trace(Trace(w, a), b), c), d), e)
  {
    TraceAppend(w, a + b + c + d, e);
    TraceAppend(w, a + b + c, d);
    TraceAppend(w, a + b, c);
    TraceAppend(w, a, b);
  }

  /** A down in the middle of a run: run 1 is about to record its ports when the
      cluster is replaced by one with other ports. */
  function DownDuringRun(): seq<Event> {
    var a := AnswerOf("one");
    [Begin(1, REQUEST), Command(1, a), Command(1, a), Command(1, a), Down,
     Begin(2, OTHER), Command(2, a), Command(2, a), Command(1, a)]
  }

  const OTHER := Request(Ports(3002, 9001), false)

  /** The world when run 1 is about to record its ports. */
  function BeforeDown(): World {
    World(Some(Cluster(PORTS, None, map[])), map[1 := Run(REQUEST, Recording)])
  }

  lemma ToDown()
    ensures Trace(World(None, map[]), DownDuringRun()) == Trace(BeforeDown(), DownDuringRun()[4..])
  {
    hide NatText, Trace, HostMapData;
    var e := DownDuringRun();
    var w0 := World(None, map[]);
    var w1 := World(None, map[1 := Run(REQUEST, Looking)]);
    var w2 := World(None, map[1 := Run(REQUEST, CreatingCluster)]);
    var w3 := World(Some(Cluster(PORTS, None, map[])), map[1 := Run(REQUEST, Namespacing)]);
    assert e[0..] == e;
    TraceAt(w0, e, 0, w1);
    TraceAt(w1, e, 1, w2);
    TraceAt(w2, e, 2, w3);
    TraceAt(w3, e, 3, BeforeDown());
  }

  lemma FromDown()
    ensures Trace(BeforeDown(), DownDuringRun()[4..]).cluster
         == Some(Cluster(OTHER.ports, Some(HostMapData(PORTS)), map[]))
  {
    hide NatText, Trace, HostMapData;
    var e := DownDuringRun();
    var w5 := World(None, map[1 := Run(REQUEST, Recording)]);
    var w6 := World(None, map[1 := Run(REQUEST, Recording), 2 := Run(OTHER, Looking)]);
    var w7 := World(None, map[1 := Run(REQUEST, Recording), 2 := Run(OTHER, CreatingCluster)]);
    var w8 := World(Some(Cluster(OTHER.ports, None, map[])), map[1 := Run(REQUEST, Recording), 2 := Run(OTHER, Namespacing)]);
    var w9 := World(Some(Cluster(OTHER.ports, Some(HostMapData(PORTS)), map[])),
                    map[1 := Run(REQUEST, Listing), 2 := Run(OTHER, Namespacing)]);
    assert e[9..] == [];
    TraceAt(BeforeDown(), e, 4, w5);
    TraceAt(w5, e, 5, w6);
    TraceAt(w6, e, 6, w7);
    TraceAt(w7, e, 7, w8);
    TraceAt(w8, e, 8, w9);
    TraceNothing(w9);
  }

  /** A down in the middle of a run breaks the promise about the recorded ports. */
  lemma DownDuringRunBreaks()
    ensures var end := Trace(World(None, map[]), DownDuringRun()).cluster;
      end.Some? && !MapMatches(end.value)
  {
    hide NatText, Trace, HostMapData, DownDuringRun, BeforeDown;
    ToDown();
    FromDown();
    PortsDiffer();
  }

  lemma TraceAt(w: World, events: seq<Event>, k: nat, next: World)
    requires k < |events| && Perform(w, events[k]) == next
    ensures Trace(w, events[k..]) == Trace(next, events[k + 1..])
  {
    hide Perform;
    assert events[k..] == [events[k]] + events[k + 1..];
    TraceFrom(w, events[k], events[k + 1..]);
  }

  lemma TraceNothing(w: World)
    ensures Trace(w, []) == w
  {
  }

  lemma PortsDiffer()
    ensures HostMapData(PORTS) != HostMapData(Ports(3002, 9001))
  {
    hide NatText;
    if HostMapData(PORTS) == HostMapData(Ports(3002, 9001)) {
      NatTextInjective(3001, 3002);
    }
  }

  lemma TraceFrom(w: World, e: Event, rest: seq<Event>)
    ensures Trace(w, [e] + rest) == Trace(Perform(w, e), rest)
  {
    TraceAppend(w, [e], rest);
    TraceOne(w, e);
  }
}
