/** The run that shows why an update must not come while a start job is awaited: a server
    that is withdrawn during the first start is still in Unbound's live table when the daemon
    rests in RUNNING with an empty ledger, and stays there until the next restart. */
module StaleZone {
  import opened ServerTypes
  import opened DomainIndex
  import opened Unbound
  import opened CertificateAuthority
  import opened ResolvConf
  import opened Intake
  import opened Daemon
  import opened DaemonRuns

  /** Every action succeeds. */
  ghost predicate AllGoesWell(env: Env) {
    && ValidEnv(env)
    && env.subscribed && env.conf.ConfWritten? && env.start.Submitted?
    && env.backupRead && env.resolv.Written? && env.revert.Written? && env.stop.Submitted?
    && (forall p :: env.readable(p) && env.readableLater(p))
    && (forall n: nat :: env.fates(n) == Succeeds)
  }

  /** An ordinary server for one domain, without a CA of its own. */
  ghost predicate Ordinary(a: Server, d: string) {
    && a.port != 0 && a.interface == "" && a.ca == None
    && a.routingDomains == [d] && a.networks == [] && d != ROOT
  }

  predicate NoWireless(interface: string) {
    false
  }

  // ----- Its index and view

  lemma SingleServerView(a: Server, d: string)
    requires Ordinary(a, d)
    ensures NonEmptyLists(BuildIndex([a])) && BuildIndex([a]).Keys == {d} && BuildIndex([a])[d] == [a]
    ensures UsedView(BuildIndex([a]), Backup) == map[d := [a]]
  {
    IndexNonEmpty([a]);
    assert [a][1..] == [] && [d][1..] == [];
    assert CountDomain([d], d) == 1;
    assert Repeat(a, 1) == [a];
    assert Naming([a], d) == [a];
    assert AllDomains([a]) == {d};
    assert Scan([a], a, Backup, d) == [a];
    assert Reversed([a]) == [a];
    assert UsedServers([a], Backup, d) == [a];
  }

  lemma NoServerView()
    ensures BuildIndex([]) == map[] && UsedView(BuildIndex([]), Backup) == map[]
  {
  }

  lemma {:induction false} NoCandidate(a: Server, d: string, order: seq<string>)
    requires Ordinary(a, d) && forall x :: x in order ==> x == d
    ensures ScanTable(map[d := [a]], order, Backup, None) == None
    decreases |order|
  {
    if order != [] {
      assert order[0] in order;
      assert [a][1..] == [];
      assert ScanList([a], Backup, d, None) == None;
      assert forall x :: x in order[1..] ==> x in order;
      NoCandidate(a, d, order[1..]);
    }
  }

  // ----- The four steps of the run

  /** An accepted call, in the states that only take note of it. */
  lemma NotedUpdate(s: System, call: Call, servers: seq<Server>, env: Env)
    requires ValidEnv(env) && Resting(s) && s.ctx.state in {Starting, WaitingForStartJob}
    requires call.mode == 0 && Judge(call, NoWireless) == Accepted(servers)
    ensures React(s, Stimulus(UpdateCall(call, NoWireless), env)) == AcceptUpdate(HandOver(s, servers, Backup))
  {
    var t := HandOver(s, servers, Backup);
    OnePass(t, UpdateEvent, env);
    LoopTerminates(t, UpdateEvent, env);
  }

  /** No server of the index carries a CA of its own. */
  ghost predicate NoOwnCa(s: System, env: Env)
    requires ValidEnv(env)
  {
    var index := BuildIndex(s.config.staticServers + s.ctx.dynamicServers);
    ScanTable(index, env.indexOrder(index.Keys), s.ctx.mode, None) == None
  }

  lemma KickoffSucceeds(s: System, env: Env, ca: string)
    requires AllGoesWell(env) && s.config.caPaths == [ca] && NoOwnCa(s, env)
    ensures var r := StartingKickoff(s, env); r.event == Success && r.sys.ctx.effectiveCa == Some(ca)
  {
    IndexNonEmpty(s.config.staticServers + s.ctx.dynamicServers);
  }

  lemma {:induction false} ConfiguredWaits(q: System, env: Env)
    requires ValidEnv(env) && env.start.Submitted? && q.ctx.state == ConfiguringDnsManager && Safe(q.ctx, Success)
    ensures var t := Transition(q, Success, env).sys;
      && t.config == q.config
      && t.ctx == q.ctx.(state := WaitingForStartJob, expected := Some("ready"))
      && t.world == q.world.(control := t.world.control)
  {
    OnePass(q, Success, env);
    var r := Enter(SubmitStart(q, env), SubmittingStartJob);
    OnePass(r.sys, Success, env);
  }

  ghost predicate WaitsAfter(s: System, t: System, ca: string) {
    && t.config == s.config
    && t.ctx == UpdateContext(s.config, s.ctx).(state := WaitingForStartJob, effectiveCa := Some(ca), expected := Some("ready"))
    && NonEmptyLists(t.ctx.index.value)
    && t.world.file == FileTable(Target(t.ctx))
    && t.world == s.world.(file := t.world.file, control := t.world.control)
  }

  /** A start with which all goes well ends waiting, with the target's table in the file. */
  lemma StartWaits(s: System, e: Event, env: Env, ca: string)
    requires AllGoesWell(env) && Resting(s) && s.config.caPaths == [ca] && NoOwnCa(s, env)
    requires (s.ctx.state == Starting && e == Kickoff) || (s.ctx.state == Running && e == Reload)
    ensures WaitsAfter(s, Deliver(s, e, env), ca)
  {
    LoopTerminates(s, e, env);
    OnePass(s, e, env);
    KickoffEffect(s, env);
    KickoffSucceeds(s, env, ca);
    ConfiguredWaits(Enter(StartingKickoff(s, env), ConfiguringDnsManager).sys, env);
  }

  lemma KickoffWaits(s: System, st: Stimulus, ca: string)
    requires AllGoesWell(st.env) && Resting(s) && s.config.caPaths == [ca] && NoOwnCa(s, st.env)
    requires s.ctx.state == Starting && st.input == NameAcquired
    ensures WaitsAfter(s, React(s, st), ca)
  {
    StartWaits(s, Kickoff, st.env, ca);
  }

  /** With nothing to serve and nothing in the ledger, "ready" changes nothing in Unbound. */
  lemma ReadyRuns(s: System, env: Env, ca: string)
    requires AllGoesWell(env) && Resting(s) && s.ctx.state == WaitingForStartJob
    requires s.config.caPaths == [ca] && s.ctx.effectiveCa == Some(ca) && s.ctx.expected == Some("ready")
    requires s.ctx.index == Some(map[]) && s.ctx.ledger == None
    ensures var t := React(s, Stimulus(StatusChanged("ready", true), env));
      && t.config == s.config && t.world.resolv.Generated? && t.world.live == s.world.file
      && t.ctx == s.ctx.(state := Running, backup := t.ctx.backup, ledger := Some(map[]), current := s.ctx.requested)
  {
    var l := LoadFile(s, true);
    OnePass(l, JobSuccess, env);
    SetResolvConfEffect(l, env);
    var u := Enter(SetResolvConf(l, env), SettingResolvConf);
    assert u.event == Success && u.sys.world.resolv.Generated?;
    EmptyUpdateRuns(u.sys, env, ca);
  }

  lemma {:induction false} EmptyUpdateRuns(u: System, env: Env, ca: string)
    requires AllGoesWell(env) && u.ctx.state == SettingResolvConf && Safe(u.ctx, Success)
    requires u.ctx.effectiveCa == Some(ca) && u.config.caPaths == [ca]
    requires u.ctx.index == Some(map[]) && u.ctx.ledger == None
    ensures Transition(u, Success, env).sys
         == u.(ctx := u.ctx.(state := Running, ledger := Some(map[]), current := u.ctx.requested))
  {
    OnePass(u, Success, env);
    EmptyUpdate(u, env, ca);
    var q := Enter(UpdateDnsManager(u, env), UpdatingDnsManager);
    OnePass(q.sys, Success, env);
  }

  lemma EmptyUpdate(u: System, env: Env, ca: string)
    requires AllGoesWell(env) && Configured(u.ctx) && u.ctx.effectiveCa == Some(ca) && u.config.caPaths == [ca]
    requires u.ctx.index == Some(map[]) && u.ctx.ledger == None
    ensures UpdateDnsManager(u, env)
         == Acted(u.(ctx := u.ctx.(ledger := Some(map[]), current := u.ctx.requested)), Success)
  {
    var none: View := map[];
    assert Target(u.ctx) == none && LedgerOf(u.ctx) == none;
    assert env.viewOrder(none.Keys) == [] && env.ledgerOrder(none.Keys) == [] by {
      EmptyOrder(env.viewOrder(none.Keys));
      EmptyOrder(env.ledgerOrder(none.Keys));
    }
    assert Plan(none, none, [], []) == [];
    AllSucceed(u.world.live, [], env.fates, 0);
  }

  lemma EmptyOrder(q: seq<string>)
    requires Enumerates(q, {})
    ensures q == []
  {
    if q != [] {
      HeadIsIn(q);
    }
  }

  lemma HeadIsIn(q: seq<string>)
    requires q != []
    ensures q[0] in q
  {
  }

  /** The server is announced, and the daemon starts. */
  ghost function Announced(a: Server, env: Env): History {
    [Stimulus(UpdateCall(Call([Parsed(a)], 0), NoWireless), env), Stimulus(NameAcquired, env)]
  }

  /** The server is withdrawn, and Unbound has started. */
  ghost function Withdrawn(env: Env): History {
    [Stimulus(UpdateCall(Call([], 0), NoWireless), env), Stimulus(StatusChanged("ready", true), env)]
  }

  lemma OwnVerdict(a: Server, d: string)
    requires Ordinary(a, d)
    ensures Judge(Call([Parsed(a)], 0), NoWireless) == Accepted([a])
    ensures Judge(Call([], 0), NoWireless) == Accepted([])
  {
    assert Finished(a, NoWireless) == a;
    var one: seq<Entry> := [Parsed(a)];
    var none: seq<Server> := [];
    assert one[1..] == [] && none + [a] == [a];
    assert !Conflicts(a, none);
    assert Filter(one, none, NoWireless) == Filter([], [a], NoWireless);
  }

  lemma FirstNote(s: System, env: Env, a: Server, d: string, ca: string)
    requires AllGoesWell(env) && Ordinary(a, d) && Resting(s)
    requires s == Init(Config([], [ca], s.config.resolverOptions, s.config.listenAddress), s.world)
    ensures var u := React(s, Announced(a, env)[0]);
      && Resting(u) && u.ctx.state == Starting && u.config == s.config
      && u.ctx.dynamicServers == [a] && u.ctx.mode == Backup && u.ctx.ledger == None
  {
    OwnVerdict(a, d);
    NotedUpdate(s, Call([Parsed(a)], 0), [a], env);
    ReactRests(s, Announced(a, env)[0]);
  }

  lemma OrdinaryHasNoOwnCa(u: System, env: Env, a: Server, d: string)
    requires ValidEnv(env) && Ordinary(a, d)
    requires u.config.staticServers + u.ctx.dynamicServers == [a] && u.ctx.mode == Backup
    ensures NoOwnCa(u, env)
  {
    SingleServerView(a, d);
    var index := BuildIndex([a]);
    assert index == map[d := [a]];
    NoCandidate(a, d, env.indexOrder(index.Keys));
  }

  lemma OrdinaryIsListed(u: System, t: System, a: Server, d: string, ca: string)
    requires Ordinary(a, d) && WaitsAfter(u, t, ca)
    requires u.config.staticServers + u.ctx.dynamicServers == [a] && u.ctx.mode == Backup
    ensures d in t.world.file
  {
    SingleServerView(a, d);
    assert Target(t.ctx) == map[d := [a]];
  }

  lemma FirstStart(u: System, st: Stimulus, a: Server, d: string, ca: string)
    requires AllGoesWell(st.env) && Ordinary(a, d) && Resting(u) && u.ctx.state == Starting && st.input == NameAcquired
    requires u.config.staticServers == [] && u.config.caPaths == [ca]
    requires u.ctx.dynamicServers == [a] && u.ctx.mode == Backup && u.ctx.ledger == None
    ensures WaitsAfter(u, React(u, st), ca) && d in React(u, st).world.file
  {
    assert u.config.staticServers + u.ctx.dynamicServers == [a];
    OrdinaryHasNoOwnCa(u, st.env, a, d);
    KickoffWaits(u, st, ca);
    OrdinaryIsListed(u, React(u, st), a, d, ca);
  }

  lemma {:induction false} AnnouncedIsInTheFile(s: System, env: Env, a: Server, d: string, ca: string)
    requires AllGoesWell(env) && Ordinary(a, d) && Resting(s)
    requires s == Init(Config([], [ca], s.config.resolverOptions, s.config.listenAddress), s.world)
    ensures var t := Run(s, Announced(a, env));
      && Resting(t) && t.ctx.state == WaitingForStartJob && t.config == s.config
      && t.ctx.effectiveCa == Some(ca) && t.ctx.expected == Some("ready") && t.ctx.ledger == None
      && d in t.world.file
  {
    RunOfTwo(s, Announced(a, env));
    FirstNote(s, env, a, d, ca);
    FirstStart(React(s, Announced(a, env)[0]), Announced(a, env)[1], a, d, ca);
  }

  lemma {:induction false} WithdrawnLeavesTheFile(t: System, env: Env, ca: string)
    requires AllGoesWell(env) && Resting(t) && t.ctx.state == WaitingForStartJob
    requires t.config.staticServers == [] && t.config.caPaths == [ca]
    requires t.ctx.effectiveCa == Some(ca) && t.ctx.expected == Some("ready") && t.ctx.ledger == None
    ensures var v := Run(t, Withdrawn(env));
      v.ctx.state == Running && v.ctx.ledger == Some(map[]) && v.world.live == t.world.file
  {
    var h := Withdrawn(env);
    RunOfTwo(t, h);
    NotedUpdate(t, Call([], 0), [], env);
    var u := React(t, h[0]);
    NoServerView();
    assert t.config.staticServers + [] == [];
    ReadyRuns(u, env, ca);
  }

  /** However ordinary the server: announced before the start, withdrawn during it, its zone
      is still live when the daemon rests in RUNNING, although no server is configured. */
  lemma {:induction false} WithdrawnServerStaysLive(s: System, env: Env, a: Server, d: string, ca: string)
    requires AllGoesWell(env) && Ordinary(a, d) && Resting(s)
    requires s == Init(Config([], [ca], s.config.resolverOptions, s.config.listenAddress), s.world)
    ensures var t := Run(s, Announced(a, env) + Withdrawn(env));
      && t.ctx.state == Running
      && t.ctx.ledger == Some(map[])
      && d in t.world.live
      && t.world.live != CommandTable(map[])
  {
    AnnouncedIsInTheFile(s, env, a, d, ca);
    WithdrawnLeavesTheFile(Run(s, Announced(a, env)), env, ca);
    RunInTwoParts(s, Announced(a, env), Withdrawn(env));
  }
}
