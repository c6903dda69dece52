/** Restarts of Unbound: whether the live table is the wanted one when the daemon comes to
    rest in RUNNING. A restarted Unbound holds what its file lists, while the update that
    follows is a difference against the ledger, which may be older or newer than the file. */
module Restart {
  import opened ServerTypes
  import opened DomainIndex
  import opened Unbound
  import opened CertificateAuthority
  import opened ResolvConf
  import opened Intake
  import opened Daemon
  import opened DaemonRuns
  import opened InForce

  ghost predicate LedgerNonEmpty(c: Context) {
    NonEmptyLists(LedgerOf(c))
  }

  /** A table from which the next update reaches its target. */
  ghost predicate Usable(c: Context, t: Table) {
    && c.index.Some? && NonEmptyLists(c.index.value) && LedgerNonEmpty(c)
    && (t == CommandTable(Target(c)) || t == CommandTable(LedgerOf(c)))
  }

  ghost predicate MatchesLedger(c: Context, t: Table) {
    LedgerNonEmpty(c) && t == CommandTable(LedgerOf(c))
  }

  /** Where the tables stand before event e is handled. */
  ghost predicate TablesFit(s: System, e: Event) {
    match s.ctx.state
    case ConfiguringDnsManager => e == Success ==> Usable(s.ctx, s.world.file)
    case SubmittingStartJob => Usable(s.ctx, s.world.file)
    case WaitingForStartJob =>
      && (e == UpdateEvent ==> MatchesLedger(s.ctx, s.world.file))
      && (e != UpdateEvent ==> Usable(s.ctx, s.world.file))
      && (e == JobSuccess ==> s.world.live == s.world.file)
    case SettingResolvConf => e == Success ==> Usable(s.ctx, s.world.live)
    case UpdatingDnsManager => e == Success ==> MatchesLedger(s.ctx, s.world.live)
    case Running => MatchesLedger(s.ctx, s.world.live)
    case _ => true
  }

  /** Priorities do not overflow, so file and commands mean the same. */
  ghost predicate SpansFit(s: System, e: Event) {
    && DomainSpansFit(s.config.staticServers + s.ctx.dynamicServers)
    && (e == UpdateEvent ==> DomainSpansFit(s.config.staticServers + s.ctx.pending))
  }

  lemma KickoffTables(s: System, env: Env)
    requires ValidEnv(env) && DomainSpansFit(s.config.staticServers + s.ctx.dynamicServers)
    requires LedgerNonEmpty(s.ctx)
    ensures var r := Enter(StartingKickoff(s, env), ConfiguringDnsManager);
      TablesFit(r.sys, r.event) && SpansFit(r.sys, r.event)
  {
    KickoffEffect(s, env);
    FileAndCommandAgree(s.config.staticServers + s.ctx.dynamicServers, s.ctx.mode);
  }

  lemma SetResolvConfTables(s: System, env: Env)
    requires ValidEnv(env) && Usable(s.ctx, s.world.live)
    requires DomainSpansFit(s.config.staticServers + s.ctx.dynamicServers)
    ensures var r := Enter(SetResolvConf(s, env), SettingResolvConf);
      TablesFit(r.sys, r.event) && SpansFit(r.sys, r.event)
  {
    SetResolvConfEffect(s, env);
  }

  /** A successful update leaves the live table at its target if it starts from a usable one. */
  lemma UpdateReachesTarget(s: System, env: Env)
    requires ValidEnv(env) && Configured(s.ctx) && Usable(s.ctx, s.world.live)
    requires UpdateDnsManager(s, env).event == Success
    ensures UpdateDnsManager(s, env).sys.world.live == CommandTable(Target(s.ctx))
  {
    var view, ledger := Target(s.ctx), LedgerOf(s.ctx);
    var adds, removes := env.viewOrder(view.Keys), env.ledgerOrder(ledger.Keys);
    ExecutedPrefix(s.world.live, Plan(view, ledger, adds, removes), env.fates, 0);
    IncrementalRefinesRebuild(s.world.live, view, ledger, adds, removes);
  }

  /** An update repeated with nothing changed sends no command: it succeeds and changes
      nothing, even if every command sent would fail. */
  lemma RepeatedUpdateChangesNothing(s: System, env: Env)
    requires ValidEnv(env) && Configured(s.ctx) && NonEmptyLists(s.ctx.index.value)
    requires s.ctx.ledger == Some(Target(s.ctx)) && s.ctx.current == s.ctx.requested
    requires EffectiveCa(Target(s.ctx), env.viewOrder(Target(s.ctx).Keys), s.ctx.mode, s.config.caPaths, env.readableLater)
          == s.ctx.effectiveCa
    ensures UpdateDnsManager(s, env) == Acted(s, Success)
  {
    var view := Target(s.ctx);
    UpdateIsIdempotent(view, env.viewOrder(view.Keys), env.ledgerOrder(view.Keys));
  }

  lemma SettingTables(s: System, e: Event, env: Env)
    requires ValidEnv(env) && s.ctx.state == SettingResolvConf && Safe(s.ctx, e) && Accepts(SettingResolvConf, e)
    requires TablesFit(s, e) && SpansFit(s, e)
    ensures var r := FromSettingResolvConf(s, e, env); TablesFit(r.sys, r.event) && SpansFit(r.sys, r.event)
  {
    if e == Success {
      UpdateDnsManagerEffect(s, env);
      if UpdateDnsManager(s, env).event == Success {
        UpdateReachesTarget(s, env);
      }
    }
  }

  lemma StartingTables(s: System, e: Event, env: Env)
    requires ValidEnv(env) && s.ctx.state == Starting && Safe(s.ctx, e) && Accepts(Starting, e)
    requires TablesFit(s, e) && SpansFit(s, e)
    ensures var r := FromStarting(s, e, env); TablesFit(r.sys, r.event) && SpansFit(r.sys, r.event)
  {
    if e == Kickoff {
      KickoffTables(s, env);
    }
  }

  lemma WaitingTables(s: System, e: Event, env: Env)
    requires ValidEnv(env) && s.ctx.state == WaitingForStartJob && Safe(s.ctx, e) && Accepts(WaitingForStartJob, e)
    requires TablesFit(s, e) && SpansFit(s, e)
    ensures var r := FromWaitingForStartJob(s, e, env); TablesFit(r.sys, r.event) && SpansFit(r.sys, r.event)
  {
    if e == JobSuccess {
      SetResolvConfTables(s, env);
    } else if e == Reload {
      KickoffTables(s, env);
    } else if e == UpdateEvent {
      UpdatedIndexIsSafe(s);
    }
  }

  lemma UpdatingTables(s: System, e: Event, env: Env)
    requires ValidEnv(env) && s.ctx.state == UpdatingDnsManager && Safe(s.ctx, e) && Accepts(UpdatingDnsManager, e)
    requires TablesFit(s, e) && SpansFit(s, e)
    ensures var r := FromUpdatingDnsManager(s, e, env); TablesFit(r.sys, r.event) && SpansFit(r.sys, r.event)
  {
    if e == Reload {
      KickoffTables(s, env);
    }
  }

  lemma RunningTables(s: System, e: Event, env: Env)
    requires ValidEnv(env) && s.ctx.state == Running && Safe(s.ctx, e) && Accepts(Running, e)
    requires TablesFit(s, e) && SpansFit(s, e)
    ensures var r := FromRunning(s, e, env); TablesFit(r.sys, r.event) && SpansFit(r.sys, r.event)
  {
    if e == UpdateEvent {
      UpdatedIndexIsSafe(s);
      SetResolvConfTables(AcceptUpdate(s), env);
    } else if e == Reload {
      KickoffTables(s, env);
    }
  }

  lemma StartStatesTables(s: System, e: Event, env: Env)
    requires TowardsStart(s.ctx.state) && Safe(s.ctx, e) && Accepts(s.ctx.state, e)
    requires TablesFit(s, e) && SpansFit(s, e)
    ensures var r := FromStartStates(s, e, env); TablesFit(r.sys, r.event) && SpansFit(r.sys, r.event)
  {
  }

  lemma EndStatesTables(s: System, e: Event, env: Env)
    requires OnTheWayOut(s.ctx.state) && Safe(s.ctx, e) && Accepts(s.ctx.state, e)
    requires SpansFit(s, e)
    ensures var r := FromEndStates(s, e, env); TablesFit(r.sys, r.event) && SpansFit(r.sys, r.event)
  {
  }

  lemma StepTables(s: System, e: Event, env: Env)
    requires ValidEnv(env) && Safe(s.ctx, e) && Accepts(s.ctx.state, e)
    requires TablesFit(s, e) && SpansFit(s, e)
    ensures var r := Step(s, e, env); TablesFit(r.sys, r.event) && SpansFit(r.sys, r.event)
  {
    match s.ctx.state
    case Starting => StartingTables(s, e, env);
    case WaitingForStartJob => WaitingTables(s, e, env);
    case SettingResolvConf => SettingTables(s, e, env);
    case UpdatingDnsManager => UpdatingTables(s, e, env);
    case Running => RunningTables(s, e, env);
    case ConfiguringDnsManager | SubmittingStartJob => StartStatesTables(s, e, env);
    case _ => EndStatesTables(s, e, env);
  }

  lemma {:induction false} TransitionTables(s: System, e: Event, env: Env)
    requires ValidEnv(env) && Safe(s.ctx, e) && Accepts(s.ctx.state, e)
    requires TablesFit(s, e) && SpansFit(s, e)
    ensures TablesFit(Transition(s, e, env).sys, NoEvent) && SpansFit(Transition(s, e, env).sys, NoEvent)
    decreases Depth(s.ctx.state)
  {
    StepFollows(s, e, env);
    StepTables(s, e, env);
    var r := Step(s, e, env);
    if r.event != NoEvent {
      TransitionTables(r.sys, r.event, env);
    }
  }

  // ----- Runs

  ghost predicate InStep(s: System) {
    TablesFit(s, NoEvent) && SpansFit(s, NoEvent)
  }

  /** What a stimulus must respect. The environment: "ready" is only reported after Unbound
      has read the file, and a running Unbound does not reread it by itself. The clients:
      priorities that do not overflow; and while a start job is awaited, an update only if
      the file still lists what the ledger holds. */
  ghost predicate Honest(s: System, st: Stimulus) {
    match st.input
    case UpdateCall(call, wireless) =>
      Judge(call, wireless).Accepted? ==>
        && DomainSpansFit(s.config.staticServers + Judge(call, wireless).servers)
        && (s.ctx.state == WaitingForStartJob ==> MatchesLedger(s.ctx, s.world.file))
    case StatusChanged(content, loaded) =>
      && (s.ctx.state == WaitingForStartJob && JobEvent(s.ctx.expected, content) == JobSuccess ==> loaded)
      && (s.ctx.state == Running ==> !loaded)
    case _ => true
  }

  lemma {:induction false} DeliverTables(s: System, e: Event, env: Env)
    requires ValidEnv(env) && Resting(s) && TablesFit(s, e) && SpansFit(s, e)
    requires !Accepts(s.ctx.state, e) ==> InStep(s)
    ensures InStep(Deliver(s, e, env)) && InStep(Transition(s, e, env).sys)
  {
    LoopTerminates(s, e, env);
    if Accepts(s.ctx.state, e) {
      TransitionTables(s, e, env);
    }
  }

  lemma UpdateTables(s: System, st: Stimulus)
    requires ValidEnv(st.env) && Resting(s) && InStep(s) && Honest(s, st) && st.input.UpdateCall?
    ensures InStep(React(s, st))
  {
    var verdict := Judge(st.input.call, st.input.wireless);
    if verdict.Accepted? {
      var t := HandOver(s, verdict.servers, ModeOf(st.input.call.mode));
      assert TablesFit(t, UpdateEvent);
      DeliverTables(t, UpdateEvent, st.env);
    }
  }

  lemma StatusTables(s: System, st: Stimulus)
    requires ValidEnv(st.env) && Resting(s) && InStep(s) && Honest(s, st) && st.input.StatusChanged?
    ensures InStep(React(s, st))
  {
    var t := LoadFile(s, st.input.loaded);
    var e := JobEvent(t.ctx.expected, st.input.content);
    assert TablesFit(t, e) && InStep(t);
    DeliverTables(t, e, st.env);
  }

  lemma ReactTables(s: System, st: Stimulus)
    requires ValidEnv(st.env) && Resting(s) && InStep(s) && Honest(s, st)
    ensures InStep(React(s, st))
  {
    match st.input
    case UpdateCall(_, _) => UpdateTables(s, st);
    case StatusChanged(_, _) => StatusTables(s, st);
    case ReloadCall => DeliverTables(s, Reload, st.env);
    case Terminate => DeliverTables(s, Stop, st.env);
    case NameAcquired => DeliverTables(s, Kickoff, st.env);
    case NameLost =>
  }

  ghost predicate HonestRun(s: System, h: History)
    requires ValidHistory(h) && Resting(s)
    decreases |h|
  {
    h != [] ==>
      && Honest(s, h[0])
      && (ReactRests(s, h[0]); HonestRun(React(s, h[0]), h[1..]))
  }

  lemma {:induction false} RunTables(s: System, h: History)
    requires ValidHistory(h) && Resting(s) && InStep(s) && HonestRun(s, h)
    ensures InStep(Run(s, h))
    decreases |h|
  {
    if h != [] {
      ReactTables(s, h[0]);
      ReactRests(s, h[0]);
      RunTables(React(s, h[0]), h[1..]);
    }
  }

  /** In every such run, whenever the daemon rests in RUNNING, Unbound's live table is exactly
      the one that the static servers, the last accepted call and its mode call for. */
  lemma {:induction false} LiveTableIsRight(config: Config, world: World, h: History)
    requires world.control == [] && DomainSpansFit(config.staticServers)
    requires ValidHistory(h) && HonestRun(Init(config, world), h)
    requires Run(Init(config, world), h).ctx.state == Running
    ensures var all := config.staticServers + ServersInForce(h);
      && DomainSpansFit(all)
      && NonEmptyLists(BuildIndex(all))
      && Run(Init(config, world), h).world.live == CommandTable(UsedView(BuildIndex(all), ModeInForce(h)))
  {
    assert config.staticServers + [] == config.staticServers;
    RunTables(Init(config, world), h);
    RunningIsConsistent(config, world, h);
    LastCallIsInForce(config, world, h);
    ConfigIsFixed(Init(config, world), h);
  }

  lemma ZoneOfTheServing(servers: seq<Server>, mode: Mode, d: string, f: Forwarder)
    requires DomainSpansFit(servers) && NonEmptyLists(BuildIndex(servers))
    ensures var table := CommandTable(UsedView(BuildIndex(servers), mode));
      if exists s :: Serves(servers, mode, d, s)
      then d in table && (f in table[d].forwarders <==> exists s :: Serves(servers, mode, d, s) && Describes(f, s))
      else if d == "." then d in table && table[d] == Zone([Forwarder(V4([127, 0, 0, 1]), None, None)], false)
      else d !in table
  {
    var view := UsedView(BuildIndex(servers), mode);
    TablesDescribeServers(view);
    if s :| Serves(servers, mode, d, s) {
      UsedExactly(servers, mode, d, s);
      ServingForwarders(servers, mode, d, f);
      ForwarderIff(CommandTable(view)[d], view[d], f);
    } else if d in view {
      UsedExactly(servers, mode, d, view[d][0]);
    }
  }

  lemma ServingForwarders(servers: seq<Server>, mode: Mode, d: string, f: Forwarder)
    requires DomainSpansFit(servers) && NonEmptyLists(BuildIndex(servers)) && d in UsedView(BuildIndex(servers), mode)
    ensures (exists s :: s in UsedView(BuildIndex(servers), mode)[d] && Describes(f, s))
       <==> (exists s :: Serves(servers, mode, d, s) && Describes(f, s))
  {
    var view := UsedView(BuildIndex(servers), mode);
    if s :| s in view[d] && Describes(f, s) {
      UsedExactly(servers, mode, d, s);
    }
    if s :| Serves(servers, mode, d, s) && Describes(f, s) {
      UsedExactly(servers, mode, d, s);
    }
  }

  /** From the calls to the wire: in every such run, at rest in RUNNING, Unbound forwards a
      domain to exactly the servers that are configured or were last announced, name it, are
      unbeaten among those that do, and are allowed by the mode, each with its port and TLS
      name; without any, it does not forward the domain, and sends the root to the loopback
      address. */
  lemma {:induction false} ForwardsToTheServing(config: Config, world: World, h: History, d: string, f: Forwarder)
    requires world.control == [] && DomainSpansFit(config.staticServers)
    requires ValidHistory(h) && HonestRun(Init(config, world), h)
    requires Run(Init(config, world), h).ctx.state == Running
    ensures var live, all, mode := Run(Init(config, world), h).world.live, config.staticServers + ServersInForce(h), ModeInForce(h);
      if exists s :: Serves(all, mode, d, s)
      then d in live && (f in live[d].forwarders <==> exists s :: Serves(all, mode, d, s) && Describes(f, s))
      else if d == "." then d in live && live[d] == Zone([Forwarder(V4([127, 0, 0, 1]), None, None)], false)
      else d !in live
  {
    LiveTableIsRight(config, world, h);
    ZoneOfTheServing(config.staticServers + ServersInForce(h), ModeInForce(h), d, f);
  }

  // ----- The exact condition at one restart

  /** When "ready" leads to RUNNING, the live table is the wanted one if and only if the file
      that was loaded is right wherever ledger and target agree. */
  lemma {:induction false} RestartReachesTargetIff(s: System, env: Env)
    requires ValidEnv(env) && Resting(s) && s.ctx.state == WaitingForStartJob
    requires s.world.live == s.world.file
    requires Transition(s, JobSuccess, env).sys.ctx.state == Running
    ensures var t := Transition(s, JobSuccess, env).sys;
      && t.ctx.ledger == Some(Target(s.ctx))
      && (t.world.live == CommandTable(Target(s.ctx)) <==>
            forall d :: LeftAlone(Target(s.ctx), LedgerOf(s.ctx), d) ==>
              Lookup(s.world.file, d) == Lookup(CommandTable(Target(s.ctx)), d))
  {
    var u := ReadyToUpdate(s, env);
    UpdateDnsManagerEffect(u, env);
    var view, ledger := Target(s.ctx), LedgerOf(s.ctx);
    var adds, removes := env.viewOrder(view.Keys), env.ledgerOrder(ledger.Keys);
    ExecutedPrefix(u.world.live, Plan(view, ledger, adds, removes), env.fates, 0);
    PlanReachesTargetIff(u.world.live, view, ledger, adds, removes);
  }

  /** The way from WAITING_FOR_START_JOB to RUNNING leads through one successful update of a
      system that differs only in resolv.conf and its backup. */
  lemma ReadyToUpdate(s: System, env: Env) returns (u: System)
    requires ValidEnv(env) && Resting(s) && s.ctx.state == WaitingForStartJob
    requires Transition(s, JobSuccess, env).sys.ctx.state == Running
    ensures u.ctx == s.ctx.(state := SettingResolvConf, backup := u.ctx.backup)
    ensures u.world == s.world.(resolv := u.world.resolv) && u.config == s.config
    ensures UpdateDnsManager(u, env).event == Success
    ensures Transition(s, JobSuccess, env).sys == Goto(UpdateDnsManager(u, env).sys, Running)
  {
    OnePass(s, JobSuccess, env);
    SetResolvConfEffect(s, env);
    var r := Enter(SetResolvConf(s, env), SettingResolvConf);
    u := r.sys;
    if r.event == Failure {
      FailedSettingEnds(u, env);
    } else {
      UpdateRuns(u, env);
    }
  }

  lemma {:induction false} UpdateRuns(u: System, env: Env)
    requires ValidEnv(env) && u.ctx.state == SettingResolvConf && Safe(u.ctx, Success)
    requires Transition(u, Success, env).sys.ctx.state == Running
    ensures UpdateDnsManager(u, env).event == Success
    ensures Transition(u, Success, env).sys == Goto(UpdateDnsManager(u, env).sys, Running)
  {
    OnePass(u, Success, env);
    UpdateDnsManagerEffect(u, env);
    var q := Enter(UpdateDnsManager(u, env), UpdatingDnsManager);
    if q.event != Success {
      UnfinishedUpdateDoesNotRun(q.sys, q.event, env);
    } else {
      OnePass(q.sys, Success, env);
    }
  }

  lemma {:induction false} FailedSettingEnds(u: System, env: Env)
    requires ValidEnv(env) && u.ctx.state == SettingResolvConf && Safe(u.ctx, Failure)
    ensures Ending(Transition(u, Failure, env).sys.ctx.state)
  {
    OnePass(u, Failure, env);
    var r := Step(u, Failure, env);
    WayOutTransition(r.sys, r.event, env);
  }

  lemma {:induction false} UnfinishedUpdateDoesNotRun(q: System, e: Event, env: Env)
    requires ValidEnv(env) && q.ctx.state == UpdatingDnsManager && Safe(q.ctx, e) && e in {Failure, Reload}
    ensures Transition(q, e, env).sys.ctx.state in {WaitingForStartJob, WaitingStopJob, Stopping}
    ensures e == Failure ==> Ending(Transition(q, e, env).sys.ctx.state)
  {
    OnePass(q, e, env);
    var r := Step(q, e, env);
    if e == Failure {
      WayOutTransition(r.sys, r.event, env);
    } else {
      StartFromConfiguring(r.sys, r.event, env);
    }
  }
}
