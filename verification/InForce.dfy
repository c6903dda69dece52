/** What is in force when the daemon rests in RUNNING: the servers and the mode of the last
    accepted call, and a resolv.conf that points at the daemon and lists what they search. */
module InForce {
  import opened ServerTypes
  import opened DomainIndex
  import opened Unbound
  import opened ResolvConf
  import opened Intake
  import opened Daemon
  import opened DaemonRuns

  // ----- The last accepted call

  function LastAccepted(h: History): (last: Option<Stimulus>)
    ensures last.Some? ==> AcceptedUpdate(last.value)
  {
    if h == [] then None
    else if AcceptedUpdate(h[|h| - 1]) then Some(h[|h| - 1])
    else LastAccepted(h[..|h| - 1])
  }

  /** The servers of the last accepted call; none if there was no call. */
  function ServersInForce(h: History): seq<Server> {
    match LastAccepted(h)
    case None => []
    case Some(st) => HandedOver(st)
  }

  /** The mode of the last accepted call, by its number on the bus; backup if there was none. */
  function ModeInForce(h: History): Mode {
    match LastAccepted(h)
    case None => Backup
    case Some(st) =>
      if st.input.call.mode == 0 then Backup else if st.input.call.mode == 1 then Prefer else Exclusive
  }

  predicate TakesUpdates(state: State) {
    state in {Starting, WaitingForStartJob, Running}
  }

  lemma StepServers(s: System, e: Event, env: Env)
    requires ValidEnv(env) && Safe(s.ctx, e) && Accepts(s.ctx.state, e)
    ensures var r := Step(s, e, env);
      && r.event != UpdateEvent && r.sys.ctx.mode == s.ctx.mode
      && r.sys.ctx.dynamicServers
         == if e == UpdateEvent && TakesUpdates(s.ctx.state) then s.ctx.pending else s.ctx.dynamicServers
  {
    if s.ctx.state in {Starting, WaitingForStartJob, UpdatingDnsManager, Running} && e in {Kickoff, Reload} {
      KickoffEffect(s, env);
    } else if s.ctx.state == WaitingForStartJob && e == JobSuccess {
      SetResolvConfEffect(s, env);
    } else if s.ctx.state == Running && e == UpdateEvent {
      UpdatedIndexIsSafe(s);
      SetResolvConfEffect(AcceptUpdate(s), env);
    } else if s.ctx.state == SettingResolvConf && e == Success {
      UpdateDnsManagerEffect(s, env);
    }
  }

  lemma {:induction false} TransitionServers(s: System, e: Event, env: Env)
    requires ValidEnv(env) && Safe(s.ctx, e)
    ensures var t := Transition(s, e, env).sys.ctx;
      && t.mode == s.ctx.mode
      && t.dynamicServers
         == if e == UpdateEvent && TakesUpdates(s.ctx.state) then s.ctx.pending else s.ctx.dynamicServers
    decreases Depth(s.ctx.state)
  {
    if Accepts(s.ctx.state, e) {
      OnePass(s, e, env);
      StepServers(s, e, env);
      var r := Step(s, e, env);
      if r.event != NoEvent {
        TransitionServers(r.sys, r.event, env);
      }
    }
  }

  lemma UpdateServers(s: System, st: Stimulus)
    requires ValidEnv(st.env) && Resting(s) && AcceptedUpdate(st) && TakesUpdates(s.ctx.state)
    ensures var t := HandleUpdate(s, st.input.call, st.input.wireless, st.env).sys.ctx;
      t.dynamicServers == HandedOver(st) && t.mode == ModeOf(st.input.call.mode)
  {
    TransitionServers(HandOver(s, HandedOver(st), ModeOf(st.input.call.mode)), UpdateEvent, st.env);
  }

  lemma ReactServers(s: System, st: Stimulus)
    requires ValidEnv(st.env) && Resting(s) && TakesUpdates(s.ctx.state)
    ensures var t := React(s, st).ctx;
      if AcceptedUpdate(st) then t.dynamicServers == HandedOver(st) && t.mode == ModeOf(st.input.call.mode)
      else t.dynamicServers == s.ctx.dynamicServers && t.mode == s.ctx.mode
  {
    match st.input
    case UpdateCall(_, _) =>
      if AcceptedUpdate(st) {
        UpdateServers(s, st);
      }
    case ReloadCall => TransitionServers(s, Reload, st.env);
    case StatusChanged(content, loaded) =>
      TransitionServers(LoadFile(s, loaded), JobEvent(s.ctx.expected, content), st.env);
    case Terminate => TransitionServers(s, Stop, st.env);
    case NameAcquired => TransitionServers(s, Kickoff, st.env);
    case NameLost =>
  }

  /** In every run, until the daemon stops, servers and mode are those of the last accepted
      call, however many starts, reloads and refused calls came after it. */
  lemma {:induction false} LastCallIsInForce(config: Config, world: World, h: History)
    requires ValidHistory(h)
    ensures var c := Run(Init(config, world), h).ctx;
      !Ending(c.state) ==> c.dynamicServers == ServersInForce(h) && c.mode == ModeInForce(h)
    decreases |h|
  {
    if h != [] {
      var front, st := h[..|h| - 1], h[|h| - 1];
      LastCallIsInForce(config, world, front);
      RunSnoc(Init(config, world), h);
      var s := Run(Init(config, world), front);
      if Ending(s.ctx.state) {
        EndingReact(s, st);
      } else {
        ReactServers(s, st);
      }
    }
  }

  // ----- The generated resolv.conf

  /** Some server in use has x among its search domains. */
  ghost predicate Searched(view: View, x: string) {
    exists d, s :: d in view && s in view[d] && x in s.searchDomains
  }

  /** The file sends programs to the daemon, with the configured options, and searches exactly
      the search domains of the servers in use, each once. */
  ghost predicate Presents(contents: Contents, config: Config, view: View) {
    && contents.Generated?
    && contents.nameserver == config.listenAddress && contents.options == config.resolverOptions
    && Distinct(contents.search) && forall x :: x in contents.search <==> Searched(view, x)
  }

  ghost predicate FileFits(s: System, e: Event) {
    (s.ctx.state in {SettingResolvConf, UpdatingDnsManager} && e == Success) || (s.ctx.state == Running && e != UpdateEvent) ==>
      && s.ctx.index.Some? && NonEmptyLists(s.ctx.index.value)
      && Presents(s.world.resolv, s.config, Target(s.ctx))
  }

  lemma {:induction false} SearchLinePresents(index: Index, order: seq<string>, mode: Mode, config: Config)
    requires NonEmptyLists(index) && Enumerates(order, index.Keys)
    ensures Presents(Generated(SearchLine(index, order, mode, []), config.resolverOptions, config.listenAddress), config, UsedView(index, mode))
  {
    var line := SearchLine(index, order, mode, []);
    forall x
      ensures Distinct(line) && (x in line <==> Searched(UsedView(index, mode), x))
    {
      SearchLineIsExact(index, order, mode, x);
    }
    SearchLineIsExact(index, order, mode, "");
  }

  lemma SetResolvConfPresents(s: System, env: Env)
    requires ValidEnv(env) && s.ctx.index.Some? && NonEmptyLists(s.ctx.index.value)
    ensures var r := Enter(SetResolvConf(s, env), SettingResolvConf); FileFits(r.sys, r.event)
  {
    SetResolvConfEffect(s, env);
    var index := s.ctx.index.value;
    SearchLinePresents(index, env.searchOrder(index.Keys), s.ctx.mode, s.config);
  }

  lemma StepFile(s: System, e: Event, env: Env)
    requires ValidEnv(env) && Safe(s.ctx, e) && Accepts(s.ctx.state, e) && FileFits(s, e)
    ensures var r := Step(s, e, env); FileFits(r.sys, r.event)
  {
    if s.ctx.state == WaitingForStartJob && e == JobSuccess {
      SetResolvConfPresents(s, env);
    } else if s.ctx.state == Running && e == UpdateEvent {
      UpdatedIndexIsSafe(s);
      SetResolvConfPresents(AcceptUpdate(s), env);
    } else if s.ctx.state == SettingResolvConf && e == Success {
      UpdateDnsManagerEffect(s, env);
    }
  }

  lemma {:induction false} TransitionFile(s: System, e: Event, env: Env)
    requires ValidEnv(env) && Safe(s.ctx, e) && Accepts(s.ctx.state, e) && FileFits(s, e)
    ensures FileFits(Transition(s, e, env).sys, NoEvent)
    decreases Depth(s.ctx.state)
  {
    OnePass(s, e, env);
    StepFile(s, e, env);
    var r := Step(s, e, env);
    if r.event != NoEvent {
      TransitionFile(r.sys, r.event, env);
    }
  }

  lemma {:induction false} DeliverFile(s: System, e: Event, env: Env)
    requires ValidEnv(env) && Resting(s) && FileFits(s, e) && (s.ctx.state == Running && e == UpdateEvent ==> Accepts(Running, e))
    ensures FileFits(Deliver(s, e, env), NoEvent) && FileFits(Transition(s, e, env).sys, NoEvent)
  {
    LoopTerminates(s, e, env);
    if Accepts(s.ctx.state, e) {
      TransitionFile(s, e, env);
    }
  }

  lemma UpdateFile(s: System, st: Stimulus)
    requires ValidEnv(st.env) && Resting(s) && FileFits(s, NoEvent) && AcceptedUpdate(st)
    ensures FileFits(HandleUpdate(s, st.input.call, st.input.wireless, st.env).sys, NoEvent)
  {
    DeliverFile(HandOver(s, HandedOver(st), ModeOf(st.input.call.mode)), UpdateEvent, st.env);
  }

  lemma ReactFile(s: System, st: Stimulus)
    requires ValidEnv(st.env) && Resting(s) && FileFits(s, NoEvent)
    ensures FileFits(React(s, st), NoEvent)
  {
    match st.input
    case UpdateCall(_, _) =>
      if AcceptedUpdate(st) {
        UpdateFile(s, st);
      }
    case ReloadCall => DeliverFile(s, Reload, st.env);
    case StatusChanged(content, loaded) =>
      DeliverFile(LoadFile(s, loaded), JobEvent(s.ctx.expected, content), st.env);
    case Terminate => DeliverFile(s, Stop, st.env);
    case NameAcquired => DeliverFile(s, Kickoff, st.env);
    case NameLost =>
  }

  lemma {:induction false} RunFile(s: System, h: History)
    requires ValidHistory(h) && Resting(s) && FileFits(s, NoEvent)
    ensures FileFits(Run(s, h), NoEvent)
    decreases |h|
  {
    if h != [] {
      RunStep(s, h);
      ReactFile(s, h[0]);
      RunFile(React(s, h[0]), h[1..]);
    }
  }

  // ----- At rest in RUNNING

  /** Whenever the daemon rests in RUNNING, whatever happened before: the server list is the
      static one plus that of the last accepted call, whose mode is in force; the index is that
      list's index, the ledger is what the index and the mode call for, nothing is pending, the
      serials agree and are not zero; resolv.conf presents the servers in use, and the original
      is in hand. */
  lemma {:induction false} RunningIsConsistent(config: Config, world: World, h: History)
    requires world.control == [] && ValidHistory(h)
    requires Run(Init(config, world), h).ctx.state == Running
    ensures var s := Run(Init(config, world), h);
      var all, c := config.staticServers + ServersInForce(h), s.ctx;
      && NonEmptyLists(BuildIndex(all))
      && c.allServers == all && c.mode == ModeInForce(h)
      && c.index == Some(BuildIndex(all))
      && c.ledger == Some(UsedView(BuildIndex(all), ModeInForce(h)))
      && c.pending == []
      && c.current == c.requested && IsSerial(c.requested)
      && Presents(s.world.resolv, config, UsedView(BuildIndex(all), ModeInForce(h)))
      && c.backup == Some(world.resolv)
      && c.expected == Some("ready")
  {
    InitInv(config, world);
    RunKeeps(Init(config, world), h, world.resolv);
    ConfigIsFixed(Init(config, world), h);
    LastCallIsInForce(config, world, h);
    RunFile(Init(config, world), h);
  }
}
