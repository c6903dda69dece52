/** The daemon's state machine: its context, the world it acts on, and one event's worth of
    transitions. What the environment decides (which action fails and how, hash orders,
    readable files) is an `Env` given for each event; every action runs at most once per
    event, so one outcome for each is enough. */
module Daemon {
  import opened ServerTypes
  import opened DomainIndex
  import opened Unbound
  import opened CertificateAuthority
  import opened ResolvConf

  datatype State =
    | Starting
    | ConfiguringDnsManager
    | SubmittingStartJob
    | WaitingForStartJob
    | SettingResolvConf
    | UpdatingDnsManager
    | Running
    | RevertingResolvConf
    | SubmittingStopJob
    | WaitingStopJob
    | Stopping

  datatype Event =
    | NoEvent | UpdateEvent | Kickoff | Success | Failure | Reload | JobSuccess | JobFailure | Stop

  const EXIT_SERVICE_FAILURE := 8
  const EXIT_DBUS_FAILURE := 9
  const EXIT_RESOLV_CONF_FAILURE := 10
  const EXIT_UPDATE_FAILURE := 16
  const EXIT_FSM_FAILURE := 17

  datatype Config = Config(
    staticServers: seq<Server>,
    caPaths: seq<string>,
    resolverOptions: Option<string>,
    listenAddress: Address)

  /** The C context. An absent list is empty, an absent table or string is `None`. */
  datatype Context = Context(
    state: State,
    dynamicServers: seq<Server>,
    pending: seq<Server>,
    allServers: seq<Server>,
    index: Option<Index>,
    ledger: Option<View>,
    backup: Option<Contents>,
    effectiveCa: Option<string>,
    exitCode: nat,
    requested: nat,
    current: nat,
    mode: Mode,
    expected: Option<string>)

  /** What lies outside the process: Unbound's live table, its configuration file,
      resolv.conf, the commands written to the control file, the main loop. */
  datatype World = World(
    live: Table,
    file: Table,
    resolv: Contents,
    control: seq<string>,
    quit: bool)

  datatype System = System(config: Config, ctx: Context, world: World)

  // ----- Outcomes

  /** Writing a file: a failure after opening it leaves something else behind. */
  datatype ResolvFate = OpenFails | WriteFails(left: Contents) | Written

  /** Writing Unbound's configuration can fail before or after the CA is replaced. */
  datatype ConfFate = ConfOpenFails | FailsBeforeCa(left: Table) | FailsAfterCa(left: Table) | ConfWritten

  /** Submitting a job writes the status file, then the control file. */
  datatype JobFate = StatusFails | ControlFails | Submitted

  datatype Env = Env(
    subscribed: bool,
    conf: ConfFate,
    readable: string -> bool,
    indexOrder: HashOrder,
    start: JobFate,
    backupRead: bool,
    resolv: ResolvFate,
    searchOrder: HashOrder,
    readableLater: string -> bool,
    viewOrder: HashOrder,
    ledgerOrder: HashOrder,
    fates: Fates,
    revert: ResolvFate,
    stop: JobFate)

  ghost predicate ValidEnv(env: Env) {
    && IsHashOrder(env.indexOrder)
    && IsHashOrder(env.searchOrder)
    && IsHashOrder(env.viewOrder)
    && IsHashOrder(env.ledgerOrder)
  }

  // ----- What an event finds in place

  /** Nothing that the handling of event e in this state relies on is absent, and no list it
      takes the head of is empty. */
  ghost predicate Safe(c: Context, e: Event) {
    && (c.index.Some? ==> NonEmptyLists(c.index.value))
    && (c.ledger.Some? ==> NonEmptyLists(c.ledger.value))
    && (c.state == ConfiguringDnsManager && e == Success ==> Configured(c))
    && (c.state in {SubmittingStartJob, WaitingForStartJob, UpdatingDnsManager, Running} ==> Configured(c))
    && (c.state == SettingResolvConf && e == Success ==> Configured(c) && c.backup.Some?)
    && (c.state in {UpdatingDnsManager, Running, RevertingResolvConf} ==> c.backup.Some?)
  }

  predicate Configured(c: Context) {
    c.index.Some? && c.effectiveCa.Some?
  }

  function LedgerOf(c: Context): View {
    if c.ledger.Some? then c.ledger.value else map[]
  }

  /** The servers to be used, by domain. */
  function Target(c: Context): View
    requires c.index.Some? && NonEmptyLists(c.index.value)
  {
    UsedView(c.index.value, c.mode)
  }

  // ----- Actions

  function SetDynamicServers(c: Context): Context {
    c.(dynamicServers := c.pending, pending := [])
  }

  /** An unsigned 32-bit increment that skips zero. */
  function NextSerial(n: nat): nat {
    var zero := if (n + 1) % 0x1_0000_0000 == 0 then 1 else 0;
    (n + 1 + zero) % 0x1_0000_0000
  }

  function UpdateContext(config: Config, c: Context): Context {
    var all := config.staticServers + c.dynamicServers;
    c.(allServers := all, index := Some(BuildIndex(all)), requested := NextSerial(c.requested))
  }

  datatype Acted = Acted(sys: System, event: Event)

  function WriteConfiguration(s: System, env: Env): (r: Acted)
    requires ValidEnv(env)
    requires s.ctx.index.Some? && NonEmptyLists(s.ctx.index.value)
  {
    var index := s.ctx.index.value;
    if env.conf.ConfOpenFails? then Acted(s, Failure)
    else if env.conf.FailsBeforeCa? then Acted(s.(world := s.world.(file := env.conf.left)), Failure)
    else
      var ca := EffectiveCa(index, env.indexOrder(index.Keys), s.ctx.mode, s.config.caPaths, env.readable);
      if ca.None? then Acted(s.(world := s.world.(file := map[])), Failure)
      else
        var t := s.(ctx := s.ctx.(effectiveCa := ca));
        if env.conf.FailsAfterCa? then Acted(t.(world := t.world.(file := env.conf.left)), Failure)
        else Acted(t.(world := t.world.(file := FileTable(Target(s.ctx)))), Success)
  }

  function StartingKickoff(s: System, env: Env): Acted
    requires ValidEnv(env)
  {
    var t := s.(ctx := UpdateContext(s.config, s.ctx));
    if !env.subscribed then Acted(t, Failure)
    else
      IndexNonEmpty(t.ctx.allServers);
      WriteConfiguration(t, env)
  }

  function SetServiceStatus(s: System, expected: string, command: string, fate: JobFate): Acted {
    var t := s.(ctx := s.ctx.(expected := Some(expected)));
    if fate.StatusFails? then Acted(t, Failure)
    else Acted(t.(world := t.world.(control := t.world.control + [command])),
               if fate.Submitted? then Success else Failure)
  }

  function SubmitStart(s: System, env: Env): Acted {
    SetServiceStatus(s, "ready", "restart", env.start)
  }

  function SubmitStop(s: System, env: Env): Acted {
    SetServiceStatus(s, "stopped", "stop", env.stop)
  }

  function SetResolvConf(s: System, env: Env): Acted
    requires ValidEnv(env)
    requires s.ctx.index.Some? && NonEmptyLists(s.ctx.index.value)
  {
    if s.ctx.backup.None? && !env.backupRead then Acted(s, Failure)
    else
      var backup := if s.ctx.backup.None? then Some(s.world.resolv) else s.ctx.backup;
      var t := s.(ctx := s.ctx.(backup := backup));
      match env.resolv
      case OpenFails => Acted(t, Failure)
      case WriteFails(left) => Acted(t.(world := t.world.(resolv := left)), Failure)
      case Written =>
        var index := s.ctx.index.value;
        var search := SearchLine(index, env.searchOrder(index.Keys), s.ctx.mode, []);
        var contents := Generated(search, s.config.resolverOptions, s.config.listenAddress);
        Acted(t.(world := t.world.(resolv := contents)), Success)
  }

  /** Compute the new view; ask for a reload if it needs another CA; else send the
      difference against the ledger and, if all of it went through, remember the view. */
  function UpdateDnsManager(s: System, env: Env): Acted
    requires ValidEnv(env)
    requires Configured(s.ctx) && NonEmptyLists(s.ctx.index.value)
  {
    var view, ledger := Target(s.ctx), LedgerOf(s.ctx);
    var adds, removes := env.viewOrder(view.Keys), env.ledgerOrder(ledger.Keys);
    var ca := EffectiveCa(view, adds, s.ctx.mode, s.config.caPaths, env.readableLater);
    if ca.None? then Acted(s, Failure)
    else if ca != s.ctx.effectiveCa then Acted(s, Reload)
    else
      var r := Execute(s.world.live, Plan(view, ledger, adds, removes), env.fates, 0);
      var t := s.(world := s.world.(live := r.live));
      if !r.ok then Acted(t, Failure)
      else Acted(t.(ctx := t.ctx.(ledger := Some(view), current := t.ctx.requested)), Success)
  }

  function RevertResolvConf(s: System, env: Env): Acted
    requires s.ctx.backup.Some?
  {
    match env.revert
    case OpenFails => Acted(s, Failure)
    case WriteFails(left) => Acted(s.(world := s.world.(resolv := left)), Failure)
    case Written => Acted(s.(world := s.world.(resolv := s.ctx.backup.value)), Success)
  }

  function SetExitCode(s: System, code: nat): System {
    if s.ctx.exitCode == 0 then s.(ctx := s.ctx.(exitCode := code)) else s
  }

  function Goto(s: System, state: State): System {
    s.(ctx := s.ctx.(state := state))
  }

  function Enter(r: Acted, state: State): Acted {
    Acted(Goto(r.sys, state), r.event)
  }

  // ----- One pass of the loop

  predicate Accepts(state: State, e: Event) {
    match state
    case Starting => e in {UpdateEvent, Kickoff, Reload, Stop}
    case ConfiguringDnsManager => e in {Success, Failure}
    case SubmittingStartJob => e in {Success, Failure}
    case WaitingForStartJob => e in {JobSuccess, JobFailure, UpdateEvent, Reload, Stop}
    case SettingResolvConf => e in {Success, Failure}
    case UpdatingDnsManager => e in {Success, Failure, Reload}
    case Running => e in {UpdateEvent, Reload, Stop}
    case RevertingResolvConf => e in {Success, Failure}
    case SubmittingStopJob => e in {Success, Failure}
    case WaitingStopJob => e in {JobSuccess, JobFailure, UpdateEvent, Reload, Stop}
    case Stopping => e == Stop
  }

  function AcceptUpdate(s: System): System {
    s.(ctx := UpdateContext(s.config, SetDynamicServers(s.ctx)))
  }

  lemma UpdatedIndexIsSafe(s: System)
    ensures NonEmptyLists(AcceptUpdate(s).ctx.index.value)
  {
    IndexNonEmpty(AcceptUpdate(s).ctx.allServers);
  }

  function FromStarting(s: System, e: Event, env: Env): Acted
    requires ValidEnv(env)
  {
    if e == UpdateEvent then Acted(AcceptUpdate(s), NoEvent)
    else if e == Kickoff then Enter(StartingKickoff(s, env), ConfiguringDnsManager)
    else if e == Reload then Acted(s, NoEvent)
    else Acted(Goto(s, Stopping), Stop)
  }

  function FromWaitingForStartJob(s: System, e: Event, env: Env): Acted
    requires ValidEnv(env) && s.ctx.index.Some? && NonEmptyLists(s.ctx.index.value)
  {
    if e == JobSuccess then Enter(SetResolvConf(s, env), SettingResolvConf)
    else if e == JobFailure then Acted(Goto(SetExitCode(s, EXIT_SERVICE_FAILURE), Stopping), Stop)
    else if e == UpdateEvent then Acted(AcceptUpdate(s), NoEvent)
    else if e == Reload then Enter(StartingKickoff(s, env), ConfiguringDnsManager)
    else Enter(SubmitStop(s, env), SubmittingStopJob)
  }

  function FromSettingResolvConf(s: System, e: Event, env: Env): Acted
    requires ValidEnv(env)
    requires e == Success ==> Configured(s.ctx) && NonEmptyLists(s.ctx.index.value)
  {
    if e == Success then Enter(UpdateDnsManager(s, env), UpdatingDnsManager)
    else Enter(SubmitStop(SetExitCode(s, EXIT_RESOLV_CONF_FAILURE), env), SubmittingStopJob)
  }

  function FromUpdatingDnsManager(s: System, e: Event, env: Env): Acted
    requires ValidEnv(env) && s.ctx.backup.Some?
  {
    if e == Success then Acted(Goto(s, Running), NoEvent)
    else if e == Failure then
      Enter(RevertResolvConf(SetExitCode(s, EXIT_UPDATE_FAILURE), env), RevertingResolvConf)
    else Enter(StartingKickoff(s, env), ConfiguringDnsManager)
  }

  function FromRunning(s: System, e: Event, env: Env): Acted
    requires ValidEnv(env) && s.ctx.backup.Some?
  {
    if e == UpdateEvent then
      UpdatedIndexIsSafe(s);
      Enter(SetResolvConf(AcceptUpdate(s), env), SettingResolvConf)
    else if e == Reload then Enter(StartingKickoff(s, env), ConfiguringDnsManager)
    else Enter(RevertResolvConf(s, env), RevertingResolvConf)
  }

  function FromStartStates(s: System, e: Event, env: Env): Acted {
    if e == Failure then Acted(Goto(s, Stopping), Stop)
    else if s.ctx.state == ConfiguringDnsManager then Enter(SubmitStart(s, env), SubmittingStartJob)
    else Acted(Goto(s, WaitingForStartJob), NoEvent)
  }

  function FromEndStates(s: System, e: Event, env: Env): Acted {
    match s.ctx.state
    case RevertingResolvConf => Enter(SubmitStop(s, env), SubmittingStopJob)
    case SubmittingStopJob =>
      if e == Success then Acted(Goto(s, WaitingStopJob), NoEvent)
      else Acted(Goto(s, Stopping), Stop)
    case WaitingStopJob =>
      if e == JobSuccess || e == JobFailure then Acted(Goto(s, Stopping), Stop)
      else Acted(s, NoEvent)
    case _ => Acted(s.(world := s.world.(quit := true)), NoEvent)
  }

  function Step(s: System, e: Event, env: Env): Acted
    requires ValidEnv(env) && Safe(s.ctx, e) && Accepts(s.ctx.state, e)
  {
    match s.ctx.state
    case Starting => FromStarting(s, e, env)
    case ConfiguringDnsManager | SubmittingStartJob => FromStartStates(s, e, env)
    case WaitingForStartJob => FromWaitingForStartJob(s, e, env)
    case SettingResolvConf => FromSettingResolvConf(s, e, env)
    case UpdatingDnsManager => FromUpdatingDnsManager(s, e, env)
    case Running => FromRunning(s, e, env)
    case RevertingResolvConf | SubmittingStopJob | WaitingStopJob | Stopping => FromEndStates(s, e, env)
  }

  /** How many passes the loop can still make. */
  function Depth(state: State): (n: nat)
    ensures 1 <= n <= 6
  {
    match state
    case Starting => 4
    case ConfiguringDnsManager => 3
    case SubmittingStartJob => 2
    case WaitingForStartJob => 6
    case SettingResolvConf => 5
    case UpdatingDnsManager => 4
    case Running => 6
    case RevertingResolvConf => 3
    case SubmittingStopJob => 2
    case WaitingStopJob => 2
    case Stopping => 1
  }

  predicate AtRest(state: State) {
    state in {Starting, WaitingForStartJob, Running, WaitingStopJob, Stopping}
  }

  /** What one pass guarantees about the next: its event is accepted by the state it lands
      in, which is closer to the end and safe; without an event it is a state of rest. */
  ghost predicate Follows(before: State, r: Acted) {
    && Safe(r.sys.ctx, r.event)
    && if r.event == NoEvent then AtRest(r.sys.ctx.state)
       else Accepts(r.sys.ctx.state, r.event) && Depth(r.sys.ctx.state) < Depth(before)
  }

  lemma KickoffEffect(s: System, env: Env)
    requires ValidEnv(env)
    ensures var r := StartingKickoff(s, env);
      && r.event in {Success, Failure}
      && r.sys.config == s.config
      && r.sys.ctx == UpdateContext(s.config, s.ctx).(effectiveCa := r.sys.ctx.effectiveCa)
      && r.sys.world == s.world.(file := r.sys.world.file)
      && NonEmptyLists(r.sys.ctx.index.value)
      && (r.event == Success ==> r.sys.ctx.effectiveCa.Some? && r.sys.world.file == FileTable(Target(r.sys.ctx)))
  {
    IndexNonEmpty(UpdateContext(s.config, s.ctx).allServers);
  }

  /** A kickoff depends on the servers and the mode alone. */
  lemma SameKickoff(s: System, t: System, env: Env)
    requires ValidEnv(env) && s.config == t.config
    requires s.ctx.dynamicServers == t.ctx.dynamicServers && s.ctx.mode == t.ctx.mode
    ensures StartingKickoff(s, env).event == StartingKickoff(t, env).event
  {
  }

  lemma SetResolvConfEffect(s: System, env: Env)
    requires ValidEnv(env)
    requires s.ctx.index.Some? && NonEmptyLists(s.ctx.index.value)
    ensures var r := SetResolvConf(s, env);
      && r.event in {Success, Failure}
      && r.sys == s.(ctx := s.ctx.(backup := r.sys.ctx.backup), world := s.world.(resolv := r.sys.world.resolv))
      && (s.ctx.backup.Some? ==> r.sys.ctx.backup == s.ctx.backup)
      && (s.ctx.backup.None? ==>
            || r.sys.ctx.backup == Some(s.world.resolv)
            || (r.sys.ctx.backup == None && r.sys.world.resolv == s.world.resolv))
      && (r.event == Success ==> r.sys.ctx.backup.Some?)
  {
  }

  lemma UpdateDnsManagerEffect(s: System, env: Env)
    requires ValidEnv(env)
    requires Configured(s.ctx) && NonEmptyLists(s.ctx.index.value)
    ensures var r := UpdateDnsManager(s, env);
      && r.event in {Success, Failure, Reload}
      && (r.event == Reload ==> r.sys == s)
      && (r.event == Failure ==> r.sys == s.(world := s.world.(live := r.sys.world.live)))
      && (r.event == Success ==>
            r.sys == s.(ctx := s.ctx.(ledger := Some(Target(s.ctx)), current := s.ctx.requested),
                        world := s.world.(live := r.sys.world.live)))
  {
  }

  lemma KickoffFollows(s: System, env: Env)
    requires ValidEnv(env) && (s.ctx.ledger.Some? ==> NonEmptyLists(s.ctx.ledger.value))
    requires Depth(s.ctx.state) > 3
    ensures Follows(s.ctx.state, Enter(StartingKickoff(s, env), ConfiguringDnsManager))
  {
    KickoffEffect(s, env);
  }

  lemma SetResolvConfFollows(s: System, env: Env, before: State)
    requires ValidEnv(env) && Configured(s.ctx) && NonEmptyLists(s.ctx.index.value)
    requires s.ctx.ledger.Some? ==> NonEmptyLists(s.ctx.ledger.value)
    requires Depth(before) > 5
    ensures Follows(before, Enter(SetResolvConf(s, env), SettingResolvConf))
  {
    SetResolvConfEffect(s, env);
  }

  lemma SettingFollows(s: System, e: Event, env: Env)
    requires ValidEnv(env) && s.ctx.state == SettingResolvConf && Safe(s.ctx, e) && Accepts(SettingResolvConf, e)
    ensures Follows(SettingResolvConf, FromSettingResolvConf(s, e, env))
  {
    if e == Success {
      UpdateDnsManagerEffect(s, env);
    }
  }

  lemma StartingFollows(s: System, e: Event, env: Env)
    requires ValidEnv(env) && s.ctx.state == Starting && Safe(s.ctx, e) && Accepts(Starting, e)
    ensures Follows(Starting, FromStarting(s, e, env))
  {
    if e == Kickoff {
      KickoffFollows(s, env);
    } else {
      UpdatedIndexIsSafe(s);
    }
  }

  lemma WaitingFollows(s: System, e: Event, env: Env)
    requires ValidEnv(env) && s.ctx.state == WaitingForStartJob && Safe(s.ctx, e) && Accepts(WaitingForStartJob, e)
    ensures Follows(WaitingForStartJob, FromWaitingForStartJob(s, e, env))
  {
    if e == JobSuccess {
      SetResolvConfFollows(s, env, WaitingForStartJob);
    } else if e == Reload {
      KickoffFollows(s, env);
    } else {
      UpdatedIndexIsSafe(s);
    }
  }

  lemma UpdatingFollows(s: System, e: Event, env: Env)
    requires ValidEnv(env) && s.ctx.state == UpdatingDnsManager && Safe(s.ctx, e) && Accepts(UpdatingDnsManager, e)
    ensures Follows(UpdatingDnsManager, FromUpdatingDnsManager(s, e, env))
  {
    if e == Reload {
      KickoffFollows(s, env);
    }
  }

  lemma RunningFollows(s: System, e: Event, env: Env)
    requires ValidEnv(env) && s.ctx.state == Running && Safe(s.ctx, e) && Accepts(Running, e)
    ensures Follows(Running, FromRunning(s, e, env))
  {
    if e == UpdateEvent {
      UpdatedIndexIsSafe(s);
      SetResolvConfFollows(AcceptUpdate(s), env, Running);
    } else if e == Reload {
      KickoffFollows(s, env);
    }
  }

  predicate TowardsStart(state: State) {
    state in {ConfiguringDnsManager, SubmittingStartJob}
  }

  predicate OnTheWayOut(state: State) {
    state in {RevertingResolvConf, SubmittingStopJob, WaitingStopJob, Stopping}
  }

  lemma StartStatesFollow(s: System, e: Event, env: Env)
    requires TowardsStart(s.ctx.state) && Safe(s.ctx, e) && Accepts(s.ctx.state, e)
    ensures Follows(s.ctx.state, FromStartStates(s, e, env))
  {
  }

  lemma EndStatesFollow(s: System, e: Event, env: Env)
    requires OnTheWayOut(s.ctx.state) && Safe(s.ctx, e) && Accepts(s.ctx.state, e)
    ensures Follows(s.ctx.state, FromEndStates(s, e, env))
  {
  }

  lemma StepFollows(s: System, e: Event, env: Env)
    requires ValidEnv(env) && Safe(s.ctx, e) && Accepts(s.ctx.state, e)
    ensures Follows(s.ctx.state, Step(s, e, env))
  {
    match s.ctx.state
    case Starting => StartingFollows(s, e, env);
    case WaitingForStartJob => WaitingFollows(s, e, env);
    case UpdatingDnsManager => UpdatingFollows(s, e, env);
    case Running => RunningFollows(s, e, env);
    case SettingResolvConf => SettingFollows(s, e, env);
    case ConfiguringDnsManager | SubmittingStartJob => StartStatesFollow(s, e, env);
    case _ => EndStatesFollow(s, e, env);
  }

  // ----- The whole loop

  datatype Outcome = Outcome(code: int, sys: System, passes: nat)

  /** Passes of the loop until there is no event left; -1 when an event is not accepted. */
  function Transition(s: System, e: Event, env: Env): Outcome
    requires ValidEnv(env) && Safe(s.ctx, e)
    decreases Depth(s.ctx.state)
  {
    if !Accepts(s.ctx.state, e) then Outcome(-1, s, 1)
    else
      var r := Step(s, e, env);
      StepFollows(s, e, env);
      if r.event == NoEvent then Outcome(0, r.sys, 1)
      else
        var rest := Transition(r.sys, r.event, env);
        rest.(passes := rest.passes + 1)
  }

  /** The result of the loop after its first pass. */
  lemma {:induction false} OnePass(s: System, e: Event, env: Env)
    requires ValidEnv(env) && Safe(s.ctx, e) && Accepts(s.ctx.state, e)
    ensures Follows(s.ctx.state, Step(s, e, env))
    ensures var r := Step(s, e, env);
      Transition(s, e, env).sys == if r.event == NoEvent then r.sys else Transition(r.sys, r.event, env).sys
  {
    StepFollows(s, e, env);
  }

  /** The loop ends within six passes, in a state of rest; the only event it can refuse is
      the one it was called with, and then it changes nothing. */
  lemma {:induction false} LoopTerminates(s: System, e: Event, env: Env)
    requires ValidEnv(env) && Safe(s.ctx, e)
    ensures var o := Transition(s, e, env);
      && o.passes <= Depth(s.ctx.state) <= 6
      && (o.code == 0 <==> Accepts(s.ctx.state, e))
      && (o.code == 0 ==> AtRest(o.sys.ctx.state) && Safe(o.sys.ctx, NoEvent))
      && (o.code != 0 ==> o == Outcome(-1, s, 1))
    decreases Depth(s.ctx.state)
  {
    if Accepts(s.ctx.state, e) {
      var r := Step(s, e, env);
      StepFollows(s, e, env);
      if r.event != NoEvent {
        LoopTerminates(r.sys, r.event, env);
      }
    }
  }
}
