/** Runs of the daemon: any sequence of D-Bus calls, status-file changes and signals, with
    any outcome of every action. What holds of every run is proved pass by pass. */
module DaemonRuns {
  import opened ServerTypes
  import opened DomainIndex
  import opened Unbound
  import opened ResolvConf
  import opened Intake
  import opened Daemon

  // ----- What can happen to the daemon

  datatype Input =
    | UpdateCall(call: Call, wireless: string -> bool)
    | ReloadCall
      // the status file changed; `loaded` says whether Unbound has just (re)read its file
    | StatusChanged(content: string, loaded: bool)
    | Terminate
    | NameAcquired
    | NameLost

  datatype Stimulus = Stimulus(input: Input, env: Env)

  function Init(config: Config, world: World): System {
    System(config,
           Context(Starting, [], [], [], None, None, None, None, 0, 1, 1, Backup, None),
           world)
  }

  ghost predicate Resting(s: System) {
    AtRest(s.ctx.state) && Safe(s.ctx, NoEvent)
  }

  function QuitWith(s: System, code: nat): System {
    s.(ctx := s.ctx.(exitCode := code), world := s.world.(quit := true))
  }

  /** A D-Bus or signal handler gives up when the state machine refuses its event. */
  function Deliver(s: System, e: Event, env: Env): System
    requires ValidEnv(env) && Resting(s)
  {
    var o := Transition(s, e, env);
    if o.code == 0 then o.sys else QuitWith(o.sys, EXIT_FSM_FAILURE)
  }

  datatype Reply = Reply(sys: System, serial: nat)

  function HandOver(s: System, servers: seq<Server>, mode: Mode): System {
    s.(ctx := s.ctx.(pending := servers, mode := mode))
  }

  function HandleUpdate(s: System, call: Call, wireless: string -> bool, env: Env): Reply
    requires ValidEnv(env) && Resting(s)
  {
    match Judge(call, wireless)
    case Refused(_) => Reply(s, 0)
    case Accepted(servers) =>
      var t := Deliver(HandOver(s, servers, ModeOf(call.mode)), UpdateEvent, env);
      Reply(t, t.ctx.requested)
  }

  /** What the status file reports, seen from the awaited status. */
  function JobEvent(expected: Option<string>, content: string): Event {
    if expected == Some(content) then JobSuccess
    else if content == "fail" then JobFailure
    else if content == "stopped" then Reload
    else NoEvent
  }

  function LoadFile(s: System, loaded: bool): System {
    if loaded then s.(world := s.world.(live := s.world.file)) else s
  }

  function React(s: System, st: Stimulus): System
    requires ValidEnv(st.env) && Resting(s)
  {
    match st.input
    case UpdateCall(call, wireless) => HandleUpdate(s, call, wireless, st.env).sys
    case ReloadCall => Deliver(s, Reload, st.env)
    case StatusChanged(content, loaded) =>
      var t := LoadFile(s, loaded);
      var e := JobEvent(t.ctx.expected, content);
      if e == NoEvent then t else Transition(t, e, st.env).sys
    case Terminate => Deliver(s, Stop, st.env)
    case NameAcquired => Deliver(s, Kickoff, st.env)
    case NameLost => QuitWith(s, EXIT_DBUS_FAILURE)
  }

  predicate AcceptedUpdate(st: Stimulus) {
    st.input.UpdateCall? && Judge(st.input.call, st.input.wireless).Accepted?
  }

  /** The servers an accepted update hands over. */
  function HandedOver(st: Stimulus): seq<Server>
    requires AcceptedUpdate(st)
  {
    Judge(st.input.call, st.input.wireless).servers
  }

  lemma {:induction false} DeliverRests(s: System, e: Event, env: Env)
    requires ValidEnv(env) && Resting(s)
    ensures Resting(Deliver(s, e, env)) && Resting(Transition(s, e, env).sys)
  {
    LoopTerminates(s, e, env);
  }

  lemma ReactRests(s: System, st: Stimulus)
    requires ValidEnv(st.env) && Resting(s)
    ensures Resting(React(s, st))
  {
    match st.input
    case UpdateCall(call, wireless) =>
      if Judge(call, wireless).Accepted? {
        DeliverRests(HandOver(s, Judge(call, wireless).servers, ModeOf(call.mode)), UpdateEvent, st.env);
      }
    case ReloadCall => DeliverRests(s, Reload, st.env);
    case StatusChanged(content, loaded) =>
      var t := LoadFile(s, loaded);
      DeliverRests(t, JobEvent(t.ctx.expected, content), st.env);
    case Terminate => DeliverRests(s, Stop, st.env);
    case NameAcquired => DeliverRests(s, Kickoff, st.env);
    case NameLost =>
  }

  type History = seq<Stimulus>

  ghost predicate ValidHistory(h: History) {
    forall i :: 0 <= i < |h| ==> ValidEnv(h[i].env)
  }

  function Run(s: System, h: History): (t: System)
    requires ValidHistory(h) && Resting(s)
    ensures Resting(t)
    decreases |h|
  {
    if h == [] then s
    else
      ReactRests(s, h[0]);
      Run(React(s, h[0]), h[1..])
  }

  // ----- Runs in parts

  lemma {:induction false} RunStep(s: System, h: History)
    requires ValidHistory(h) && Resting(s) && h != []
    ensures Resting(React(s, h[0])) && Run(s, h) == Run(React(s, h[0]), h[1..])
  {
    ReactRests(s, h[0]);
  }

  lemma {:induction false} RunInTwoParts(s: System, h: History, k: History)
    requires ValidHistory(h) && ValidHistory(k) && Resting(s)
    ensures Resting(Run(s, h)) && Run(s, h + k) == Run(Run(s, h), k)
    decreases |h|
  {
    if h == [] {
      assert h + k == k;
    } else {
      TailOfJoin(h, k);
      RunStep(s, h);
      RunStep(s, h + k);
      RunInTwoParts(React(s, h[0]), h[1..], k);
    }
  }

  lemma {:induction false} RunOfTwo(s: System, h: History)
    requires ValidHistory(h) && Resting(s) && |h| == 2
    ensures Resting(React(s, h[0])) && Resting(Run(s, h)) && Run(s, h) == React(React(s, h[0]), h[1])
  {
    RunStep(s, h);
    RunStep(React(s, h[0]), h[1..]);
    assert Run(React(React(s, h[0]), h[1]), h[1..][1..]) == React(React(s, h[0]), h[1]);
  }

  lemma {:induction false} RunSnoc(s: System, h: History)
    requires ValidHistory(h) && Resting(s) && h != []
    ensures Run(s, h) == React(Run(s, h[..|h| - 1]), h[|h| - 1])
  {
    var front, last := h[..|h| - 1], h[|h| - 1..];
    assert h == front + last && last[0] == h[|h| - 1] && last[1..] == [];
    RunInTwoParts(s, front, last);
    RunStep(Run(s, front), last);
  }

  // ----- The invariant

  /** Server lists and index belong together. */
  ghost predicate ListsAgree(s: System) {
    s.ctx.index.Some? ==>
      && s.ctx.allServers == s.config.staticServers + s.ctx.dynamicServers
      && s.ctx.index == Some(BuildIndex(s.ctx.allServers))
  }

  predicate Ending(state: State) {
    state in {WaitingStopJob, Stopping}
  }

  /** A handed-over list is taken at once, unless the daemon is on its way out. */
  ghost predicate PendingTaken(s: System, e: Event) {
    e != UpdateEvent && !OnTheWayOut(s.ctx.state) ==> s.ctx.pending == []
  }

  predicate IsSerial(n: nat) {
    0 < n < 0x1_0000_0000
  }

  ghost predicate SerialsFit(s: System) {
    IsSerial(s.ctx.requested) && IsSerial(s.ctx.current)
  }

  /** Whenever the update went through, ledger and serial are those of the current index. */
  ghost predicate Settled(s: System, e: Event) {
    (s.ctx.state == Running && e != UpdateEvent) || (s.ctx.state == UpdatingDnsManager && e == Success) ==>
      && s.ctx.index.Some? && NonEmptyLists(s.ctx.index.value)
      && s.ctx.ledger == Some(Target(s.ctx))
      && s.ctx.current == s.ctx.requested
  }

  /** The backup is the original file, taken before anything was written. */
  ghost predicate BackupIsOriginal(s: System, original: Contents) {
    if s.ctx.backup.Some? then s.ctx.backup.value == original else s.world.resolv == original
  }

  /** The awaited status fits the state. */
  ghost predicate AwaitsRightStatus(s: System) {
    && (s.ctx.state == Starting ==> s.ctx.expected == None)
    && (s.ctx.state in {SubmittingStartJob, WaitingForStartJob, SettingResolvConf, UpdatingDnsManager, Running} ==>
          s.ctx.expected == Some("ready"))
    && (s.ctx.state in {SubmittingStopJob, WaitingStopJob} ==> s.ctx.expected == Some("stopped"))
  }

  ghost predicate OnlyRestarts(control: seq<string>) {
    forall i :: 0 <= i < |control| ==> control[i] == "restart"
  }

  /** Restarts, then at most one stop: the stop is the last command ever sent. */
  ghost predicate StopIsLast(control: seq<string>) {
    OnlyRestarts(control) ||
    (control != [] && control[|control| - 1] == "stop" && OnlyRestarts(control[..|control| - 1]))
  }

  /** Who waits for the stop has sent it. */
  ghost predicate StopWasSent(s: System, e: Event) {
    s.ctx.state == WaitingStopJob || (s.ctx.state == SubmittingStopJob && e == Success) ==>
      s.world.control != [] && s.world.control[|s.world.control| - 1] == "stop"
  }

  ghost predicate ControlFits(s: System) {
    && StopIsLast(s.world.control)
    && (s.ctx.state !in {SubmittingStopJob, WaitingStopJob, Stopping} ==> OnlyRestarts(s.world.control))
  }

  ghost predicate Inv(s: System, e: Event, original: Contents) {
    && ListsAgree(s)
    && PendingTaken(s, e)
    && SerialsFit(s)
    && Settled(s, e)
    && BackupIsOriginal(s, original)
    && AwaitsRightStatus(s)
    && ControlFits(s)
    && StopWasSent(s, e)
  }

  lemma NextSerialIsSerial(n: nat)
    requires IsSerial(n)
    ensures IsSerial(NextSerial(n))
    ensures NextSerial(n) == if n == 4294967295 then 1 else n + 1
  {
  }

  /** The serial after k refreshes of the context. */
  function SerialAfter(n: nat, k: nat): nat {
    if k == 0 then n else NextSerial(SerialAfter(n, k - 1))
  }

  lemma {:induction false} SerialAfterIs(n: nat, k: nat)
    requires IsSerial(n) && k < 4294967295
    ensures SerialAfter(n, k) == if n + k <= 4294967295 then n + k else n + k - 4294967295
  {
    if k > 0 {
      SerialAfterIs(n, k - 1);
      NextSerialIsSerial(SerialAfter(n, k - 1));
    }
  }

  lemma {:induction false} SerialAfterIsSerial(n: nat, k: nat)
    requires IsSerial(n)
    ensures IsSerial(SerialAfter(n, k))
  {
    if k > 0 {
      SerialAfterIsSerial(n, k - 1);
      NextSerialIsSerial(SerialAfter(n, k - 1));
    }
  }

  lemma {:induction false} SerialsAdd(n: nat, j: nat, k: nat)
    ensures SerialAfter(n, j + k) == SerialAfter(SerialAfter(n, j), k)
  {
    if k > 0 {
      SerialsAdd(n, j, k - 1);
    }
  }

  /** No serial comes back before all others have been used. */
  lemma {:induction false} SerialsRepeatLate(n: nat, j: nat, k: nat)
    requires IsSerial(n) && j < k < j + 4294967295
    ensures SerialAfter(n, j) != SerialAfter(n, k)
  {
    SerialAfterIsSerial(n, j);
    SerialsAdd(n, j, k - j);
    SerialAfterIs(SerialAfter(n, j), k - j);
  }

  lemma AcceptUpdateKeeps(s: System, original: Contents)
    requires Inv(s, UpdateEvent, original) && s.ctx.state in {Starting, WaitingForStartJob, Running}
    ensures var t := AcceptUpdate(s);
      && ListsAgree(t) && t.ctx.pending == [] && SerialsFit(t) && BackupIsOriginal(t, original)
      && AwaitsRightStatus(t) && ControlFits(t)
  {
    NextSerialIsSerial(s.ctx.requested);
  }

  lemma KickoffKeeps(s: System, e: Event, env: Env, original: Contents)
    requires ValidEnv(env) && Inv(s, e, original) && e in {Kickoff, Reload}
    requires s.ctx.state in {Starting, WaitingForStartJob, UpdatingDnsManager, Running}
    ensures var r := Enter(StartingKickoff(s, env), ConfiguringDnsManager); Inv(r.sys, r.event, original)
  {
    KickoffEffect(s, env);
    NextSerialIsSerial(s.ctx.requested);
  }

  lemma SetResolvConfKeeps(s: System, env: Env, original: Contents)
    requires ValidEnv(env) && s.ctx.index.Some? && NonEmptyLists(s.ctx.index.value)
    requires ListsAgree(s) && s.ctx.pending == [] && SerialsFit(s) && BackupIsOriginal(s, original)
    requires AwaitsRightStatus(s) && ControlFits(s) && s.ctx.state in {WaitingForStartJob, Running}
    ensures var r := Enter(SetResolvConf(s, env), SettingResolvConf); Inv(r.sys, r.event, original)
  {
    SetResolvConfEffect(s, env);
  }

  lemma UpdateDnsManagerKeeps(s: System, env: Env, original: Contents)
    requires ValidEnv(env) && s.ctx.state == SettingResolvConf && Safe(s.ctx, Success)
    requires Inv(s, Success, original)
    ensures var r := Enter(UpdateDnsManager(s, env), UpdatingDnsManager); Inv(r.sys, r.event, original)
  {
    UpdateDnsManagerEffect(s, env);
  }

  lemma SubmitStopKeeps(s: System, env: Env, original: Contents)
    requires ListsAgree(s) && SerialsFit(s) && BackupIsOriginal(s, original) && OnlyRestarts(s.world.control)
    ensures var r := Enter(SubmitStop(s, env), SubmittingStopJob); Inv(r.sys, r.event, original)
  {
    var before, after := s.world.control, SubmitStop(s, env).sys.world.control;
    if after != before {
      assert after[..|after| - 1] == before;
    }
  }

  lemma RevertKeeps(s: System, env: Env, original: Contents)
    requires s.ctx.backup.Some?
    requires ListsAgree(s) && SerialsFit(s) && BackupIsOriginal(s, original) && OnlyRestarts(s.world.control)
    ensures var r := Enter(RevertResolvConf(s, env), RevertingResolvConf); Inv(r.sys, r.event, original)
  {
  }

  lemma StartingKeeps(s: System, e: Event, env: Env, original: Contents)
    requires ValidEnv(env) && s.ctx.state == Starting && Accepts(Starting, e) && Inv(s, e, original)
    ensures var r := FromStarting(s, e, env); Inv(r.sys, r.event, original)
  {
    if e == Kickoff {
      KickoffKeeps(s, e, env, original);
    } else if e == UpdateEvent {
      AcceptUpdateKeeps(s, original);
    }
  }

  lemma WaitingKeeps(s: System, e: Event, env: Env, original: Contents)
    requires ValidEnv(env) && s.ctx.state == WaitingForStartJob && Safe(s.ctx, e)
    requires Accepts(WaitingForStartJob, e) && Inv(s, e, original)
    ensures var r := FromWaitingForStartJob(s, e, env); Inv(r.sys, r.event, original)
  {
    if e == JobSuccess {
      SetResolvConfKeeps(s, env, original);
    } else if e == Reload {
      KickoffKeeps(s, e, env, original);
    } else if e == UpdateEvent {
      AcceptUpdateKeeps(s, original);
    } else if e == Stop {
      SubmitStopKeeps(s, env, original);
    }
  }

  lemma SettingKeeps(s: System, e: Event, env: Env, original: Contents)
    requires ValidEnv(env) && s.ctx.state == SettingResolvConf && Safe(s.ctx, e)
    requires Accepts(SettingResolvConf, e) && Inv(s, e, original)
    ensures var r := FromSettingResolvConf(s, e, env); Inv(r.sys, r.event, original)
  {
    if e == Success {
      UpdateDnsManagerKeeps(s, env, original);
    } else {
      SubmitStopKeeps(SetExitCode(s, EXIT_RESOLV_CONF_FAILURE), env, original);
    }
  }

  lemma UpdatingKeeps(s: System, e: Event, env: Env, original: Contents)
    requires ValidEnv(env) && s.ctx.state == UpdatingDnsManager && Safe(s.ctx, e)
    requires Accepts(UpdatingDnsManager, e) && Inv(s, e, original)
    ensures var r := FromUpdatingDnsManager(s, e, env); Inv(r.sys, r.event, original)
  {
    if e == Failure {
      RevertKeeps(SetExitCode(s, EXIT_UPDATE_FAILURE), env, original);
    } else if e == Reload {
      KickoffKeeps(s, e, env, original);
    }
  }

  lemma RunningKeeps(s: System, e: Event, env: Env, original: Contents)
    requires ValidEnv(env) && s.ctx.state == Running && Safe(s.ctx, e)
    requires Accepts(Running, e) && Inv(s, e, original)
    ensures var r := FromRunning(s, e, env); Inv(r.sys, r.event, original)
  {
    if e == UpdateEvent {
      AcceptUpdateKeeps(s, original);
      UpdatedIndexIsSafe(s);
      SetResolvConfKeeps(AcceptUpdate(s), env, original);
    } else if e == Reload {
      KickoffKeeps(s, e, env, original);
    } else {
      RevertKeeps(s, env, original);
    }
  }

  lemma StartStatesKeep(s: System, e: Event, env: Env, original: Contents)
    requires TowardsStart(s.ctx.state) && Safe(s.ctx, e) && Accepts(s.ctx.state, e) && Inv(s, e, original)
    ensures var r := FromStartStates(s, e, env); Inv(r.sys, r.event, original)
  {
  }

  lemma EndStatesKeep(s: System, e: Event, env: Env, original: Contents)
    requires OnTheWayOut(s.ctx.state) && Safe(s.ctx, e) && Accepts(s.ctx.state, e) && Inv(s, e, original)
    ensures var r := FromEndStates(s, e, env); Inv(r.sys, r.event, original)
  {
    if s.ctx.state == RevertingResolvConf {
      SubmitStopKeeps(s, env, original);
    }
  }

  lemma StepKeeps(s: System, e: Event, env: Env, original: Contents)
    requires ValidEnv(env) && Safe(s.ctx, e) && Accepts(s.ctx.state, e) && Inv(s, e, original)
    ensures var r := Step(s, e, env); Inv(r.sys, r.event, original)
  {
    match s.ctx.state
    case Starting => StartingKeeps(s, e, env, original);
    case WaitingForStartJob => WaitingKeeps(s, e, env, original);
    case SettingResolvConf => SettingKeeps(s, e, env, original);
    case UpdatingDnsManager => UpdatingKeeps(s, e, env, original);
    case Running => RunningKeeps(s, e, env, original);
    case ConfiguringDnsManager | SubmittingStartJob => StartStatesKeep(s, e, env, original);
    case _ => EndStatesKeep(s, e, env, original);
  }

  lemma {:induction false} TransitionKeeps(s: System, e: Event, env: Env, original: Contents)
    requires ValidEnv(env) && Safe(s.ctx, e) && Accepts(s.ctx.state, e) && Inv(s, e, original)
    ensures Inv(Transition(s, e, env).sys, NoEvent, original)
    decreases Depth(s.ctx.state)
  {
    var r := Step(s, e, env);
    StepFollows(s, e, env);
    StepKeeps(s, e, env, original);
    if r.event != NoEvent {
      TransitionKeeps(r.sys, r.event, env, original);
    }
  }

  // ----- Every run

  ghost predicate RestInv(s: System, original: Contents) {
    Resting(s) && Inv(s, NoEvent, original)
  }

  lemma InitInv(config: Config, world: World)
    requires world.control == []
    ensures RestInv(Init(config, world), world.resolv)
  {
  }

  lemma {:induction false} DeliverKeeps(s: System, e: Event, env: Env, original: Contents)
    requires ValidEnv(env) && Resting(s) && Inv(s, e, original)
    requires e == UpdateEvent ==> Accepts(s.ctx.state, e) || OnTheWayOut(s.ctx.state)
    ensures RestInv(Deliver(s, e, env), original) && RestInv(Transition(s, e, env).sys, original)
  {
    LoopTerminates(s, e, env);
    if Accepts(s.ctx.state, e) {
      TransitionKeeps(s, e, env, original);
    }
  }

  /** Events other than an update start from the invariant at rest. */
  lemma {:induction false} EventKeeps(s: System, e: Event, env: Env, original: Contents)
    requires ValidEnv(env) && RestInv(s, original) && e != UpdateEvent
    ensures RestInv(Deliver(s, e, env), original) && RestInv(Transition(s, e, env).sys, original)
  {
    DeliverKeeps(s, e, env, original);
  }

  lemma HandleUpdateKeeps(s: System, call: Call, wireless: string -> bool, env: Env, original: Contents)
    requires ValidEnv(env) && RestInv(s, original)
    ensures RestInv(HandleUpdate(s, call, wireless, env).sys, original)
  {
    if Judge(call, wireless).Accepted? {
      DeliverKeeps(HandOver(s, Judge(call, wireless).servers, ModeOf(call.mode)), UpdateEvent, env, original);
    }
  }

  lemma StatusKeeps(s: System, content: string, loaded: bool, env: Env, original: Contents)
    requires ValidEnv(env) && RestInv(s, original)
    ensures RestInv(React(s, Stimulus(StatusChanged(content, loaded), env)), original)
  {
    var t := LoadFile(s, loaded);
    assert RestInv(t, original);
    EventKeeps(t, JobEvent(t.ctx.expected, content), env, original);
  }

  lemma ReactKeeps(s: System, st: Stimulus, original: Contents)
    requires ValidEnv(st.env) && RestInv(s, original)
    ensures RestInv(React(s, st), original)
  {
    match st.input
    case UpdateCall(call, wireless) => HandleUpdateKeeps(s, call, wireless, st.env, original);
    case ReloadCall => EventKeeps(s, Reload, st.env, original);
    case StatusChanged(content, loaded) => StatusKeeps(s, content, loaded, st.env, original);
    case Terminate => EventKeeps(s, Stop, st.env, original);
    case NameAcquired => EventKeeps(s, Kickoff, st.env, original);
    case NameLost =>
  }

  lemma {:induction false} RunKeeps(s: System, h: History, original: Contents)
    requires ValidHistory(h) && RestInv(s, original)
    ensures RestInv(Run(s, h), original)
    decreases |h|
  {
    if h != [] {
      ReactKeeps(s, h[0], original);
      RunKeeps(React(s, h[0]), h[1..], original);
    }
  }

  /** In every state of every run: serials are never zero, the backup is the original, the
      commands sent are restarts with at most one final stop, which was sent if it is waited
      for, and the awaited status is "ready" while starting or running and "stopped" while
      stopping. */
  lemma {:induction false} EveryRunIsSane(config: Config, world: World, h: History)
    requires world.control == [] && ValidHistory(h)
    ensures var s := Run(Init(config, world), h);
      && IsSerial(s.ctx.requested) && IsSerial(s.ctx.current)
      && BackupIsOriginal(s, world.resolv)
      && AwaitsRightStatus(s)
      && StopIsLast(s.world.control)
      && (s.ctx.state == WaitingStopJob ==> "stop" in s.world.control)
      && ("stop" in s.world.control ==> Ending(s.ctx.state))
      && AtRest(s.ctx.state)
  {
    InitInv(config, world);
    RunKeeps(Init(config, world), h, world.resolv);
  }

  /** The reply serial tells acceptance: zero if and only if the call was refused, and a
      refused call changes nothing. */
  lemma ReplyTellsAcceptance(s: System, call: Call, wireless: string -> bool, env: Env, original: Contents)
    requires ValidEnv(env) && RestInv(s, original)
    ensures HandleUpdate(s, call, wireless, env).serial == 0 <==> Judge(call, wireless).Refused?
    ensures Judge(call, wireless).Refused? ==> HandleUpdate(s, call, wireless, env).sys == s
  {
    HandleUpdateKeeps(s, call, wireless, env, original);
  }

  // ----- The configuration is never written

  lemma StepConfig(s: System, e: Event, env: Env)
    requires ValidEnv(env) && Safe(s.ctx, e) && Accepts(s.ctx.state, e)
    ensures Step(s, e, env).sys.config == s.config
  {
    KickoffEffect(s, env);
    if s.ctx.state == WaitingForStartJob && e == JobSuccess {
      SetResolvConfEffect(s, env);
    } else if s.ctx.state == Running && e == UpdateEvent {
      UpdatedIndexIsSafe(s);
      SetResolvConfEffect(AcceptUpdate(s), env);
    } else if s.ctx.state == SettingResolvConf && e == Success {
      UpdateDnsManagerEffect(s, env);
    }
  }

  lemma {:induction false} TransitionConfig(s: System, e: Event, env: Env)
    requires ValidEnv(env) && Safe(s.ctx, e)
    ensures Transition(s, e, env).sys.config == s.config
    decreases Depth(s.ctx.state)
  {
    if Accepts(s.ctx.state, e) {
      StepFollows(s, e, env);
      StepConfig(s, e, env);
      var r := Step(s, e, env);
      if r.event != NoEvent {
        TransitionConfig(r.sys, r.event, env);
      }
    }
  }

  lemma ReactConfig(s: System, st: Stimulus)
    requires ValidEnv(st.env) && Resting(s)
    ensures React(s, st).config == s.config
  {
    match st.input
    case UpdateCall(call, wireless) =>
      if Judge(call, wireless).Accepted? {
        TransitionConfig(HandOver(s, Judge(call, wireless).servers, ModeOf(call.mode)), UpdateEvent, st.env);
      }
    case ReloadCall => TransitionConfig(s, Reload, st.env);
    case StatusChanged(content, loaded) =>
      var t := LoadFile(s, loaded);
      TransitionConfig(t, JobEvent(t.ctx.expected, content), st.env);
    case Terminate => TransitionConfig(s, Stop, st.env);
    case NameAcquired => TransitionConfig(s, Kickoff, st.env);
    case NameLost =>
  }

  lemma {:induction false} ConfigIsFixed(s: System, h: History)
    requires ValidHistory(h) && Resting(s)
    ensures Run(s, h).config == s.config
    decreases |h|
  {
    if h != [] {
      ReactConfig(s, h[0]);
      ReactRests(s, h[0]);
      ConfigIsFixed(React(s, h[0]), h[1..]);
    }
  }

  // ----- Starting Unbound

  /** What asking for a restart comes to: the command is sent exactly if the configuration
      could be written and the status file too, and the daemon waits for the answer exactly
      if the command went through; otherwise it ends. */
  ghost predicate Restarted(s: System, t: System, env: Env)
    requires ValidEnv(env)
  {
    var configured := StartingKickoff(s, env).event == Success;
    && t.world.control == (if configured && !env.start.StatusFails? then s.world.control + ["restart"] else s.world.control)
    && (t.ctx.state == if configured && env.start.Submitted? then WaitingForStartJob else Stopping)
    && t.world.quit == (s.world.quit || t.ctx.state == Stopping)
    && t.ctx.exitCode == s.ctx.exitCode
    && t.ctx.requested == NextSerial(s.ctx.requested)
  }

  lemma {:induction false} StartFromConfiguring(q: System, e: Event, env: Env)
    requires ValidEnv(env) && q.ctx.state == ConfiguringDnsManager && Safe(q.ctx, e) && e in {Success, Failure}
    ensures var t := Transition(q, e, env).sys;
      && t.world.control
         == (if e == Success && !env.start.StatusFails? then q.world.control + ["restart"] else q.world.control)
      && (t.ctx.state == if e == Success && env.start.Submitted? then WaitingForStartJob else Stopping)
      && t.world.quit == (q.world.quit || t.ctx.state == Stopping)
      && t.ctx.exitCode == q.ctx.exitCode && t.ctx.requested == q.ctx.requested
  {
    OnePass(q, e, env);
    var r := Step(q, e, env);
    OnePass(r.sys, r.event, env);
    if r.sys.ctx.state == SubmittingStartJob && r.event == Failure {
      OnePass(Goto(r.sys, Stopping), Stop, env);
    }
  }

  /** The events that start Unbound. */
  predicate StartsUnbound(state: State, e: Event) {
    (state == Starting && e == Kickoff) || (state in {WaitingForStartJob, UpdatingDnsManager, Running} && e == Reload)
  }

  lemma {:induction false} ReloadRestarts(s: System, e: Event, env: Env)
    requires ValidEnv(env) && Safe(s.ctx, e) && StartsUnbound(s.ctx.state, e)
    ensures Restarted(s, Transition(s, e, env).sys, env)
  {
    OnePass(s, e, env);
    KickoffEffect(s, env);
    var r := Enter(StartingKickoff(s, env), ConfiguringDnsManager);
    StartFromConfiguring(r.sys, r.event, env);
  }

  // ----- Stopping is irrevocable

  /** What stays as it is once a stop is under way. */
  ghost predicate StaysStopped(s: System, t: System) {
    && Ending(t.ctx.state)
    && t.world.control == s.world.control
    && t.world.resolv == s.world.resolv
    && t.ctx.backup == s.ctx.backup
    && t.ctx.ledger == s.ctx.ledger
  }

  lemma {:induction false} EndingTransition(s: System, e: Event, env: Env)
    requires ValidEnv(env) && Safe(s.ctx, e) && Ending(s.ctx.state)
    ensures StaysStopped(s, Transition(s, e, env).sys)
    ensures Transition(s, e, env).sys.ctx.exitCode == s.ctx.exitCode
  {
    if Accepts(s.ctx.state, e) {
      StepFollows(s, e, env);
      var r := Step(s, e, env);
      if r.event != NoEvent {
        assert r.sys.ctx.state == Stopping;
        StepFollows(r.sys, r.event, env);
      }
    }
  }

  lemma {:induction false} EndingDeliver(s: System, e: Event, env: Env)
    requires ValidEnv(env) && Resting(s) && Ending(s.ctx.state)
    ensures StaysStopped(s, Deliver(s, e, env)) && StaysStopped(s, Transition(s, e, env).sys)
  {
    EndingTransition(s, e, env);
  }

  lemma EndingUpdate(s: System, call: Call, wireless: string -> bool, env: Env)
    requires ValidEnv(env) && Resting(s) && Ending(s.ctx.state)
    ensures StaysStopped(s, HandleUpdate(s, call, wireless, env).sys)
  {
    if Judge(call, wireless).Accepted? {
      EndingDeliver(HandOver(s, Judge(call, wireless).servers, ModeOf(call.mode)), UpdateEvent, env);
    }
  }

  lemma EndingReact(s: System, st: Stimulus)
    requires ValidEnv(st.env) && Resting(s) && Ending(s.ctx.state)
    ensures StaysStopped(s, React(s, st))
  {
    match st.input
    case UpdateCall(call, wireless) => EndingUpdate(s, call, wireless, st.env);
    case ReloadCall => EndingDeliver(s, Reload, st.env);
    case StatusChanged(content, loaded) =>
      var t := LoadFile(s, loaded);
      EndingDeliver(t, JobEvent(t.ctx.expected, content), st.env);
    case Terminate => EndingDeliver(s, Stop, st.env);
    case NameAcquired => EndingDeliver(s, Kickoff, st.env);
    case NameLost =>
  }

  /** Once a stop is under way no calls, status files or signals bring the daemon back: it
      never runs again, never sends another command and never touches resolv.conf. */
  lemma {:induction false} StopIsIrrevocable(s: System, h: History)
    requires ValidHistory(h) && Resting(s) && Ending(s.ctx.state)
    ensures StaysStopped(s, Run(s, h))
    decreases |h|
  {
    if h != [] {
      EndingReact(s, h[0]);
      ReactRests(s, h[0]);
      StopIsIrrevocable(React(s, h[0]), h[1..]);
    }
  }

  // ----- Exit codes

  lemma WayOutStep(s: System, e: Event, env: Env)
    requires ValidEnv(env) && Safe(s.ctx, e) && Accepts(s.ctx.state, e) && OnTheWayOut(s.ctx.state)
    ensures OnTheWayOut(Step(s, e, env).sys.ctx.state)
    ensures Step(s, e, env).sys.ctx.exitCode == s.ctx.exitCode
  {
  }

  lemma {:induction false} WayOutTransition(s: System, e: Event, env: Env)
    requires ValidEnv(env) && Safe(s.ctx, e) && Accepts(s.ctx.state, e) && OnTheWayOut(s.ctx.state)
    ensures Ending(Transition(s, e, env).sys.ctx.state)
    ensures Transition(s, e, env).sys.ctx.exitCode == s.ctx.exitCode
    decreases Depth(s.ctx.state)
  {
    StepFollows(s, e, env);
    WayOutStep(s, e, env);
    var r := Step(s, e, env);
    if r.event != NoEvent {
      WayOutTransition(r.sys, r.event, env);
    }
  }

  lemma StepExitCode(s: System, e: Event, env: Env)
    requires ValidEnv(env) && Safe(s.ctx, e) && Accepts(s.ctx.state, e)
    ensures var r := Step(s, e, env);
      r.sys.ctx.exitCode == s.ctx.exitCode || (s.ctx.exitCode == 0 && OnTheWayOut(r.sys.ctx.state))
  {
    if s.ctx.state in {Starting, WaitingForStartJob, UpdatingDnsManager, Running} && e in {Kickoff, Reload} {
      KickoffEffect(s, env);
    }
  }

  /** The state machine sets an exit code at most once, and only on its way out. */
  lemma {:induction false} ExitCodeOnlyOnTheWayOut(s: System, e: Event, env: Env)
    requires ValidEnv(env) && Safe(s.ctx, e)
    ensures var t := Transition(s, e, env).sys;
      t.ctx.exitCode == s.ctx.exitCode || (s.ctx.exitCode == 0 && Ending(t.ctx.state))
    decreases Depth(s.ctx.state)
  {
    if Accepts(s.ctx.state, e) {
      StepFollows(s, e, env);
      StepExitCode(s, e, env);
      var r := Step(s, e, env);
      if r.event != NoEvent {
        if r.sys.ctx.exitCode != s.ctx.exitCode {
          WayOutTransition(r.sys, r.event, env);
        } else {
          ExitCodeOnlyOnTheWayOut(r.sys, r.event, env);
        }
      }
    }
  }

  // ----- Giving resolv.conf back

  lemma {:induction false} WayOutKeepsResolv(s: System, e: Event, env: Env)
    requires ValidEnv(env) && Safe(s.ctx, e) && Accepts(s.ctx.state, e) && OnTheWayOut(s.ctx.state)
    ensures Transition(s, e, env).sys.world.resolv == s.world.resolv
    decreases Depth(s.ctx.state)
  {
    StepFollows(s, e, env);
    WayOutStep(s, e, env);
    var r := Step(s, e, env);
    assert r.sys.world.resolv == s.world.resolv;
    if r.event != NoEvent {
      WayOutKeepsResolv(r.sys, r.event, env);
    }
  }

  /** Outside RUNNING a stop does not touch the file. */
  lemma {:induction false} StopElsewhereKeepsResolv(s: System, env: Env)
    requires ValidEnv(env) && Resting(s) && s.ctx.state != Running
    ensures Transition(s, Stop, env).sys.world.resolv == s.world.resolv
  {
    OnePass(s, Stop, env);
    var r := Step(s, Stop, env);
    if r.event != NoEvent {
      WayOutKeepsResolv(r.sys, r.event, env);
    }
  }

  /** A stop whose revert can write the file leaves the original in place exactly when it
      comes while the daemon is running, or the file was the original anyway: a stop during
      a restart leaves the generated file behind. */
  lemma {:induction false} StopRestoresIff(s: System, env: Env, original: Contents)
    requires ValidEnv(env) && RestInv(s, original) && env.revert.Written?
    ensures Transition(s, Stop, env).sys.world.resolv == original <==>
      s.ctx.state == Running || s.world.resolv == original
  {
    if s.ctx.state == Running {
      OnePass(s, Stop, env);
      var r := FromRunning(s, Stop, env);
      WayOutKeepsResolv(r.sys, r.event, env);
    } else {
      StopElsewhereKeepsResolv(s, env);
    }
  }

  /** Some pass of the loop enters REVERTING. */
  ghost predicate PassesReverting(s: System, e: Event, env: Env)
    requires ValidEnv(env) && Safe(s.ctx, e)
    decreases Depth(s.ctx.state)
  {
    && Accepts(s.ctx.state, e)
    && var r := Step(s, e, env);
       StepFollows(s, e, env);
       r.sys.ctx.state == RevertingResolvConf || (r.event != NoEvent && PassesReverting(r.sys, r.event, env))
  }

  lemma EnteringRestores(s: System, e: Event, env: Env, original: Contents)
    requires ValidEnv(env) && Safe(s.ctx, e) && Accepts(s.ctx.state, e) && Inv(s, e, original)
    requires Step(s, e, env).sys.ctx.state == RevertingResolvConf && env.revert.Written?
    ensures Step(s, e, env).sys.world.resolv == original && Step(s, e, env).event == Success
  {
  }

  /** Whatever leads through REVERTING, a stop or a failed update at any point of a
      transition, leaves the original file if it can be written. */
  lemma {:induction false} RevertingRestores(s: System, e: Event, env: Env, original: Contents)
    requires ValidEnv(env) && Safe(s.ctx, e) && Inv(s, e, original)
    requires PassesReverting(s, e, env) && env.revert.Written?
    ensures Transition(s, e, env).sys.world.resolv == original
    ensures Ending(Transition(s, e, env).sys.ctx.state)
    decreases Depth(s.ctx.state)
  {
    OnePass(s, e, env);
    var r := Step(s, e, env);
    if r.sys.ctx.state == RevertingResolvConf {
      EnteringRestores(s, e, env, original);
      WayOutKeepsResolv(r.sys, r.event, env);
      WayOutTransition(r.sys, r.event, env);
    } else {
      StepKeeps(s, e, env, original);
      RevertingRestores(r.sys, r.event, env, original);
    }
  }

  lemma {:induction false} StartNeverReverts(q: System, e: Event, env: Env)
    requires ValidEnv(env) && Safe(q.ctx, e) && q.ctx.state in {ConfiguringDnsManager, SubmittingStartJob, Stopping}
    ensures !PassesReverting(q, e, env)
    decreases Depth(q.ctx.state)
  {
    if Accepts(q.ctx.state, e) {
      OnePass(q, e, env);
      var r := Step(q, e, env);
      if r.event != NoEvent {
        StartNeverReverts(r.sys, r.event, env);
      }
    }
  }

  /** An update leads through REVERTING exactly when it fails. */
  lemma {:induction false} UpdateRevertsIffItFails(u: System, env: Env)
    requires ValidEnv(env) && u.ctx.state == SettingResolvConf && Safe(u.ctx, Success)
    ensures PassesReverting(u, Success, env) <==> UpdateDnsManager(u, env).event == Failure
  {
    OnePass(u, Success, env);
    UpdateDnsManagerEffect(u, env);
    var r := Enter(UpdateDnsManager(u, env), UpdatingDnsManager);
    OnePass(r.sys, r.event, env);
    if r.event == Reload {
      KickoffEffect(r.sys, env);
      var q := Enter(StartingKickoff(r.sys, env), ConfiguringDnsManager);
      StartNeverReverts(q.sys, q.event, env);
    }
  }

  /** The handling of a stimulus leads through REVERTING. */
  ghost predicate ReactReverts(s: System, st: Stimulus)
    requires ValidEnv(st.env) && Resting(s)
  {
    match st.input
    case UpdateCall(call, wireless) =>
      var v := Judge(call, wireless);
      v.Accepted? && PassesReverting(HandOver(s, v.servers, ModeOf(call.mode)), UpdateEvent, st.env)
    case ReloadCall => PassesReverting(s, Reload, st.env)
    case StatusChanged(content, loaded) =>
      PassesReverting(LoadFile(s, loaded), JobEvent(s.ctx.expected, content), st.env)
    case Terminate => PassesReverting(s, Stop, st.env)
    case NameAcquired => PassesReverting(s, Kickoff, st.env)
    case NameLost => false
  }

  lemma {:induction false} DeliverRestores(s: System, e: Event, env: Env, original: Contents)
    requires ValidEnv(env) && Resting(s) && Inv(s, e, original)
    requires PassesReverting(s, e, env) && env.revert.Written?
    ensures Deliver(s, e, env).world.resolv == Transition(s, e, env).sys.world.resolv == original
    ensures Ending(Deliver(s, e, env).ctx.state) && Ending(Transition(s, e, env).sys.ctx.state)
  {
    RevertingRestores(s, e, env, original);
  }

  lemma HandleUpdateRestores(s: System, call: Call, wireless: string -> bool, env: Env, original: Contents)
    requires ValidEnv(env) && RestInv(s, original) && env.revert.Written?
    requires ReactReverts(s, Stimulus(UpdateCall(call, wireless), env))
    ensures var t := HandleUpdate(s, call, wireless, env).sys; t.world.resolv == original && Ending(t.ctx.state)
  {
    DeliverRestores(HandOver(s, Judge(call, wireless).servers, ModeOf(call.mode)), UpdateEvent, env, original);
  }

  lemma StatusRestores(s: System, content: string, loaded: bool, env: Env, original: Contents)
    requires ValidEnv(env) && RestInv(s, original) && env.revert.Written?
    requires ReactReverts(s, Stimulus(StatusChanged(content, loaded), env))
    ensures var t := React(s, Stimulus(StatusChanged(content, loaded), env));
      t.world.resolv == original && Ending(t.ctx.state)
  {
    DeliverRestores(LoadFile(s, loaded), JobEvent(s.ctx.expected, content), env, original);
  }

  lemma ReactRestores(s: System, st: Stimulus, original: Contents)
    requires ValidEnv(st.env) && RestInv(s, original) && ReactReverts(s, st) && st.env.revert.Written?
    ensures React(s, st).world.resolv == original && Ending(React(s, st).ctx.state)
  {
    match st.input
    case UpdateCall(call, wireless) => HandleUpdateRestores(s, call, wireless, st.env, original);
    case ReloadCall => DeliverRestores(s, Reload, st.env, original);
    case StatusChanged(content, loaded) => StatusRestores(s, content, loaded, st.env, original);
    case Terminate => DeliverRestores(s, Stop, st.env, original);
    case NameAcquired => DeliverRestores(s, Kickoff, st.env, original);
  }

  /** In every run, a file given back on the way through REVERTING, whatever led there, is
      the original and stays it to the end. */
  lemma {:induction false} RestoredForGood(config: Config, world: World, h: History, st: Stimulus, k: History)
    requires world.control == [] && ValidHistory(h) && ValidHistory(k) && ValidEnv(st.env)
    requires ReactReverts(Run(Init(config, world), h), st) && st.env.revert.Written?
    ensures var t := React(Run(Init(config, world), h), st);
      Resting(t) && Run(t, k).world.resolv == world.resolv
  {
    InitInv(config, world);
    RunKeeps(Init(config, world), h, world.resolv);
    var s := Run(Init(config, world), h);
    ReactRestores(s, st, world.resolv);
    ReactRests(s, st);
    StopIsIrrevocable(React(s, st), k);
  }

  lemma StopEnds(s: System, env: Env)
    requires ValidEnv(env) && Resting(s)
    ensures Ending(Deliver(s, Stop, env).ctx.state)
  {
    StepFollows(s, Stop, env);
    var r := Step(s, Stop, env);
    if r.event != NoEvent {
      assert OnTheWayOut(r.sys.ctx.state);
      WayOutTransition(r.sys, r.event, env);
    }
  }
}
