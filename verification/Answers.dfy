/** The state machine seen from outside: what each input comes to, in terms of which actions
    succeed. The loop of internal events is gone; the whole way out is one answer. */
module Answers {
  import opened ServerTypes
  import opened DomainIndex
  import opened Unbound
  import opened CertificateAuthority
  import opened ResolvConf
  import opened Intake
  import opened Daemon
  import opened DaemonRuns

  // ----- When actions succeed

  lemma KickoffSucceedsIff(s: System, env: Env)
    requires ValidEnv(env)
    ensures var index := BuildIndex(s.config.staticServers + s.ctx.dynamicServers);
      StartingKickoff(s, env).event == Success <==>
        && env.subscribed && env.conf.ConfWritten?
        && EffectiveCa(index, env.indexOrder(index.Keys), s.ctx.mode, s.config.caPaths, env.readable).Some?
  {
    IndexNonEmpty(s.config.staticServers + s.ctx.dynamicServers);
  }

  lemma SetResolvConfSucceedsIff(s: System, env: Env)
    requires ValidEnv(env) && s.ctx.index.Some? && NonEmptyLists(s.ctx.index.value)
    ensures SetResolvConf(s, env).event == Success <==> (s.ctx.backup.Some? || env.backupRead) && env.resolv.Written?
  {
  }

  /** The commands of an update. */
  function Commands(s: System, env: Env): seq<Command>
    requires ValidEnv(env) && Configured(s.ctx) && NonEmptyLists(s.ctx.index.value)
  {
    var view, ledger := Target(s.ctx), LedgerOf(s.ctx);
    Plan(view, ledger, env.viewOrder(view.Keys), env.ledgerOrder(ledger.Keys))
  }

  function WantedCa(s: System, env: Env): Option<string>
    requires ValidEnv(env) && Configured(s.ctx) && NonEmptyLists(s.ctx.index.value)
  {
    var view := Target(s.ctx);
    EffectiveCa(view, env.viewOrder(view.Keys), s.ctx.mode, s.config.caPaths, env.readableLater)
  }

  lemma UpdateSucceedsIff(s: System, env: Env)
    requires ValidEnv(env) && Configured(s.ctx) && NonEmptyLists(s.ctx.index.value)
    ensures UpdateDnsManager(s, env).event == Reload <==> WantedCa(s, env).Some? && WantedCa(s, env) != s.ctx.effectiveCa
    ensures UpdateDnsManager(s, env).event == Success <==>
      && WantedCa(s, env) == s.ctx.effectiveCa
      && forall m :: 0 <= m < |Commands(s, env)| ==> env.fates(m) == Succeeds
  {
    var cs := Commands(s, env);
    if forall m :: 0 <= m < |cs| ==> env.fates(m) == Succeeds {
      AllSucceed(s.world.live, cs, env.fates, 0);
    } else {
      var m :| 0 <= m < |cs| && env.fates(m) != Succeeds;
      FailureIsNoticed(s.world.live, cs, env.fates, 0, m);
    }
  }

  lemma {:induction false} FailureIsNoticed(live: Table, cs: seq<Command>, fates: Fates, n: nat, m: nat)
    requires n <= m < n + |cs| && fates(m) != Succeeds
    ensures !Execute(live, cs, fates, n).ok
    decreases |cs|
  {
    if fates(n) == Succeeds {
      FailureIsNoticed(Apply(live, cs[0]), cs[1..], fates, n + 1, m);
    }
  }

  // ----- The way out

  /** Unbound is told to stop exactly if the status file could be written; the daemon waits for
      it exactly if the command went through, and ends at once otherwise. */
  ghost predicate StopSubmitted(s: System, t: System, env: Env) {
    && t.world.control == (if env.stop.StatusFails? then s.world.control else s.world.control + ["stop"])
    && t.ctx.state == (if env.stop.Submitted? then WaitingStopJob else Stopping)
    && t.world.quit == (s.world.quit || !env.stop.Submitted?)
    && t.ctx.requested == s.ctx.requested
  }

  /** The first failure decides the exit code. */
  ghost predicate ExitsWith(s: System, t: System, code: nat) {
    t.ctx.exitCode == if s.ctx.exitCode == 0 then code else s.ctx.exitCode
  }

  lemma {:induction false} StopJobAnswer(s: System, env: Env)
    requires ValidEnv(env) && Safe(Enter(SubmitStop(s, env), SubmittingStopJob).sys.ctx, SubmitStop(s, env).event)
    ensures var r := Enter(SubmitStop(s, env), SubmittingStopJob);
      var t := Transition(r.sys, r.event, env).sys;
      StopSubmitted(s, t, env) && t.ctx.exitCode == s.ctx.exitCode
  {
    var r := Enter(SubmitStop(s, env), SubmittingStopJob);
    OnePass(r.sys, r.event, env);
    if r.event == Failure {
      OnePass(Goto(r.sys, Stopping), Stop, env);
    }
  }

  lemma {:induction false} RevertAnswer(s: System, env: Env)
    requires ValidEnv(env) && s.ctx.backup.Some?
    requires Safe(Enter(RevertResolvConf(s, env), RevertingResolvConf).sys.ctx, RevertResolvConf(s, env).event)
    ensures var r := Enter(RevertResolvConf(s, env), RevertingResolvConf);
      var t := Transition(r.sys, r.event, env).sys;
      StopSubmitted(s, t, env) && t.ctx.exitCode == s.ctx.exitCode
  {
    var r := Enter(RevertResolvConf(s, env), RevertingResolvConf);
    OnePass(r.sys, r.event, env);
    StopJobAnswer(r.sys, env);
  }

  /** A stop from RUNNING, or while a start is awaited. */
  lemma {:induction false} StopIsSubmitted(s: System, env: Env)
    requires ValidEnv(env) && Resting(s) && s.ctx.state in {WaitingForStartJob, Running}
    ensures var t := Transition(s, Stop, env).sys; StopSubmitted(s, t, env) && t.ctx.exitCode == s.ctx.exitCode
  {
    OnePass(s, Stop, env);
    if s.ctx.state == Running {
      RevertAnswer(s, env);
    } else {
      StopJobAnswer(s, env);
    }
  }

  // ----- Setting resolv.conf and updating Unbound

  /** From a context p that has to be put into effect: a failure to write resolv.conf stops
      Unbound with exit code 10, a failing update with 16; an update that needs another CA
      restarts it; else the daemon runs, and p's serial is the one in effect. */
  ghost predicate PutIntoEffect(p: System, t: System, env: Env)
    requires ValidEnv(env) && Configured(p.ctx) && NonEmptyLists(p.ctx.index.value)
  {
    var r := SetResolvConf(p, env);
    SetResolvConfEffect(p, env);
    if r.event != Success then StopSubmitted(p, t, env) && ExitsWith(p, t, 10)
    else
      var u := Goto(r.sys, SettingResolvConf);
      match UpdateDnsManager(u, env).event
      case Success => Runs(p, t)
      case Reload => Restarted(p, t, env)
      case _ => StopSubmitted(p, t, env) && ExitsWith(p, t, 16)
  }

  ghost predicate Runs(p: System, t: System) {
    && t.ctx.state == Running && t.ctx.requested == t.ctx.current == p.ctx.requested
    && t.ctx.exitCode == p.ctx.exitCode
    && t.world.control == p.world.control && t.world.quit == p.world.quit
  }

  lemma {:induction false} UpdateAnswer(p: System, u: System, env: Env)
    requires ValidEnv(env) && u.ctx.state == SettingResolvConf && Safe(u.ctx, Success)
    requires u.ctx == p.ctx.(state := u.ctx.state, backup := u.ctx.backup) && u.config == p.config
    requires u.world == p.world.(resolv := u.world.resolv)
    ensures var t := Transition(u, Success, env).sys;
      match UpdateDnsManager(u, env).event
      case Success => Runs(p, t)
      case Reload => Restarted(p, t, env)
      case _ => StopSubmitted(p, t, env) && ExitsWith(p, t, 16)
  {
    OnePass(u, Success, env);
    UpdateDnsManagerEffect(u, env);
    var q := Enter(UpdateDnsManager(u, env), UpdatingDnsManager);
    if q.event == Reload {
      ReloadRestarts(q.sys, Reload, env);
      SameKickoff(p, q.sys, env);
    } else {
      OnePass(q.sys, q.event, env);
      if q.event == Failure {
        RevertAnswer(SetExitCode(q.sys, EXIT_UPDATE_FAILURE), env);
      }
    }
  }

  lemma {:induction false} EffectAnswer(p: System, env: Env)
    requires ValidEnv(env) && Configured(p.ctx) && NonEmptyLists(p.ctx.index.value)
    requires p.ctx.ledger.Some? ==> NonEmptyLists(p.ctx.ledger.value)
    ensures var r := Enter(SetResolvConf(p, env), SettingResolvConf);
      Safe(r.sys.ctx, r.event) && PutIntoEffect(p, Transition(r.sys, r.event, env).sys, env)
  {
    SetResolvConfEffect(p, env);
    var r := Enter(SetResolvConf(p, env), SettingResolvConf);
    if r.event == Success {
      UpdateAnswer(p, r.sys, env);
    } else {
      OnePass(r.sys, Failure, env);
      StopJobAnswer(SetExitCode(r.sys, EXIT_RESOLV_CONF_FAILURE), env);
    }
  }

  // ----- Every event, in every state of rest

  /** The main loop is left. */
  function Quit(s: System, state: State): System {
    Goto(s, state).(world := s.world.(quit := true))
  }

  ghost predicate Answered(s: System, e: Event, t: System, env: Env)
    requires ValidEnv(env) && Resting(s)
  {
    match s.ctx.state
    case Starting =>
      if e == Kickoff then Restarted(s, t, env)
      else if e == UpdateEvent then t == AcceptUpdate(s)
      else if e == Stop then t == Quit(s, Stopping)
      else t == s
    case WaitingForStartJob =>
      if e == JobSuccess then PutIntoEffect(s, t, env)
      else if e == JobFailure then FailedStart(s, t)
      else if e == UpdateEvent then t == AcceptUpdate(s)
      else if e == Reload then Restarted(s, t, env)
      else StopSubmitted(s, t, env) && t.ctx.exitCode == s.ctx.exitCode
    case Running =>
      if e == UpdateEvent then (UpdatedIndexIsSafe(s); PutIntoEffect(AcceptUpdate(s), t, env))
      else if e == Reload then Restarted(s, t, env)
      else StopSubmitted(s, t, env) && t.ctx.exitCode == s.ctx.exitCode
    case WaitingStopJob => t == if e == JobSuccess || e == JobFailure then Quit(s, Stopping) else s
    case _ => t == Quit(s, Stopping)
  }

  ghost predicate FailedStart(s: System, t: System) {
    && t.ctx.state == Stopping && t.world.quit
    && t.world.control == s.world.control && ExitsWith(s, t, 8)
  }

  lemma {:induction false} StartingAnswers(s: System, e: Event, env: Env)
    requires ValidEnv(env) && Resting(s) && s.ctx.state == Starting && Accepts(Starting, e)
    ensures Answered(s, e, Transition(s, e, env).sys, env)
  {
    if e == Kickoff {
      ReloadRestarts(s, e, env);
    } else {
      OnePass(s, e, env);
      if e == Stop {
        OnePass(Goto(s, Stopping), Stop, env);
      }
    }
  }

  lemma {:induction false} WaitingAnswers(s: System, e: Event, env: Env)
    requires ValidEnv(env) && Resting(s) && s.ctx.state == WaitingForStartJob && Accepts(WaitingForStartJob, e)
    ensures Answered(s, e, Transition(s, e, env).sys, env)
  {
    if e == Reload {
      ReloadRestarts(s, e, env);
    } else if e == Stop {
      StopIsSubmitted(s, env);
    } else {
      OnePass(s, e, env);
      if e == JobSuccess {
        EffectAnswer(s, env);
      } else if e == JobFailure {
        OnePass(Goto(SetExitCode(s, EXIT_SERVICE_FAILURE), Stopping), Stop, env);
      }
    }
  }

  lemma {:induction false} RunningAnswers(s: System, e: Event, env: Env)
    requires ValidEnv(env) && Resting(s) && s.ctx.state == Running && Accepts(Running, e)
    ensures Answered(s, e, Transition(s, e, env).sys, env)
  {
    if e == Reload {
      ReloadRestarts(s, e, env);
    } else if e == Stop {
      StopIsSubmitted(s, env);
    } else {
      OnePass(s, e, env);
      UpdatedIndexIsSafe(s);
      EffectAnswer(AcceptUpdate(s), env);
    }
  }

  lemma {:induction false} EndingAnswers(s: System, e: Event, env: Env)
    requires ValidEnv(env) && Resting(s) && Ending(s.ctx.state) && Accepts(s.ctx.state, e)
    ensures Answered(s, e, Transition(s, e, env).sys, env)
  {
    OnePass(s, e, env);
    if s.ctx.state == WaitingStopJob && (e == JobSuccess || e == JobFailure) {
      OnePass(Goto(s, Stopping), Stop, env);
    }
  }

  /** The loop comes to exactly this, for every event that a state of rest accepts. */
  lemma {:induction false} TransitionAnswers(s: System, e: Event, env: Env)
    requires ValidEnv(env) && Resting(s) && Accepts(s.ctx.state, e)
    ensures Answered(s, e, Transition(s, e, env).sys, env)
  {
    match s.ctx.state
    case Starting => StartingAnswers(s, e, env);
    case WaitingForStartJob => WaitingAnswers(s, e, env);
    case Running => RunningAnswers(s, e, env);
    case _ => EndingAnswers(s, e, env);
  }

  // ----- Every input

  /** A handler whose event the state machine refuses ends the process with this code. */
  ghost predicate GivesUp(s: System, t: System, code: nat) {
    t == s.(ctx := s.ctx.(exitCode := code), world := s.world.(quit := true))
  }

  /** What the status file means: the answer to an awaited job, its failure, or a service that
      is down; anything else, at any other time, changes nothing. */
  ghost predicate StatusAnswered(s: System, content: string, t: System, env: Env)
    requires ValidEnv(env) && Resting(s)
  {
    if s.ctx.state == WaitingForStartJob && content == "ready" then Answered(s, JobSuccess, t, env)
    else if s.ctx.state == WaitingStopJob && content == "stopped" then Answered(s, JobSuccess, t, env)
    else if s.ctx.state in {WaitingForStartJob, WaitingStopJob} && content == "fail" then Answered(s, JobFailure, t, env)
    else if s.ctx.state in {WaitingForStartJob, Running} && content == "stopped" then Restarted(s, t, env)
    else t == s
  }

  ghost predicate InputAnswered(s: System, st: Stimulus, t: System)
    requires ValidEnv(st.env) && Resting(s)
  {
    match st.input
    case UpdateCall(call, _) =>
      if !AcceptedUpdate(st) then t == s
      else if s.ctx.state == Stopping then GivesUp(HandOver(s, HandedOver(st), ModeOf(call.mode)), t, 17)
      else Answered(HandOver(s, HandedOver(st), ModeOf(call.mode)), UpdateEvent, t, st.env)
    case ReloadCall => if s.ctx.state == Stopping then GivesUp(s, t, 17) else Answered(s, Reload, t, st.env)
    case StatusChanged(content, loaded) => StatusAnswered(LoadFile(s, loaded), content, t, st.env)
    case Terminate => Answered(s, Stop, t, st.env)
    case NameAcquired => if s.ctx.state == Starting then Answered(s, Kickoff, t, st.env) else GivesUp(s, t, 17)
    case NameLost => GivesUp(s, t, 9)
  }

  lemma DeliverAnswers(s: System, e: Event, env: Env)
    requires ValidEnv(env) && Resting(s)
    ensures if Accepts(s.ctx.state, e) then Answered(s, e, Deliver(s, e, env), env) else GivesUp(s, Deliver(s, e, env), 17)
  {
    LoopTerminates(s, e, env);
    if Accepts(s.ctx.state, e) {
      TransitionAnswers(s, e, env);
    }
  }

  lemma StatusAnswers(s: System, content: string, env: Env)
    requires ValidEnv(env) && Resting(s) && AwaitsRightStatus(s)
    ensures StatusAnswered(s, content, React(s, Stimulus(StatusChanged(content, false), env)), env)
  {
    var e := JobEvent(s.ctx.expected, content);
    StatusMeans(s, content);
    LoopTerminates(s, e, env);
    if Accepts(s.ctx.state, e) {
      TransitionAnswers(s, e, env);
    }
  }

  /** What the status file reports to a state, if the state cares. */
  lemma StatusMeans(s: System, content: string)
    requires Resting(s) && AwaitsRightStatus(s)
    ensures var e, state := JobEvent(s.ctx.expected, content), s.ctx.state;
      && (state == WaitingForStartJob && content == "ready" ==> e == JobSuccess)
      && (state == WaitingStopJob && content == "stopped" ==> e == JobSuccess)
      && (state in {WaitingForStartJob, WaitingStopJob} && content == "fail" ==> e == JobFailure)
      && (state in {Starting, WaitingForStartJob, Running} && content == "stopped" ==> e == Reload)
      && (content !in {"ready", "fail", "stopped"} && state != Stopping ==> e == NoEvent)
      && (state == WaitingStopJob && content == "ready" ==> e == NoEvent)
      && (state == Stopping ==> e != Stop)
  {
  }

  lemma StatusAfterLoading(s: System, content: string, loaded: bool, env: Env)
    requires ValidEnv(env) && Resting(s)
    ensures React(s, Stimulus(StatusChanged(content, loaded), env))
         == React(LoadFile(s, loaded), Stimulus(StatusChanged(content, false), env))
  {
  }

  lemma UpdateAnswers(s: System, st: Stimulus)
    requires ValidEnv(st.env) && Resting(s) && st.input.UpdateCall?
    ensures InputAnswered(s, st, HandleUpdate(s, st.input.call, st.input.wireless, st.env).sys)
  {
    if AcceptedUpdate(st) {
      DeliverAnswers(HandOver(s, HandedOver(st), ModeOf(st.input.call.mode)), UpdateEvent, st.env);
    }
  }

  lemma ReactAnswers(s: System, st: Stimulus)
    requires ValidEnv(st.env) && Resting(s) && AwaitsRightStatus(s)
    ensures InputAnswered(s, st, React(s, st))
  {
    match st.input
    case UpdateCall(_, _) => UpdateAnswers(s, st);
    case ReloadCall => DeliverAnswers(s, Reload, st.env);
    case StatusChanged(content, loaded) =>
      StatusAfterLoading(s, content, loaded, st.env);
      StatusAnswers(LoadFile(s, loaded), content, st.env);
    case Terminate => DeliverAnswers(s, Stop, st.env);
    case NameAcquired => DeliverAnswers(s, Kickoff, st.env);
    case NameLost =>
  }

  /** The reply to an accepted call is the serial it will have: the next one, or the one after
      if Unbound had to be restarted for it; the same as before once the daemon stops. When the
      daemon runs afterwards, that serial is the one in effect. */
  lemma ReplyIsTheNewSerial(s: System, st: Stimulus)
    requires ValidEnv(st.env) && Resting(s) && AcceptedUpdate(st)
    ensures var r := HandleUpdate(s, st.input.call, st.input.wireless, st.env);
      && (s.ctx.state in {Starting, WaitingForStartJob} ==> r.serial == SerialAfter(s.ctx.requested, 1))
      && (s.ctx.state == Running ==>
            r.serial == SerialAfter(s.ctx.requested, if r.sys.ctx.state == WaitingForStartJob then 2 else 1)
            || (r.serial == SerialAfter(s.ctx.requested, 2) && r.sys.ctx.state == Stopping))
      && (s.ctx.state == Running && r.sys.ctx.state == Running ==> r.serial == r.sys.ctx.current)
      && (Ending(s.ctx.state) ==> r.serial == s.ctx.requested)
  {
    var p := HandOver(s, HandedOver(st), ModeOf(st.input.call.mode));
    UpdateAnswers(s, st);
    if s.ctx.state == Running {
      UpdatedIndexIsSafe(p);
      SerialsOfEffect(AcceptUpdate(p), HandleUpdate(s, st.input.call, st.input.wireless, st.env).sys, st.env);
    }
    assert SerialAfter(s.ctx.requested, 1) == NextSerial(SerialAfter(s.ctx.requested, 0));
    assert SerialAfter(s.ctx.requested, 2) == NextSerial(SerialAfter(s.ctx.requested, 1));
  }

  lemma SerialsOfEffect(p: System, t: System, env: Env)
    requires ValidEnv(env) && Configured(p.ctx) && NonEmptyLists(p.ctx.index.value) && PutIntoEffect(p, t, env)
    ensures t.ctx.requested == p.ctx.requested || t.ctx.requested == NextSerial(p.ctx.requested)
    ensures t.ctx.state == WaitingForStartJob ==> t.ctx.requested == NextSerial(p.ctx.requested)
    ensures t.ctx.state in {Running, WaitingStopJob} ==> t.ctx.requested == p.ctx.requested
    ensures t.ctx.state == Running ==> t.ctx.current == t.ctx.requested
    ensures t.ctx.state in {WaitingForStartJob, Running, WaitingStopJob, Stopping}
  {
  }

  /** After any run, whatever comes next is answered so. */
  lemma {:induction false} EveryInputIsAnswered(config: Config, world: World, h: History, st: Stimulus)
    requires world.control == [] && ValidHistory(h) && ValidEnv(st.env)
    ensures InputAnswered(Run(Init(config, world), h), st, React(Run(Init(config, world), h), st))
  {
    EveryRunIsSane(config, world, h);
    ReactAnswers(Run(Init(config, world), h), st);
  }
}
