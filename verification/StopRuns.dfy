/** Two runs, with every action successful, that show what a stop can leave behind: the
    generated resolv.conf, and server records that nobody frees. */
module StopRuns {
  import opened ServerTypes
  import opened Intake
  import opened Daemon
  import opened DaemonRuns
  import opened LostLists
  import opened StaleZone

  /** A daemon without servers of its own, before its start. */
  ghost predicate Fresh(s: System, ca: string) {
    s == Init(Config([], [ca], s.config.resolverOptions, s.config.listenAddress), s.world)
  }

  lemma NobodyHasNoOwnCa(s: System, env: Env)
    requires ValidEnv(env) && s.config.staticServers + s.ctx.dynamicServers == []
    ensures NoOwnCa(s, env)
  {
    NoServerView();
    EmptyOrder(env.indexOrder({}));
  }

  /** A start that all goes well with, and what it leaves alone. */
  lemma NobodyWaits(s: System, st: Stimulus, ca: string)
    requires AllGoesWell(st.env) && Resting(s) && s.config.caPaths == [ca]
    requires s.config.staticServers + s.ctx.dynamicServers == []
    requires (s.ctx.state == Starting && st.input == NameAcquired) || (s.ctx.state == Running && st.input == ReloadCall)
    ensures Resting(React(s, st)) && EmptyStart(s, React(s, st), ca)
  {
    NobodyHasNoOwnCa(s, st.env);
    StartWaits(s, if st.input == NameAcquired then Kickoff else Reload, st.env, ca);
    ReactRests(s, st);
    NoServerView();
  }

  ghost predicate EmptyStart(s: System, t: System, ca: string) {
    && t.config == s.config
    && t.ctx.state == WaitingForStartJob && t.ctx.index == Some(map[])
    && t.ctx.effectiveCa == Some(ca) && t.ctx.expected == Some("ready")
    && t.ctx.ledger == s.ctx.ledger && t.ctx.dynamicServers == s.ctx.dynamicServers
    && t.world.resolv == s.world.resolv && t.world.quit == s.world.quit
  }

  // ----- The generated file

  ghost function Started(env: Env): History {
    [Stimulus(NameAcquired, env), Stimulus(StatusChanged("ready", true), env)]
  }

  ghost function StoppedWhileRestarting(env: Env): History {
    [Stimulus(ReloadCall, env), Stimulus(Terminate, env)]
  }

  lemma {:induction false} StartedRuns(s: System, env: Env, ca: string)
    requires AllGoesWell(env) && Fresh(s, ca) && Resting(s)
    ensures var t := Run(s, Started(env));
      && t.ctx.state == Running && t.config == s.config
      && t.ctx.dynamicServers == [] && t.world.resolv.Generated?
  {
    var h := Started(env);
    RunOfTwo(s, h);
    assert s.config.staticServers + s.ctx.dynamicServers == [];
    NobodyWaits(s, h[0], ca);
    ReadyRuns(React(s, h[0]), env, ca);
  }

  lemma TerminateKeepsFile(s: System, st: Stimulus)
    requires ValidEnv(st.env) && Resting(s) && s.ctx.state != Running && st.input == Terminate
    ensures Ending(React(s, st).ctx.state) && React(s, st).world.resolv == s.world.resolv
  {
    StopElsewhereKeepsResolv(s, st.env);
    StopEnds(s, st.env);
  }

  lemma {:induction false} StoppedKeepsFile(s: System, env: Env, ca: string)
    requires AllGoesWell(env) && Resting(s) && s.ctx.state == Running
    requires s.config.staticServers == [] && s.ctx.dynamicServers == [] && s.config.caPaths == [ca]
    ensures var t := Run(s, StoppedWhileRestarting(env));
      Ending(t.ctx.state) && t.world.resolv == s.world.resolv
  {
    var h := StoppedWhileRestarting(env);
    RunOfTwo(s, h);
    assert s.config.staticServers + s.ctx.dynamicServers == [];
    NobodyWaits(s, h[0], ca);
    TerminateKeepsFile(React(s, h[0]), h[1]);
  }

  /** Started, told to reload and terminated before Unbound is back, the daemon leaves its
      generated file in the place of the original, for good. */
  lemma {:induction false} StopDuringRestartLosesOriginal(s: System, env: Env, ca: string, k: History)
    requires AllGoesWell(env) && Fresh(s, ca) && Resting(s) && s.world.resolv.Text? && ValidHistory(k)
    ensures var t := Run(s, Started(env) + StoppedWhileRestarting(env));
      Ending(t.ctx.state) && Run(t, k).world.resolv.Generated? && Run(t, k).world.resolv != s.world.resolv
  {
    StartedRuns(s, env, ca);
    StoppedKeepsFile(Run(s, Started(env)), env, ca);
    RunInTwoParts(s, Started(env), StoppedWhileRestarting(env));
    StopIsIrrevocable(Run(s, Started(env) + StoppedWhileRestarting(env)), k);
  }

  // ----- The records

  ghost function StoppedWhileStarting(env: Env): History {
    [Stimulus(NameAcquired, env), Stimulus(Terminate, env)]
  }

  lemma TerminateWaits(s: System, st: Stimulus)
    requires AllGoesWell(st.env) && Resting(s) && s.ctx.state == WaitingForStartJob && st.input == Terminate
    ensures React(s, st).ctx.state == WaitingStopJob && React(s, st).world.quit == s.world.quit
  {
    LoopTerminates(s, Stop, st.env);
    OnePass(s, Stop, st.env);
    var r := Enter(SubmitStop(s, st.env), SubmittingStopJob);
    OnePass(r.sys, Success, st.env);
  }

  lemma {:induction false} StopAwaited(s: System, env: Env, ca: string)
    requires AllGoesWell(env) && Fresh(s, ca) && Resting(s)
    ensures var t := Run(s, StoppedWhileStarting(env)); t.ctx.state == WaitingStopJob && t.world.quit == s.world.quit
  {
    var h := StoppedWhileStarting(env);
    RunOfTwo(s, h);
    assert s.config.staticServers + s.ctx.dynamicServers == [];
    NobodyWaits(s, h[0], ca);
    TerminateWaits(React(s, h[0]), h[1]);
  }

  /** An update while the stop is awaited is answered, and the daemon goes on waiting. */
  lemma UpdateWhileStopping(s: System, st: Stimulus)
    requires ValidEnv(st.env) && Resting(s) && s.ctx.state == WaitingStopJob && AcceptedUpdate(st)
    ensures var t := React(s, st); t.ctx.state == WaitingStopJob && t.world.quit == s.world.quit
  {
    var t := HandOver(s, HandedOver(st), ModeOf(st.input.call.mode));
    LoopTerminates(t, UpdateEvent, st.env);
    OnePass(t, UpdateEvent, st.env);
  }

  lemma {:induction false} TwoUpdatesWhileStopping(s: System, x: Stimulus, y: Stimulus)
    requires ValidEnv(x.env) && ValidEnv(y.env) && AcceptedUpdate(x) && AcceptedUpdate(y)
    requires Resting(s) && s.ctx.state == WaitingStopJob
    ensures var t := Run(s, [x, y]); t.ctx.state == WaitingStopJob && t.world.quit == s.world.quit
  {
    RunOfTwo(s, [x, y]);
    UpdateWhileStopping(s, x);
    UpdateWhileStopping(React(s, x), y);
  }

  /** Terminated while Unbound starts, the daemon loses the servers of any update that comes
      while it waits for Unbound to stop, if another one follows. It has not quit by then. */
  lemma {:induction false} UpdatesDuringStopAreLost(s: System, env: Env, ca: string, x: Stimulus, y: Stimulus)
    requires AllGoesWell(env) && Fresh(s, ca) && Resting(s) && !s.world.quit
    requires ValidEnv(x.env) && ValidEnv(y.env) && AcceptedUpdate(x) && AcceptedUpdate(y) && HandedOver(x) != []
    ensures var h := StoppedWhileStarting(env) + [x, y];
      LostServers(s, h) != [] && !Run(s, h).world.quit
  {
    var start := StoppedWhileStarting(env);
    var h := start + [x, y];
    StopAwaited(s, env, ca);
    RunInTwoParts(s, start, [x, y]);
    TwoUpdatesWhileStopping(Run(s, start), x, y);
    assert h[..2] == start && h[2] == x && h[3..] == [y];
    assert AcceptedUpdate(h[3..][0]);
    assert LateUpdate(s, h, 2);
    LosesIffTwoLateUpdates(s, h);
  }
}
