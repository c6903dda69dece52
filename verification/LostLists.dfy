/** Which server lists are lost: a handed-over list that is overwritten before the state
    machine takes it is never freed. When that happens is proved for whole runs. */
module LostLists {
  import opened ServerTypes
  import opened ResolvConf
  import opened Intake
  import opened Daemon
  import opened DaemonRuns

  /** The servers whose list a stimulus overwrites. */
  function Overwritten(s: System, st: Stimulus): seq<Server> {
    if AcceptedUpdate(st) then s.ctx.pending else []
  }

  /** All servers whose lists are lost in a run. */
  function LostServers(s: System, h: History): seq<Server>
    requires ValidHistory(h) && Resting(s)
    decreases |h|
  {
    if h == [] then []
    else
      ReactRests(s, h[0]);
      Overwritten(s, h[0]) + LostServers(React(s, h[0]), h[1..])
  }

  // ----- When it happens

  /** At rest something is pending only while the daemon stops, and then for good. */
  lemma {:induction false} EndingKeepsPending(s: System, e: Event, env: Env)
    requires ValidEnv(env) && Resting(s) && Ending(s.ctx.state)
    ensures Transition(s, e, env).sys.ctx.pending == s.ctx.pending
    ensures Deliver(s, e, env).ctx.pending == s.ctx.pending
  {
    if Accepts(s.ctx.state, e) {
      OnePass(s, e, env);
      if s.ctx.state == WaitingStopJob && (e == JobSuccess || e == JobFailure) {
        OnePass(Goto(s, Stopping), Stop, env);
      }
    }
  }

  /** While the daemon stops, the last list handed over is the pending one. */
  lemma EndingPending(s: System, st: Stimulus)
    requires ValidEnv(st.env) && Resting(s) && Ending(s.ctx.state)
    ensures React(s, st).ctx.pending == if AcceptedUpdate(st) then HandedOver(st) else s.ctx.pending
  {
    match st.input
    case UpdateCall(call, wireless) =>
      if AcceptedUpdate(st) {
        EndingKeepsPending(HandOver(s, HandedOver(st), ModeOf(call.mode)), UpdateEvent, st.env);
      }
    case ReloadCall => EndingKeepsPending(s, Reload, st.env);
    case StatusChanged(content, loaded) =>
      EndingKeepsPending(LoadFile(s, loaded), JobEvent(s.ctx.expected, content), st.env);
    case Terminate => EndingKeepsPending(s, Stop, st.env);
    case NameAcquired => EndingKeepsPending(s, Kickoff, st.env);
    case NameLost =>
  }

  lemma StepTakesPending(s: System, e: Event, env: Env)
    requires ValidEnv(env) && Safe(s.ctx, e) && Accepts(s.ctx.state, e)
    requires s.ctx.pending == [] || (e == UpdateEvent && s.ctx.state in {Starting, WaitingForStartJob, Running})
    ensures Step(s, e, env).sys.ctx.pending == []
  {
    if s.ctx.state in {Starting, WaitingForStartJob, UpdatingDnsManager, Running} && e in {Kickoff, Reload} {
      KickoffEffect(s, env);
    } else if s.ctx.state == WaitingForStartJob && e == JobSuccess {
      SetResolvConfEffect(s, env);
    } else if s.ctx.state == Running && e == UpdateEvent {
      UpdatedIndexIsSafe(s);
      SetResolvConfEffect(AcceptUpdate(s), env);
    } else if s.ctx.state == SettingResolvConf && e == Success {
      UpdateDnsManagerEffect(s, env);
    }
  }

  lemma {:induction false} TransitionTakesPending(s: System, e: Event, env: Env)
    requires ValidEnv(env) && Safe(s.ctx, e)
    requires s.ctx.pending == [] || (e == UpdateEvent && s.ctx.state in {Starting, WaitingForStartJob, Running})
    ensures Transition(s, e, env).sys.ctx.pending == []
    decreases Depth(s.ctx.state)
  {
    if Accepts(s.ctx.state, e) {
      OnePass(s, e, env);
      StepTakesPending(s, e, env);
      var r := Step(s, e, env);
      if r.event != NoEvent {
        TransitionTakesPending(r.sys, r.event, env);
      }
    }
  }

  /** Before the daemon stops, whatever is handed over is taken at once. */
  lemma TakenAtOnce(s: System, st: Stimulus)
    requires ValidEnv(st.env) && Resting(s) && !Ending(s.ctx.state) && s.ctx.pending == []
    ensures React(s, st).ctx.pending == []
  {
    match st.input
    case UpdateCall(call, wireless) =>
      if AcceptedUpdate(st) {
        TransitionTakesPending(HandOver(s, HandedOver(st), ModeOf(call.mode)), UpdateEvent, st.env);
      }
    case ReloadCall => TransitionTakesPending(s, Reload, st.env);
    case StatusChanged(content, loaded) =>
      TransitionTakesPending(LoadFile(s, loaded), JobEvent(s.ctx.expected, content), st.env);
    case Terminate => TransitionTakesPending(s, Stop, st.env);
    case NameAcquired => TransitionTakesPending(s, Kickoff, st.env);
    case NameLost =>
  }

  /** Some update of a history is accepted. */
  predicate SomeAccepted(h: History) {
    exists j :: 0 <= j < |h| && AcceptedUpdate(h[j])
  }

  /** While the daemon stops, an update hands over servers and a later one is accepted. */
  ghost predicate TwoLateUpdates(s: System, h: History)
    requires ValidHistory(h) && Resting(s)
  {
    exists i :: 0 <= i < |h| && LateUpdate(s, h, i) && SomeAccepted(h[i + 1..])
  }

  /** The i-th stimulus hands over servers while the daemon stops. */
  ghost predicate LateUpdate(s: System, h: History, i: nat)
    requires ValidHistory(h) && Resting(s) && i < |h|
  {
    Ending(Run(s, h[..i]).ctx.state) && AcceptedUpdate(h[i]) && HandedOver(h[i]) != []
  }

  lemma SomeAcceptedStep(h: History)
    requires h != []
    ensures SomeAccepted(h) <==> AcceptedUpdate(h[0]) || SomeAccepted(h[1..])
  {
    if j :| 0 <= j < |h| && AcceptedUpdate(h[j]) {
      if j > 0 {
        assert AcceptedUpdate(h[1..][j - 1]);
      }
    }
    if j :| 0 <= j < |h[1..]| && AcceptedUpdate(h[1..][j]) {
      assert AcceptedUpdate(h[j + 1]);
    }
  }

  lemma PrefixOfTail<T>(h: seq<T>, i: nat)
    requires 0 < i <= |h|
    ensures h[..i] != [] && h[..i][0] == h[0] && h[..i][1..] == h[1..][..i - 1]
  {
  }

  lemma SuffixOfTail<T>(h: seq<T>, i: nat)
    requires 0 < i <= |h|
    ensures h[1..][i - 1..] == h[i..]
  {
  }

  lemma LateUpdateStep(s: System, h: History, i: nat)
    requires ValidHistory(h) && Resting(s) && 0 < i < |h|
    ensures Resting(React(s, h[0]))
    ensures LateUpdate(s, h, i) <==> LateUpdate(React(s, h[0]), h[1..], i - 1)
  {
    ReactRests(s, h[0]);
    PrefixOfTail(h, i);
  }

  lemma LaterTwoLate(s: System, h: History, i: nat)
    requires ValidHistory(h) && Resting(s) && 0 < i < |h|
    requires LateUpdate(s, h, i) && SomeAccepted(h[i + 1..])
    ensures Resting(React(s, h[0])) && TwoLateUpdates(React(s, h[0]), h[1..])
  {
    LateUpdateStep(s, h, i);
    SuffixOfTail(h, i + 1);
    assert LateUpdate(React(s, h[0]), h[1..], i - 1);
  }

  lemma EarlierTwoLate(s: System, h: History)
    requires ValidHistory(h) && Resting(s) && h != []
    requires Resting(React(s, h[0])) && TwoLateUpdates(React(s, h[0]), h[1..])
    ensures TwoLateUpdates(s, h)
  {
    var i :| 0 <= i < |h[1..]| && LateUpdate(React(s, h[0]), h[1..], i) && SomeAccepted(h[1..][i + 1..]);
    LateUpdateStep(s, h, i + 1);
    SuffixOfTail(h, i + 2);
    assert LateUpdate(s, h, i + 1);
  }

  lemma TwoLateStep(s: System, h: History)
    requires ValidHistory(h) && Resting(s) && h != []
    ensures Resting(React(s, h[0]))
    ensures TwoLateUpdates(s, h) <==>
      (LateUpdate(s, h, 0) && SomeAccepted(h[1..])) || TwoLateUpdates(React(s, h[0]), h[1..])
  {
    ReactRests(s, h[0]);
    if i :| 0 <= i < |h| && LateUpdate(s, h, i) && SomeAccepted(h[i + 1..]) {
      if i > 0 {
        LaterTwoLate(s, h, i);
      }
    }
    if TwoLateUpdates(React(s, h[0]), h[1..]) {
      EarlierTwoLate(s, h);
    }
  }

  /** Once something is pending for good, any accepted update loses it. */
  lemma {:induction false} PendingIsLostIff(s: System, h: History)
    requires ValidHistory(h) && Resting(s) && Ending(s.ctx.state) && s.ctx.pending != []
    ensures LostServers(s, h) != [] <==> SomeAccepted(h)
    decreases |h|
  {
    if h != [] {
      SomeAcceptedStep(h);
      EndingPending(s, h[0]);
      EndingReact(s, h[0]);
      ReactRests(s, h[0]);
      if !AcceptedUpdate(h[0]) {
        PendingIsLostIff(React(s, h[0]), h[1..]);
      }
    }
  }

  lemma {:induction false} LaterLateUpdateIsAccepted(s: System, h: History)
    requires ValidHistory(h) && Resting(s) && TwoLateUpdates(s, h)
    ensures SomeAccepted(h)
  {
    var i :| 0 <= i < |h| && LateUpdate(s, h, i) && SomeAccepted(h[i + 1..]);
    assert AcceptedUpdate(h[i]);
  }

  lemma NextPending(s: System, h: History)
    requires ValidHistory(h) && Resting(s) && s.ctx.pending == [] && h != []
    ensures React(s, h[0]).ctx.pending != [] <==> LateUpdate(s, h, 0)
    ensures Ending(s.ctx.state) ==> Ending(React(s, h[0]).ctx.state)
  {
    assert h[..0] == [];
    if Ending(s.ctx.state) {
      EndingPending(s, h[0]);
      EndingReact(s, h[0]);
    } else {
      TakenAtOnce(s, h[0]);
    }
  }

  /** A run loses servers exactly when one update hands over servers while the daemon stops
      and another is accepted after it. */
  lemma {:induction false} LosesIffTwoLateUpdates(s: System, h: History)
    requires ValidHistory(h) && Resting(s) && s.ctx.pending == []
    ensures LostServers(s, h) != [] <==> TwoLateUpdates(s, h)
    decreases |h|
  {
    if h != [] {
      TwoLateStep(s, h);
      NextPending(s, h);
      var t := React(s, h[0]);
      if t.ctx.pending == [] {
        LosesIffTwoLateUpdates(t, h[1..]);
      } else {
        PendingIsLostIff(t, h[1..]);
        if TwoLateUpdates(t, h[1..]) {
          LaterLateUpdateIsAccepted(t, h[1..]);
        }
      }
    }
  }
}
