/** Whether a start settles. The CA written at a start is chosen among all servers of the
    index, by lowest priority value; the CA an update wants is chosen among the used ones
    only, which have the highest. When the two differ the update asks for another start. */
module ReloadLoop {
  import opened ServerTypes
  import opened DomainIndex
  import opened Unbound
  import opened CertificateAuthority
  import opened Intake
  import opened Daemon
  import opened DaemonRuns
  import opened Restart

  type Readable = string -> bool

  /** The CAs that an update of this context may come to want. */
  function WantedCas(s: System, readable: Readable): set<Option<string>>
    requires s.ctx.index.Some? && NonEmptyLists(s.ctx.index.value)
  {
    Outcomes(Target(s.ctx), s.ctx.mode, s.config.caPaths, readable)
  }

  /** The CAs that a start with this context may come to write. */
  function WrittenCas(s: System, readable: Readable): set<Option<string>>
    requires s.ctx.index.Some?
  {
    Outcomes(s.ctx.index.value, s.ctx.mode, s.config.caPaths, readable)
  }

  lemma UpdateWantsOutcome(u: System, env: Env)
    requires ValidEnv(env) && Configured(u.ctx) && NonEmptyLists(u.ctx.index.value)
    ensures var ca := EffectiveCa(Target(u.ctx), env.viewOrder(Target(u.ctx).Keys), u.ctx.mode, u.config.caPaths, env.readableLater);
      && ca in WantedCas(u, env.readableLater)
      && (UpdateDnsManager(u, env).event == Reload <==> ca.Some? && ca != u.ctx.effectiveCa)
  {
    EffectiveCaIsAnOutcome(Target(u.ctx), env.viewOrder(Target(u.ctx).Keys), u.ctx.mode, u.config.caPaths, env.readableLater);
    UpdateDnsManagerEffect(u, env);
  }

  // ----- One start

  /** "ready" leads back to waiting only through a reload asked for by the update. */
  lemma {:induction false} BackToWaiting(s: System, env: Env)
    requires ValidEnv(env) && Resting(s) && s.ctx.state == WaitingForStartJob
    ensures Transition(s, JobSuccess, env).sys.ctx.state == WaitingForStartJob ==>
      SetResolvConf(s, env).event == Success &&
      UpdateDnsManager(Goto(SetResolvConf(s, env).sys, SettingResolvConf), env).event == Reload
  {
    OnePass(s, JobSuccess, env);
    SetResolvConfEffect(s, env);
    var u := Enter(SetResolvConf(s, env), SettingResolvConf);
    if u.event == Failure {
      FailedSettingEnds(u.sys, env);
    } else {
      OnePass(u.sys, Success, env);
      UpdateDnsManagerEffect(u.sys, env);
      var q := Enter(UpdateDnsManager(u.sys, env), UpdatingDnsManager);
      if q.event == Failure {
        UnfinishedUpdateDoesNotRun(q.sys, Failure, env);
      } else if q.event == Success {
        OnePass(q.sys, Success, env);
      }
    }
  }

  /** A start settles, or fails for good, if the update can want no other CA. */
  lemma {:induction false} SettlesIfOnlyWantsCurrent(s: System, env: Env)
    requires ValidEnv(env) && Resting(s) && s.ctx.state == WaitingForStartJob
    requires WantedCas(s, env.readableLater) <= {s.ctx.effectiveCa, None}
    ensures Transition(s, JobSuccess, env).sys.ctx.state != WaitingForStartJob
  {
    BackToWaiting(s, env);
    SetResolvConfEffect(s, env);
    var u := Goto(SetResolvConf(s, env).sys, SettingResolvConf);
    UpdateWantsOutcome(u, env);
  }

  // ----- The other direction: an environment that makes it reload

  ghost function SomeOrder(keys: set<string>): (q: seq<string>)
    ensures Enumerates(q, keys)
  {
    OrderIsPossible(keys);
    var q :| Enumerates(q, keys);
    q
  }

  lemma OrderIsPossible(keys: set<string>)
    ensures exists q :: Enumerates(q, keys)
  {
    var q := OrderExists(keys);
  }

  /** All actions succeed; tables with the given keys are walked in the given order. */
  ghost function FavourableEnv(keys: set<string>, order: seq<string>, readable: Readable): (env: Env)
    requires Enumerates(order, keys)
    ensures ValidEnv(env) && env.readable == env.readableLater == readable
    ensures env.viewOrder(keys) == order
    ensures env.subscribed && env.conf.ConfWritten? && env.start.Submitted? && env.backupRead && env.resolv.Written?
  {
    var any: HashOrder := ks => SomeOrder(ks);
    var view: HashOrder := ks => if ks == keys then order else SomeOrder(ks);
    Env(true, ConfWritten, readable, any, Submitted, true, Written, any, readable, view, any,
        n => Succeeds, Written, Submitted)
  }

  lemma {:induction false} OtherCaReloads(s: System, env: Env, ca: Option<string>)
    requires ValidEnv(env) && Resting(s) && s.ctx.state == WaitingForStartJob
    requires env.subscribed && env.conf.ConfWritten? && env.start.Submitted? && env.backupRead && env.resolv.Written?
    requires EffectiveCa(Target(s.ctx), env.viewOrder(Target(s.ctx).Keys), s.ctx.mode, s.config.caPaths, env.readableLater) == ca
    requires ca.Some? && ca != s.ctx.effectiveCa
    requires StartingKickoff(s, env).event == Success
    ensures Transition(s, JobSuccess, env).sys.ctx.state == WaitingForStartJob
  {
    OnePass(s, JobSuccess, env);
    SetResolvConfEffect(s, env);
    var u := Enter(SetResolvConf(s, env), SettingResolvConf);
    assert u.event == Success;
    OnePass(u.sys, Success, env);
    UpdateWantsOutcome(u.sys, env);
    UpdateDnsManagerEffect(u.sys, env);
    var q := Enter(UpdateDnsManager(u.sys, env), UpdatingDnsManager);
    SameKickoff(s, q.sys, env);
    ReloadWaits(q.sys, env);
  }

  lemma {:induction false} ReloadWaits(q: System, env: Env)
    requires ValidEnv(env) && q.ctx.state == UpdatingDnsManager && Safe(q.ctx, Reload)
    requires env.start.Submitted? && StartingKickoff(q, env).event == Success
    ensures Transition(q, Reload, env).sys.ctx.state == WaitingForStartJob
  {
    OnePass(q, Reload, env);
    KickoffEffect(q, env);
    var r := Enter(StartingKickoff(q, env), ConfiguringDnsManager);
    StartFromConfiguring(r.sys, r.event, env);
  }

  /** A context whose start writes some CA, with the files readable now. */
  ghost predicate Startable(s: System, readable: Readable) {
    && ListsAgree(s)
    && s.ctx.index.Some? && None !in WrittenCas(s, readable)
  }

  lemma StartableKicksOff(s: System, env: Env)
    requires ValidEnv(env) && env.subscribed && env.conf.ConfWritten? && Startable(s, env.readable)
    ensures StartingKickoff(s, env).event == Success
  {
    IndexNonEmpty(s.config.staticServers + s.ctx.dynamicServers);
    var index := s.ctx.index.value;
    EffectiveCaIsAnOutcome(index, env.indexOrder(index.Keys), s.ctx.mode, s.config.caPaths, env.readable);
  }

  /** While a start job is awaited: no outcome of anything makes "ready" end in another
      reload, exactly when the update cannot want a CA other than the one in effect. */
  lemma {:induction false} SettlesIff(s: System, readable: Readable)
    requires Resting(s) && s.ctx.state == WaitingForStartJob && Startable(s, readable)
    ensures (forall env: Env :: ValidEnv(env) && env.readable == env.readableLater == readable ==>
               Transition(s, JobSuccess, env).sys.ctx.state != WaitingForStartJob)
       <==> WantedCas(s, readable) <= {s.ctx.effectiveCa, None}
  {
    if WantedCas(s, readable) <= {s.ctx.effectiveCa, None} {
      forall env: Env | ValidEnv(env) && env.readable == env.readableLater == readable
        ensures Transition(s, JobSuccess, env).sys.ctx.state != WaitingForStartJob
      {
        SettlesIfOnlyWantsCurrent(s, env);
      }
    } else {
      var ca :| ca in WantedCas(s, readable) && ca != s.ctx.effectiveCa && ca != None;
      var view := Target(s.ctx);
      var order := OutcomeIsRealised(view, s.ctx.mode, s.config.caPaths, readable, ca);
      var env := FavourableEnv(view.Keys, order, readable);
      StartableKicksOff(s, env);
      OtherCaReloads(s, env, ca);
    }
  }

  lemma {:induction false} StartLeavesOutcome(q: System, e: Event, env: Env)
    requires ValidEnv(env) && Resting(q) && StartsUnbound(q.ctx.state, e)
    ensures var s := Transition(q, e, env).sys;
      s.ctx.state == WaitingForStartJob ==>
        && s.config == q.config && s.ctx.mode == q.ctx.mode
        && s.ctx.index == Some(BuildIndex(q.config.staticServers + q.ctx.dynamicServers))
        && s.ctx.effectiveCa in WrittenCas(s, env.readable)
  {
    OnePass(q, e, env);
    KickoffEffect(q, env);
    KickoffWritesOutcome(q, env);
    var r := Enter(StartingKickoff(q, env), ConfiguringDnsManager);
    StartEnds(r.sys, r.event, env);
  }

  /** A start and the "ready" that answers it, with the same CA files readable: if the choice
      of a CA over all servers and over the used ones can only come out as the same, no hash
      order and no failure makes the daemon start Unbound once more. */
  lemma {:induction false} StartSettles(q: System, e: Event, env: Env, later: Env, ca: Option<string>)
    requires ValidEnv(env) && ValidEnv(later) && later.readableLater == env.readable
    requires Resting(q) && StartsUnbound(q.ctx.state, e)
    requires var index := BuildIndex(q.config.staticServers + q.ctx.dynamicServers);
      && NonEmptyLists(index)
      && Outcomes(index, q.ctx.mode, q.config.caPaths, env.readable) == {ca}
      && Outcomes(UsedView(index, q.ctx.mode), q.ctx.mode, q.config.caPaths, env.readable) == {ca}
    ensures var s := Transition(q, e, env).sys;
      s.ctx.state == WaitingForStartJob ==>
        Resting(s) && Transition(s, JobSuccess, later).sys.ctx.state != WaitingForStartJob
  {
    LoopTerminates(q, e, env);
    StartLeavesOutcome(q, e, env);
    var s := Transition(q, e, env).sys;
    if s.ctx.state == WaitingForStartJob {
      SettlesIfOnlyWantsCurrent(s, later);
    }
  }

  // ----- Starts without end

  /** With these servers and this mode, no CA that a start can write is one that an update
      can want. */
  ghost predicate Doomed(s: System, readable: Readable) {
    var index := BuildIndex(s.config.staticServers + s.ctx.dynamicServers);
    && NonEmptyLists(index)
    && Outcomes(index, s.ctx.mode, s.config.caPaths, readable)
       !! Outcomes(UsedView(index, s.ctx.mode), s.ctx.mode, s.config.caPaths, readable)
  }

  ghost predicate Stuck(s: System, readable: Readable) {
    && Resting(s)
    && (s.ctx.state == Starting ==> Doomed(s, readable))
    && (s.ctx.state == WaitingForStartJob ==>
          Doomed(s, readable) && ListsAgree(s) && s.ctx.effectiveCa in WrittenCas(s, readable))
    && s.ctx.state != Running
  }

  lemma EndedStartIsStuck(q: System, t: System, readable: Readable)
    requires Doomed(q, readable) && ListsAgree(q) && q.ctx.index.Some?
    requires Resting(t) && t.config == q.config && t.ctx.state in {WaitingForStartJob, Stopping}
    requires t.ctx == q.ctx.(state := t.ctx.state, expected := t.ctx.expected)
    requires t.ctx.state == WaitingForStartJob ==> q.ctx.effectiveCa in WrittenCas(q, readable)
    ensures Stuck(t, readable)
  {
  }

  /** Starting such a daemon, from wherever it is asked for, leaves it stuck. */
  lemma {:induction false} KickoffIsStuck(q: System, env: Env)
    requires ValidEnv(env) && Doomed(q, env.readable)
    requires q.ctx.ledger.Some? ==> NonEmptyLists(q.ctx.ledger.value)
    ensures var r := Enter(StartingKickoff(q, env), ConfiguringDnsManager);
      && Safe(r.sys.ctx, r.event)
      && Stuck(Transition(r.sys, r.event, env).sys, env.readable)
  {
    KickoffEffect(q, env);
    KickoffWritesOutcome(q, env);
    var r := Enter(StartingKickoff(q, env), ConfiguringDnsManager);
    StartEnds(r.sys, r.event, env);
    EndedStartIsStuck(r.sys, Transition(r.sys, r.event, env).sys, env.readable);
  }

  lemma KickoffWritesOutcome(q: System, env: Env)
    requires ValidEnv(env)
    ensures var t := StartingKickoff(q, env).sys;
      && ListsAgree(t) && t.ctx.index.Some?
      && (StartingKickoff(q, env).event == Success ==> t.ctx.effectiveCa in WrittenCas(t, env.readable))
  {
    KickoffEffect(q, env);
    var index := BuildIndex(q.config.staticServers + q.ctx.dynamicServers);
    EffectiveCaIsAnOutcome(index, env.indexOrder(index.Keys), q.ctx.mode, q.config.caPaths, env.readable);
  }

  /** From CONFIGURING the loop ends waiting or stopped, with servers, mode and CA as they were. */
  lemma {:induction false} StartEnds(q: System, e: Event, env: Env)
    requires ValidEnv(env) && q.ctx.state == ConfiguringDnsManager && Safe(q.ctx, e) && e in {Success, Failure}
    ensures var t := Transition(q, e, env).sys;
      && Resting(t)
      && t.config == q.config
      && t.ctx == q.ctx.(state := t.ctx.state, expected := t.ctx.expected)
      && t.ctx.state in {WaitingForStartJob, Stopping}
      && (e == Failure ==> t.ctx.state == Stopping)
  {
    LoopTerminates(q, e, env);
    OnePass(q, e, env);
    var r := Step(q, e, env);
    OnePass(r.sys, r.event, env);
    if r.sys.ctx.state == SubmittingStartJob && r.event == Failure {
      OnePass(Goto(r.sys, Stopping), Stop, env);
    }
  }

  lemma {:induction false} ReadyStaysStuck(s: System, env: Env)
    requires ValidEnv(env) && env.readable == env.readableLater
    requires Stuck(s, env.readable) && s.ctx.state == WaitingForStartJob
    ensures Stuck(Transition(s, JobSuccess, env).sys, env.readable)
  {
    LoopTerminates(s, JobSuccess, env);
    OnePass(s, JobSuccess, env);
    SetResolvConfEffect(s, env);
    var u := Enter(SetResolvConf(s, env), SettingResolvConf);
    if u.event == Failure {
      FailedSettingEnds(u.sys, env);
    } else {
      OnePass(u.sys, Success, env);
      UpdateDnsManagerEffect(u.sys, env);
      UpdateWantsOutcome(u.sys, env);
      var q := Enter(UpdateDnsManager(u.sys, env), UpdatingDnsManager);
      if q.event == Failure {
        UnfinishedUpdateDoesNotRun(q.sys, Failure, env);
      } else {
        OnePass(q.sys, Reload, env);
        KickoffIsStuck(q.sys, env);
      }
    }
  }

  lemma {:induction false} LeavingEnds(s: System, e: Event, env: Env)
    requires ValidEnv(env) && Resting(s) && s.ctx.state in {Starting, WaitingForStartJob}
    requires Accepts(s.ctx.state, e) && e in {JobFailure, Stop}
    ensures Ending(Transition(s, e, env).sys.ctx.state)
  {
    OnePass(s, e, env);
    var r := Step(s, e, env);
    WayOutTransition(r.sys, r.event, env);
  }

  lemma {:induction false} EventStaysStuck(s: System, e: Event, env: Env)
    requires ValidEnv(env) && env.readable == env.readableLater && e != UpdateEvent
    requires Stuck(s, env.readable)
    ensures Stuck(Transition(s, e, env).sys, env.readable)
  {
    LoopTerminates(s, e, env);
    if Accepts(s.ctx.state, e) {
      if Ending(s.ctx.state) {
        EndingTransition(s, e, env);
      } else if e in {JobFailure, Stop} {
        LeavingEnds(s, e, env);
      } else if e == JobSuccess {
        ReadyStaysStuck(s, env);
      } else {
        OnePass(s, e, env);
        KickoffIsStuck(s, env);
      }
    }
  }

  lemma DeliverStaysStuck(s: System, e: Event, env: Env)
    requires ValidEnv(env) && env.readable == env.readableLater && e != UpdateEvent
    requires Stuck(s, env.readable)
    ensures Stuck(Deliver(s, e, env), env.readable)
  {
    EventStaysStuck(s, e, env);
    StuckWhenQuitting(Transition(s, e, env).sys, env.readable);
  }

  lemma ReactStaysStuck(s: System, st: Stimulus)
    requires ValidEnv(st.env) && st.env.readable == st.env.readableLater && !st.input.UpdateCall?
    requires Stuck(s, st.env.readable)
    ensures Stuck(React(s, st), st.env.readable)
  {
    match st.input
    case ReloadCall => DeliverStaysStuck(s, Reload, st.env);
    case StatusChanged(content, loaded) =>
      StuckWhateverIsLive(s, loaded, st.env.readable);
      EventStaysStuck(LoadFile(s, loaded), JobEvent(s.ctx.expected, content), st.env);
    case Terminate => DeliverStaysStuck(s, Stop, st.env);
    case NameAcquired => DeliverStaysStuck(s, Kickoff, st.env);
    case NameLost => StuckWhenQuitting(s, st.env.readable);
  }

  lemma StuckWhateverIsLive(s: System, loaded: bool, readable: Readable)
    requires Stuck(s, readable)
    ensures Stuck(LoadFile(s, loaded), readable)
  {
  }

  lemma StuckWhenQuitting(s: System, readable: Readable)
    requires Stuck(s, readable)
    ensures forall code: nat :: Stuck(QuitWith(s, code), readable)
  {
  }

  /** A stuck daemon never comes to rest in RUNNING: every "ready" only leads to another
      restart, until the servers or the mode change or it is stopped. */
  lemma {:induction false} NeverRuns(s: System, h: History, readable: Readable)
    requires ValidHistory(h) && Stuck(s, readable)
    requires forall i :: 0 <= i < |h| ==>
      !h[i].input.UpdateCall? && h[i].env.readable == h[i].env.readableLater == readable
    ensures Run(s, h).ctx.state != Running
    decreases |h|
  {
    if h != [] {
      ReactStaysStuck(s, h[0]);
      NeverRuns(React(s, h[0]), h[1..], readable);
    }
  }

  // ----- Two servers are enough

  /** A preferred and a fallback TLS server for one domain, each with its own CA: a start
      writes the fallback's, an update wants the preferred one's. */
  lemma TwoCasDisagree(a: Server, b: Server, d: string, paths: seq<string>, readable: Readable)
    requires OwnCa(a, d) && OwnCa(b, d) && a.ca != b.ca && 0 < a.priority - b.priority <= 0x7fff_ffff
    ensures NonEmptyLists(BuildIndex([a, b]))
    ensures Outcomes(BuildIndex([a, b]), Backup, paths, readable) == {b.ca}
    ensures Outcomes(UsedView(BuildIndex([a, b]), Backup), Backup, paths, readable) == {a.ca}
  {
    IndexNonEmpty([a, b]);
    CompareIsRankOrder(a, b);
    PairIndex(a, b, d);
    PairScan(a, b, d);
    PairDomains(a, b, d);
    var index := BuildIndex([a, b]);
    assert index == map[d := [a, b]];
    var view := UsedView(index, Backup);
    assert view == map[d := [a]];
    PairBest(a, b, d);
    OneDomainChoice(index, d, b.ca.value);
    OneDomainChoice(view, d, a.ca.value);
  }

  ghost predicate OwnCa(s: Server, d: string) {
    s.routingDomains == [d] && s.networks == [] && s.interface == "" && s.protocol == Tls && s.ca.Some?
  }

  lemma TwoCasDoomed(s: System, a: Server, b: Server, d: string, readable: Readable)
    requires OwnCa(a, d) && OwnCa(b, d) && a.ca != b.ca && 0 < a.priority - b.priority <= 0x7fff_ffff
    requires s.config.staticServers == [a, b] && s.ctx.dynamicServers == [] && s.ctx.mode == Backup
    ensures Doomed(s, readable)
  {
    assert s.config.staticServers + s.ctx.dynamicServers == [a, b];
    TwoCasDisagree(a, b, d, s.config.caPaths, readable);
  }

  lemma TwoCasStuck(config: Config, world: World, a: Server, b: Server, d: string, readable: Readable)
    requires OwnCa(a, d) && OwnCa(b, d) && a.ca != b.ca && 0 < a.priority - b.priority <= 0x7fff_ffff
    requires config.staticServers == [a, b]
    ensures Stuck(Init(config, world), readable)
  {
    TwoCasDoomed(Init(config, world), a, b, d, readable);
  }

  /** Configured with these two servers alone, the daemon never runs at all. */
  lemma {:induction false} TwoCasNeverRun(config: Config, world: World, a: Server, b: Server, d: string, h: History, readable: Readable)
    requires OwnCa(a, d) && OwnCa(b, d) && a.ca != b.ca && 0 < a.priority - b.priority <= 0x7fff_ffff
    requires config.staticServers == [a, b] && ValidHistory(h)
    requires forall i :: 0 <= i < |h| ==>
      !h[i].input.UpdateCall? && h[i].env.readable == h[i].env.readableLater == readable
    ensures Run(Init(config, world), h).ctx.state != Running
  {
    TwoCasStuck(config, world, a, b, d, readable);
    NeverRuns(Init(config, world), h, readable);
  }

  lemma PairBest(a: Server, b: Server, d: string)
    requires Candidate(a, Backup, d) && Candidate(b, Backup, d) && b.priority < a.priority
    ensures Best([a], Backup, d) == Some(Pick(a.priority, a.ca.value))
    ensures Best([a, b], Backup, d) == Some(Pick(b.priority, b.ca.value))
  {
    var p, q := Some(Pick(a.priority, a.ca.value)), Some(Pick(b.priority, b.ca.value));
    assert [a, b][1..] == [b] && [b][1..] == [] && [a][1..] == [];
    assert ScanList([], Backup, d, p) == p && ScanList([], Backup, d, q) == q;
    assert ScanList([b], Backup, d, p) == q;
    assert ScanList([a, b], Backup, d, None) == ScanList([b], Backup, d, p);
  }

  lemma PairDomains(a: Server, b: Server, d: string)
    requires a.routingDomains == [d] && a.networks == [] && b.routingDomains == [d] && b.networks == []
    ensures BuildIndex([a, b]).Keys == {d}
  {
    assert [a, b][1..] == [b] && [b][1..] == [];
    assert AllDomains([b]) == {d};
    assert AllDomains([a, b]) == {d};
  }

  lemma OneDomainChoice(table: View, d: string, ca: string)
    requires table.Keys == {d} && Best(table[d], Backup, d).Some? && Best(table[d], Backup, d).value.ca == ca
    ensures Choices(table, Backup) == {ca}
  {
    assert Lowest(table, Backup, d);
  }
}
