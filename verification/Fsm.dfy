/** The daemon as the program runs it: one context object whose fields the state machine
    updates in place, over server records that lists and tables share. Every method is proved to do to the
    abstract system what the specification says, and to keep track of every record. */
module Fsm {
  import opened ServerTypes
  import opened DomainIndex
  import opened Unbound
  import opened CertificateAuthority
  import opened ResolvConf
  import opened Intake
  import opened Daemon
  import opened DaemonRuns
  import opened LostLists
  import opened Records
  import opened Ownership

  function UrisOf(table: Option<RecordTable>): Option<Index> {
    if table.Some? then Some(UriTable(table.value)) else None
  }

  class FsmContext {
    const memory: Allocator
    const staticServers: seq<ServerRecord>
    const caPaths: seq<string>
    const resolverOptions: Option<string>
    const listenAddress: Address

    var state: State
    var dynamicServers: seq<ServerRecord>
    var pending: seq<ServerRecord>
    var allServers: seq<ServerRecord>
    var index: Option<RecordTable>
    var ledger: Option<RecordTable>
    var backup: Option<Contents>
    var effectiveCa: Option<string>
    var exitCode: nat
    var requested: nat
    var current: nat
    var mode: Mode
    var expected: Option<string>

    // the world
    var live: Table
    var file: Table
    var resolv: Contents
    var control: seq<string>
    var quit: bool

    /** Records that nothing points at any more although they were never freed. */
    ghost var leaked: set<ServerRecord>

    // ----- Abstraction

    ghost function AbsConfig(): Config {
      Config(Uris(staticServers), caPaths, resolverOptions, listenAddress)
    }

    ghost function AbsContext(): Context
      reads this
    {
      Context(state, Uris(dynamicServers), Uris(pending), Uris(allServers), UrisOf(index), UrisOf(ledger),
              backup, effectiveCa, exitCode, requested, current, mode, expected)
    }

    ghost function AbsWorld(): World
      reads this`live, this`file, this`resolv, this`control, this`quit
    {
      World(live, file, resolv, control, quit)
    }

    ghost function Abs(): System
      reads this
    {
      System(AbsConfig(), AbsContext(), AbsWorld())
    }

    // ----- Ownership

    /** Every allocated record has exactly one owner: the static list, the dynamic list, the
        pending list, the ledger's copies, or nobody any more. */
    ghost predicate Owns()
      reads this`dynamicServers, this`pending, this`ledger, this`leaked, memory
    {
      && DistinctRecords(dynamicServers) && DistinctRecords(pending)
      && (ledger.Some? ==> Unshared(ledger.value))
      && SetOf(staticServers) !! SetOf(dynamicServers) !! SetOf(pending) !! StoredIn(ledger) !! leaked
      && memory.alive
         == SetOf(staticServers) + SetOf(dynamicServers) + SetOf(pending) + StoredIn(ledger) + leaked
    }

    /** The list of all servers and the index only point at records that are owned. */
    ghost predicate Shares()
      reads this`dynamicServers, this`allServers, this`index
    {
      && SetOf(allServers) <= SetOf(staticServers) + SetOf(dynamicServers)
      && (index.Some? ==> Within(index.value, allServers))
    }

    ghost predicate Valid()
      reads this`dynamicServers, this`pending, this`ledger, this`leaked, this`allServers, this`index, memory
    {
      Owns() && Shares()
    }

    /** Everything that can be reached from the context. */
    ghost function Reachable(): set<ServerRecord>
      reads this
    {
      SetOf(staticServers) + SetOf(dynamicServers) + SetOf(pending) + SetOf(allServers)
      + StoredIn(index) + StoredIn(ledger)
    }

    /** Nothing reachable has been freed, and the ledger shares no record with the lists. */
    lemma NothingDangles()
      requires Valid()
      ensures Reachable() <= memory.alive
      ensures StoredIn(ledger) !! SetOf(allServers) + SetOf(pending) + StoredIn(index)
    {
      if index.Some? {
        assert Stored(index.value) <= SetOf(allServers);
      }
    }

    constructor (memory: Allocator, staticServers: seq<ServerRecord>, caPaths: seq<string>,
                 resolverOptions: Option<string>, listenAddress: Address, resolv: Contents, live: Table, file: Table)
      requires memory.alive == SetOf(staticServers)
      ensures Valid() && this.memory == memory && this.staticServers == staticServers
      ensures this.memory.alive == old(memory.alive) && leaked == {}
      ensures AbsContext() == Context(Starting, [], [], [], None, None, None, None, 0, 1, 1, Backup, None)
      ensures AbsWorld() == World(live, file, resolv, [], false)
      ensures AbsConfig() == Config(Uris(staticServers), caPaths, resolverOptions, listenAddress)
    {
      this.memory := memory;
      this.staticServers := staticServers;
      this.caPaths := caPaths;
      this.resolverOptions := resolverOptions;
      this.listenAddress := listenAddress;
      state, dynamicServers, pending, allServers := Starting, [], [], [];
      index, ledger, backup, effectiveCa := None, None, None, None;
      exitCode, requested, current, mode, expected := 0, 1, 1, Backup, None;
      this.live, this.file, this.resolv, control, quit := live, file, resolv, [], false;
      leaked := {};
    }

    // ----- Actions

    /** Frees the old dynamic servers, to which lists and index still point afterwards. */
    method SetDynamicServers()
      requires Owns()
      modifies this`dynamicServers, this`pending, memory
      ensures Owns()
      ensures dynamicServers == old(pending)
      ensures Abs() == old(Abs()).(ctx := Daemon.SetDynamicServers(old(AbsContext())))
    {
      memory.FreeList(dynamicServers);
      dynamicServers := pending;
      pending := [];
    }

    /** Rebuilds list and index; whatever they pointed at before is not looked at. */
    method UpdateContext()
      requires Owns()
      modifies this`allServers, this`index, this`requested
      ensures Valid()
      ensures Abs() == old(Abs()).(ctx := Daemon.UpdateContext(AbsConfig(), old(AbsContext())))
    {
      var all := staticServers + dynamicServers;
      UrisConcat(staticServers, dynamicServers);
      assert SetOf(all) <= memory.alive;
      var table := ServerListToHashTable(all);
      allServers := all;
      index := Some(table);
      requested := NextSerial(requested);
    }

    method AcceptUpdate()
      requires Owns()
      modifies this`dynamicServers, this`pending, this`allServers, this`index, this`requested, memory
      ensures Valid() && Abs() == Daemon.AcceptUpdate(old(Abs()))
    {
      SetDynamicServers();
      UpdateContext();
    }

    method SetExitCode(code: nat)
      modifies this`exitCode
      ensures Abs() == Daemon.SetExitCode(old(Abs()), code)
    {
      if exitCode == 0 {
        exitCode := code;
      }
    }

    method SetServiceStatus(status: string, command: string, fate: JobFate) returns (event: Event)
      modifies this`expected, this`control
      ensures Acted(Abs(), event) == Daemon.SetServiceStatus(old(Abs()), status, command, fate)
      ensures expected == Some(status) && (control == old(control) + [command] || (control == old(control) && event == Failure))
    {
      expected := Some(status);
      if fate.StatusFails? {
        return Failure;
      }
      control := control + [command];
      event := if fate.Submitted? then Success else Failure;
    }

    method SubmitStopJob(env: Env) returns (event: Event)
      modifies this`expected, this`control
      ensures Acted(Abs(), event) == SubmitStop(old(Abs()), env)
    {
      event := SetServiceStatus("stopped", "stop", env.stop);
    }

    method SubmitStartJob(env: Env) returns (event: Event)
      modifies this`expected, this`control
      ensures Acted(Abs(), event) == SubmitStart(old(Abs()), env)
    {
      event := SetServiceStatus("ready", "restart", env.start);
    }

    method RevertResolvConf(env: Env) returns (event: Event)
      requires backup.Some?
      modifies this`resolv
      ensures Acted(Abs(), event) == Daemon.RevertResolvConf(old(Abs()), env)
      ensures event == Success ==> resolv == backup.value
    {
      match env.revert
      case OpenFails =>
        event := Failure;
      case WriteFails(left) =>
        resolv := left;
        event := Failure;
      case Written =>
        resolv := backup.value;
        event := Success;
    }

    method SetResolvConf(env: Env) returns (event: Event)
      requires ValidEnv(env) && Valid() && index.Some? && NonEmptyLists(UriTable(index.value))
      modifies this`backup, this`resolv
      ensures Acted(Abs(), event) == Daemon.SetResolvConf(old(Abs()), env)
    {
      if backup.None? {
        if !env.backupRead {
          return Failure;
        }
        backup := Some(resolv);
      }
      match env.resolv
      case OpenFails =>
        event := Failure;
      case WriteFails(left) =>
        resolv := left;
        event := Failure;
      case Written =>
        NothingDangles();
        var table := memory.ReadTable(index.value);
        var search := BuildSearchLine(table, env.searchOrder(table.Keys), mode);
        resolv := Generated(search, resolverOptions, listenAddress);
        event := Success;
    }

    method WriteConfiguration(env: Env) returns (event: Event)
      requires ValidEnv(env) && Valid() && index.Some? && NonEmptyLists(UriTable(index.value))
      modifies this`effectiveCa, this`file
      ensures Acted(Abs(), event) == Daemon.WriteConfiguration(old(Abs()), env)
    {
      if env.conf.ConfOpenFails? {
        return Failure;
      }
      if env.conf.FailsBeforeCa? {
        file := env.conf.left;
        return Failure;
      }
      NothingDangles();
      var table := memory.ReadTable(index.value);
      var ca := GetEffectiveCa(table, env.indexOrder(table.Keys), mode, caPaths, env.readable);
      if ca.None? {
        file := map[];
        return Failure;
      }
      effectiveCa := ca;
      if env.conf.FailsAfterCa? {
        file := env.conf.left;
        return Failure;
      }
      file := GenerateForwardZones(table, mode);
      return Success;
    }

    method StartingKickoff(env: Env) returns (event: Event)
      requires ValidEnv(env) && Owns()
      modifies this`allServers, this`index, this`requested, this`effectiveCa, this`file
      ensures Valid()
      ensures Acted(Abs(), event) == Daemon.StartingKickoff(old(Abs()), env)
    {
      UpdateContext();
      if !env.subscribed {
        return Failure;
      }
      IndexNonEmpty(Abs().ctx.allServers);
      event := WriteConfiguration(env);
    }

    /** One unbound-control call; n counts the calls of this update. */
    method RunCommand(c: Command, n: nat, fates: Fates) returns (ok: bool)
      modifies this`live
      ensures ok <==> fates(n) == Succeeds
      ensures live == if fates(n) == FailsBefore then old(live) else Apply(old(live), c)
    {
      match fates(n)
      case Succeeds =>
        live := Apply(live, c);
        ok := true;
      case FailsAfter =>
        live := Apply(live, c);
        ok := false;
      case FailsBefore =>
        ok := false;
    }

    /** A command and the flush of its zone, the first of them number n; `rest` is what the
        plan holds after them. */
    method RunAndFlush(c: Command, d: string, n: nat, fates: Fates, ghost rest: seq<Command>) returns (ok: bool)
      modifies this`live
      ensures ok ==> Execute(old(live), [c, FlushZone(d)] + rest, fates, n) == Execute(live, rest, fates, n + 2)
      ensures !ok ==> Execute(old(live), [c, FlushZone(d)] + rest, fates, n) == Executed(live, false)
    {
      ghost var cs := [c, FlushZone(d)] + rest;
      assert cs[1..] == [FlushZone(d)] + rest && cs[1..][1..] == rest;
      ok := RunCommand(c, n, fates);
      if ok {
        ok := RunCommand(FlushZone(d), n + 1, fates);
      }
    }

    method SendAdds(view: View, old_: View, order: seq<string>, fates: Fates, ghost rest: seq<Command>)
      returns (ok: bool, n: nat)
      requires NonEmptyLists(view) && forall d :: d in order ==> d in view
      modifies this`live
      ensures ok ==> Execute(old(live), Adds(view, old_, order) + rest, fates, 0) == Execute(live, rest, fates, n)
      ensures !ok ==> Execute(old(live), Adds(view, old_, order) + rest, fates, 0) == Executed(live, false)
    {
      ok, n := true, 0;
      for i := 0 to |order|
        invariant ok
        invariant Execute(live, Adds(view, old_, order[i..]) + rest, fates, n)
               == Execute(old(live), Adds(view, old_, order) + rest, fates, 0)
      {
        var d := order[i];
        assert order[i..][0] == d && order[i..][1..] == order[i + 1..];
        if d in old_ {
          var same := CompareServers(view[d], old_[d]);
          if same {
            continue;
          }
        }
        ghost var tail := Adds(view, old_, order[i + 1..]) + rest;
        assert Adds(view, old_, order[i..]) + rest == [ForwardAddCommand(d, view[d]), FlushZone(d)] + tail;
        ok := RunAndFlush(ForwardAddCommand(d, view[d]), d, n, fates, tail);
        if !ok {
          return;
        }
        n := n + 2;
      }
      assert Adds(view, old_, order[|order|..]) + rest == rest;
    }

    method SendRemoves(view: View, order: seq<string>, fates: Fates, first: nat) returns (ok: bool)
      modifies this`live
      ensures Executed(live, ok) == Execute(old(live), Removes(view, order), fates, first)
    {
      ok := true;
      var n := first;
      for i := 0 to |order|
        invariant ok
        invariant Execute(live, Removes(view, order[i..]), fates, n)
               == Execute(old(live), Removes(view, order), fates, first)
      {
        var d := order[i];
        assert order[i..][0] == d && order[i..][1..] == order[i + 1..];
        if d in view {
          continue;
        }
        ok := RunAndFlush(RemoveCommand(d), d, n, fates, Removes(view, order[i + 1..]));
        if !ok {
          return;
        }
        n := n + 2;
      }
    }

    method SendDifference(view: View, old_: View, env: Env) returns (ok: bool)
      requires ValidEnv(env) && NonEmptyLists(view)
      modifies this`live
      ensures Executed(live, ok)
           == Execute(old(live), Plan(view, old_, env.viewOrder(view.Keys), env.ledgerOrder(old_.Keys)), env.fates, 0)
    {
      var adds, removes := env.viewOrder(view.Keys), env.ledgerOrder(old_.Keys);
      var n;
      ok, n := SendAdds(view, old_, adds, env.fates, Removes(view, removes));
      if ok {
        ok := SendRemoves(view, removes, env.fates, n);
      }
    }

    /** Ownership while the copies of a new view are still in the hands of the update. */
    ghost predicate OwnsBeside(copies: RecordTable)
      reads this`dynamicServers, this`pending, this`ledger, this`leaked, memory
    {
      && DistinctRecords(dynamicServers) && DistinctRecords(pending)
      && (ledger.Some? ==> Unshared(ledger.value)) && Unshared(copies)
      && SetOf(staticServers) !! SetOf(dynamicServers) !! SetOf(pending) !! StoredIn(ledger) !! leaked
      && (SetOf(staticServers) + SetOf(dynamicServers) + SetOf(pending) + StoredIn(ledger) + leaked) !! Stored(copies)
      && memory.alive
         == SetOf(staticServers) + SetOf(dynamicServers) + SetOf(pending) + StoredIn(ledger) + leaked + Stored(copies)
    }

    /** The used servers of the index, copied. */
    method BuildView() returns (copies: RecordTable)
      requires Valid() && index.Some? && NonEmptyLists(UriTable(index.value))
      modifies memory
      ensures OwnsBeside(copies) && UriTable(copies) == Target(AbsContext())
    {
      NothingDangles();
      var table := memory.ReadTable(index.value);
      copies := memory.CopyUsedServers(table, mode);
    }

    method ReadLedger() returns (before: View)
      requires StoredIn(ledger) <= memory.alive
      ensures before == LedgerOf(AbsContext())
    {
      before := map[];
      if ledger.Some? {
        before := memory.ReadTable(ledger.value);
      }
    }

    method DropView(copies: RecordTable)
      requires OwnsBeside(copies)
      modifies memory
      ensures Owns()
    {
      memory.FreeTable(copies);
    }

    /** Builds the new view as deep copies and brings Unbound up to it. On success (0) the
        copies are the caller's; on a reload (1) or an error (-1) they are freed again. */
    method Update(env: Env) returns (code: int, copies: RecordTable)
      requires ValidEnv(env) && Configured(AbsContext()) && NonEmptyLists(UriTable(index.value)) && Valid()
      modifies this`live, memory
      ensures if code == 0 then OwnsBeside(copies) && UriTable(copies) == Target(old(AbsContext())) else Owns()
      ensures Daemon.UpdateDnsManager(old(Abs()), env) ==
        if code == 1 then Acted(Abs(), Reload)
        else if code != 0 then Acted(Abs(), Failure)
        else Acted(Abs().(ctx := AbsContext().(ledger := Some(UriTable(copies)), current := requested)), Success)
    {
      copies := BuildView();
      var view := memory.ReadTable(copies);
      var ca := GetEffectiveCa(view, env.viewOrder(view.Keys), mode, caPaths, env.readableLater);
      if ca.None? {
        DropView(copies);
        return -1, map[];
      }
      if ca != effectiveCa {
        DropView(copies);
        return 1, map[];
      }
      var before := ReadLedger();
      var ok := SendDifference(view, before, env);
      if !ok {
        DropView(copies);
        return -1, map[];
      }
      code := 0;
    }

    /** Puts the copies in the place of the ledger. */
    method ReplaceLedger(copies: RecordTable)
      requires OwnsBeside(copies)
      modifies this`ledger, this`current, memory
      ensures Owns() && ledger == Some(copies) && current == requested
    {
      if ledger.Some? {
        memory.FreeTable(ledger.value);
      }
      ledger := Some(copies);
      current := requested;
    }

    method UpdateDnsManager(env: Env) returns (event: Event)
      requires ValidEnv(env) && Valid()
      requires Configured(AbsContext()) && NonEmptyLists(UriTable(index.value))
      modifies this`ledger, this`current, this`live, memory
      ensures Valid()
      ensures Acted(Abs(), event) == Daemon.UpdateDnsManager(old(Abs()), env)
    {
      var code, copies := Update(env);
      if code == 0 {
        ReplaceLedger(copies);
        event := Success;
      } else if code == 1 {
        event := Reload;
      } else {
        event := Failure;
      }
    }

    // ----- The state machine

    method EnterConfiguring(env: Env) returns (next: Event)
      requires ValidEnv(env) && Owns()
      modifies this`state, this`allServers, this`index, this`requested, this`effectiveCa, this`file
      ensures Valid()
      ensures Acted(Abs(), next) == Enter(Daemon.StartingKickoff(old(Abs()), env), ConfiguringDnsManager)
    {
      next := StartingKickoff(env);
      state := ConfiguringDnsManager;
    }

    method EnterSettingResolvConf(env: Env) returns (next: Event)
      requires ValidEnv(env) && Valid() && index.Some? && NonEmptyLists(UriTable(index.value))
      modifies this`state, this`backup, this`resolv
      ensures Acted(Abs(), next) == Enter(Daemon.SetResolvConf(old(Abs()), env), SettingResolvConf)
    {
      next := SetResolvConf(env);
      state := SettingResolvConf;
    }

    method EnterUpdating(env: Env) returns (next: Event)
      requires ValidEnv(env) && Valid()
      requires Configured(AbsContext()) && NonEmptyLists(UriTable(index.value))
      modifies this`state, this`ledger, this`current, this`live, memory
      ensures Valid()
      ensures Acted(Abs(), next) == Enter(Daemon.UpdateDnsManager(old(Abs()), env), UpdatingDnsManager)
    {
      next := UpdateDnsManager(env);
      state := UpdatingDnsManager;
    }

    method EnterReverting(env: Env) returns (next: Event)
      requires backup.Some?
      modifies this`state, this`resolv
      ensures Acted(Abs(), next) == Enter(Daemon.RevertResolvConf(old(Abs()), env), RevertingResolvConf)
    {
      next := RevertResolvConf(env);
      state := RevertingResolvConf;
    }

    method EnterSubmittingStop(env: Env) returns (next: Event)
      modifies this`state, this`expected, this`control
      ensures Acted(Abs(), next) == Enter(SubmitStop(old(Abs()), env), SubmittingStopJob)
    {
      next := SubmitStopJob(env);
      state := SubmittingStopJob;
    }

    method EnterState(to: State)
      modifies this`state
      ensures Abs() == Goto(old(Abs()), to)
    {
      state := to;
    }

    method PassFromStarting(e: Event, env: Env) returns (next: Event)
      requires ValidEnv(env) && Valid() && state == Starting && Accepts(Starting, e)
      modifies this`state, this`dynamicServers, this`pending, this`allServers, this`index, this`requested, this`effectiveCa, this`file, memory
      ensures Valid() && leaked == old(leaked)
      ensures Acted(Abs(), next) == FromStarting(old(Abs()), e, env)
    {
      if e == UpdateEvent {
        AcceptUpdate();
        next := NoEvent;
      } else if e == Kickoff {
        next := EnterConfiguring(env);
      } else if e == Reload {
        next := NoEvent;
      } else {
        EnterState(Stopping);
        next := Stop;
      }
    }

    method PassOnStartJob(e: Event, env: Env) returns (next: Event)
      requires ValidEnv(env) && Valid() && state == WaitingForStartJob && (e == JobSuccess || e == JobFailure)
      requires Safe(AbsContext(), e)
      modifies this`state, this`backup, this`resolv, this`exitCode
      ensures Valid() && leaked == old(leaked)
      ensures Acted(Abs(), next) == FromWaitingForStartJob(old(Abs()), e, env)
    {
      if e == JobSuccess {
        next := EnterSettingResolvConf(env);
      } else {
        SetExitCode(EXIT_SERVICE_FAILURE);
        EnterState(Stopping);
        next := Stop;
      }
    }

    method PassWhileWaiting(e: Event, env: Env) returns (next: Event)
      requires ValidEnv(env) && Valid() && state == WaitingForStartJob && Safe(AbsContext(), e)
      requires e == UpdateEvent || e == Reload
      modifies this`state, this`dynamicServers, this`pending, this`allServers, this`index, this`requested,
               this`effectiveCa, this`file, memory
      ensures Valid()
      ensures Acted(Abs(), next) == FromWaitingForStartJob(old(Abs()), e, env)
    {
      if e == UpdateEvent {
        AcceptUpdate();
        next := NoEvent;
      } else {
        next := EnterConfiguring(env);
      }
    }

    method PassFromWaitingForStartJob(e: Event, env: Env) returns (next: Event)
      requires ValidEnv(env) && Valid() && state == WaitingForStartJob && Accepts(WaitingForStartJob, e)
      requires Safe(AbsContext(), e)
      modifies this, memory
      ensures Valid() && leaked == old(leaked)
      ensures Acted(Abs(), next) == FromWaitingForStartJob(old(Abs()), e, env)
    {
      if e == JobSuccess || e == JobFailure {
        next := PassOnStartJob(e, env);
      } else if e == Stop {
        next := EnterSubmittingStop(env);
      } else {
        next := PassWhileWaiting(e, env);
      }
    }

    method PassFromSettingResolvConf(e: Event, env: Env) returns (next: Event)
      requires ValidEnv(env) && Valid() && state == SettingResolvConf && Accepts(SettingResolvConf, e)
      requires Safe(AbsContext(), e)
      modifies this`state, this`ledger, this`current, this`live, this`exitCode, this`expected, this`control, memory
      ensures Valid() && leaked == old(leaked)
      ensures Acted(Abs(), next) == FromSettingResolvConf(old(Abs()), e, env)
    {
      if e == Success {
        next := EnterUpdating(env);
      } else {
        SetExitCode(EXIT_RESOLV_CONF_FAILURE);
        next := EnterSubmittingStop(env);
      }
    }

    method PassFromUpdatingDnsManager(e: Event, env: Env) returns (next: Event)
      requires ValidEnv(env) && Valid() && state == UpdatingDnsManager && Accepts(UpdatingDnsManager, e)
      requires Safe(AbsContext(), e)
      modifies this`state, this`exitCode, this`resolv, this`allServers, this`index, this`requested, this`effectiveCa, this`file
      ensures Valid() && leaked == old(leaked)
      ensures Acted(Abs(), next) == FromUpdatingDnsManager(old(Abs()), e, env)
    {
      if e == Success {
        EnterState(Running);
        next := NoEvent;
      } else if e == Failure {
        SetExitCode(EXIT_UPDATE_FAILURE);
        next := EnterReverting(env);
      } else {
        next := EnterConfiguring(env);
      }
    }

    method UpdateWhileRunning(env: Env) returns (next: Event)
      requires ValidEnv(env) && Owns()
      modifies this`state, this`dynamicServers, this`pending, this`allServers, this`index, this`requested, this`backup, this`resolv, memory
      ensures Valid() && leaked == old(leaked)
      ensures NonEmptyLists(Daemon.AcceptUpdate(old(Abs())).ctx.index.value)
      ensures Acted(Abs(), next) == Enter(Daemon.SetResolvConf(Daemon.AcceptUpdate(old(Abs())), env), SettingResolvConf)
    {
      UpdatedIndexIsSafe(Abs());
      AcceptUpdate();
      next := EnterSettingResolvConf(env);
    }

    method PassFromRunning(e: Event, env: Env) returns (next: Event)
      requires ValidEnv(env) && Valid() && state == Running && Accepts(Running, e)
      requires Safe(AbsContext(), e)
      modifies this, memory
      ensures Valid() && leaked == old(leaked)
      ensures Acted(Abs(), next) == FromRunning(old(Abs()), e, env)
    {
      if e == UpdateEvent {
        next := UpdateWhileRunning(env);
      } else if e == Reload {
        next := EnterConfiguring(env);
      } else {
        next := EnterReverting(env);
      }
    }

    method PassTowardsStart(e: Event, env: Env) returns (next: Event)
      requires ValidEnv(env) && Valid() && Accepts(state, e) && Safe(AbsContext(), e)
      requires TowardsStart(state)
      modifies this`state, this`expected, this`control
      ensures Valid() && leaked == old(leaked)
      ensures Acted(Abs(), next) == FromStartStates(old(Abs()), e, env)
    {
      if e == Failure {
        EnterState(Stopping);
        next := Stop;
      } else if state == ConfiguringDnsManager {
        next := SubmitStartJob(env);
        state := SubmittingStartJob;
      } else {
        EnterState(WaitingForStartJob);
        next := NoEvent;
      }
    }

    method PassTowardsEnd(e: Event, env: Env) returns (next: Event)
      requires ValidEnv(env) && Valid() && Accepts(state, e) && Safe(AbsContext(), e)
      requires OnTheWayOut(state)
      modifies this`state, this`expected, this`control, this`quit
      ensures Valid() && leaked == old(leaked)
      ensures Acted(Abs(), next) == FromEndStates(old(Abs()), e, env)
    {
      match state
      case RevertingResolvConf =>
        next := EnterSubmittingStop(env);
      case SubmittingStopJob =>
        state := if e == Success then WaitingStopJob else Stopping;
        next := if e == Success then NoEvent else Stop;
      case WaitingStopJob =>
        if e == JobSuccess || e == JobFailure {
          EnterState(Stopping);
          next := Stop;
        } else {
          next := NoEvent;
        }
      case Stopping =>
        quit := true;
        next := NoEvent;
    }

    /** One pass of the loop, for an event that the state accepts. */
    method Pass(e: Event, env: Env) returns (next: Event)
      requires ValidEnv(env) && Valid() && Accepts(state, e) && Safe(AbsContext(), e)
      modifies this, memory
      ensures Valid() && leaked == old(leaked)
      ensures Acted(Abs(), next) == Step(old(Abs()), e, env)
    {
      match state
      case Starting => next := PassFromStarting(e, env);
      case WaitingForStartJob => next := PassFromWaitingForStartJob(e, env);
      case SettingResolvConf => next := PassFromSettingResolvConf(e, env);
      case UpdatingDnsManager => next := PassFromUpdatingDnsManager(e, env);
      case Running => next := PassFromRunning(e, env);
      case ConfiguringDnsManager | SubmittingStartJob => next := PassTowardsStart(e, env);
      case _ => next := PassTowardsEnd(e, env);
    }

    /** The loop: feeds itself the events its actions produce until there is none. */
    method StateTransition(event: Event, env: Env) returns (code: int)
      requires ValidEnv(env) && Valid() && Safe(AbsContext(), event)
      modifies this, memory
      ensures Valid() && leaked == old(leaked)
      ensures code == Transition(old(Abs()), event, env).code
      ensures Abs() == Transition(old(Abs()), event, env).sys
    {
      var cur := event;
      while true
        invariant Valid() && leaked == old(leaked) && Safe(AbsContext(), cur)
        invariant Transition(Abs(), cur, env).code == Transition(old(Abs()), event, env).code
        invariant Transition(Abs(), cur, env).sys == Transition(old(Abs()), event, env).sys
        decreases Depth(state)
      {
        if !Accepts(state, cur) {
          return -1;
        }
        ghost var before := Abs();
        OnePass(before, cur, env);
        LoopCode(before, cur, env);
        cur := Pass(cur, env);
        if cur == NoEvent {
          return 0;
        }
      }
    }

    // ----- D-Bus calls, the status file and the end

    /** A record for one more server, kept unless its address is taken on another interface. */
    method AdmitServer(records: seq<ServerRecord>, s: Server, wireless: string -> bool) returns (after: seq<ServerRecord>)
      requires DistinctRecords(records) && SetOf(records) <= memory.alive
      modifies memory
      ensures Uris(after) ==
        if Conflicts(s, Uris(records)) then Uris(records) else Uris(records) + [Finished(s, wireless)]
      ensures DistinctRecords(after) && SetOf(records) <= SetOf(after)
      ensures SetOf(after) - SetOf(records) !! old(memory.alive)
      ensures memory.alive == old(memory.alive) + SetOf(after)
    {
      var server := memory.Allocate(Finished(s, wireless));
      var accepted := memory.ReadList(records);
      var duplicate := FindConflict(s, accepted);
      if duplicate {
        memory.Destroy(server);
        after := records;
      } else {
        after := records + [server];
        assert SetOf(after) == SetOf(records) + {server};
        assert Uris(after) == Uris(records) + [server.uri];
      }
    }

    /** Parses the servers of a call into fresh records; on an error none of them is left. */
    method ParseServers(call: Call, wireless: string -> bool) returns (verdict: Verdict, records: seq<ServerRecord>)
      modifies memory
      ensures verdict == Judge(call, wireless)
      ensures verdict.Accepted? ==>
        && Uris(records) == verdict.servers && DistinctRecords(records)
        && SetOf(records) !! old(memory.alive) && memory.alive == old(memory.alive) + SetOf(records)
      ensures verdict.Refused? ==> memory.alive == old(memory.alive)
    {
      records := [];
      if call.mode > 2 {
        return Refused(InvalidMode), [];
      }
      for i := 0 to |call.entries|
        invariant Filter(call.entries[i..], Uris(records), wireless) == Filter(call.entries, [], wireless)
        invariant DistinctRecords(records) && SetOf(records) !! old(memory.alive)
        invariant memory.alive == old(memory.alive) + SetOf(records)
      {
        assert call.entries[i..][0] == call.entries[i] && call.entries[i..][1..] == call.entries[i + 1..];
        match call.entries[i]
        case Broken(error) =>
          memory.FreeList(records);
          return Refused(error), [];
        case Parsed(s) =>
          FilterStep(call.entries[i..], Uris(records), wireless);
          records := AdmitServer(records, s, wireless);
      }
      verdict := Accepted(Uris(records));
    }

    method TakeOver(records: seq<ServerRecord>, mode: Mode)
      requires Shares() && DistinctRecords(dynamicServers) && DistinctRecords(pending) && DistinctRecords(records)
      requires ledger.Some? ==> Unshared(ledger.value)
      requires SetOf(staticServers) !! SetOf(dynamicServers) !! SetOf(pending) !! StoredIn(ledger) !! leaked
      requires (SetOf(staticServers) + SetOf(dynamicServers) + SetOf(pending) + StoredIn(ledger) + leaked) !! SetOf(records)
      requires memory.alive
        == SetOf(staticServers) + SetOf(dynamicServers) + SetOf(pending) + StoredIn(ledger) + leaked + SetOf(records)
      modifies this`leaked, this`pending, this`mode
      ensures Valid() && leaked == old(leaked) + SetOf(old(pending))
      ensures Abs() == HandOver(old(Abs()), Uris(records), mode)
    {
      leaked := leaked + SetOf(pending);
      pending := records;
      this.mode := mode;
    }

    /** An Update call. A list that was handed over before and not taken since is lost. */
    method HandleUpdateCall(call: Call, wireless: string -> bool, env: Env) returns (serial: nat)
      requires ValidEnv(env) && Valid() && Resting(Abs())
      modifies this, memory
      ensures Valid()
      ensures Reply(Abs(), serial) == HandleUpdate(old(Abs()), call, wireless, env)
      ensures leaked == if Judge(call, wireless).Accepted? then old(leaked) + SetOf(old(pending)) else old(leaked)
    {
      var verdict, records := ParseServers(call, wireless);
      match verdict
      case Refused(_) =>
        serial := 0;
      case Accepted(servers) =>
        TakeOver(records, ModeOf(call.mode));
        DeliverEvent(UpdateEvent, env);
        serial := requested;
    }

    method QuitMainLoop(code: nat)
      modifies this`exitCode, this`quit
      ensures Abs() == QuitWith(old(Abs()), code)
    {
      exitCode := code;
      quit := true;
    }

    /** What the D-Bus and signal handlers do with an event. */
    method DeliverEvent(e: Event, env: Env)
      requires ValidEnv(env) && Valid() && Resting(Abs())
      modifies this, memory
      ensures Valid() && leaked == old(leaked)
      ensures Abs() == Deliver(old(Abs()), e, env)
    {
      var code := StateTransition(e, env);
      if code != 0 {
        QuitMainLoop(EXIT_FSM_FAILURE);
      }
    }

    /** The status file changed; if Unbound has just reread its file, that is what is live. */
    method OnFileChanged(content: string, loaded: bool, env: Env)
      requires ValidEnv(env) && Valid() && Resting(Abs())
      modifies this, memory
      ensures Valid() && leaked == old(leaked)
      ensures Abs() == React(old(Abs()), Stimulus(StatusChanged(content, loaded), env))
    {
      if loaded {
        live := file;
      }
      var event;
      if expected == Some(content) {
        event := JobSuccess;
      } else if content == "fail" {
        event := JobFailure;
      } else if content == "stopped" {
        event := Reload;
      } else {
        return;
      }
      var _ := StateTransition(event, env);
    }

    /** The reply is sent; what stays are the new state and the list that was overwritten. */
    method OnUpdateCall(st: Stimulus)
      requires ValidEnv(st.env) && Valid() && Resting(Abs()) && st.input.UpdateCall?
      modifies this, memory
      ensures Valid() && Abs() == HandleUpdate(old(Abs()), st.input.call, st.input.wireless, st.env).sys
      ensures old(leaked) <= leaked && |leaked| == |old(leaked)| + |Overwritten(old(Abs()), st)|
    {
      SizeOfDistinct(pending);
      var _ := HandleUpdateCall(st.input.call, st.input.wireless, st.env);
    }

    method HandleOther(st: Stimulus)
      requires ValidEnv(st.env) && Valid() && Resting(Abs()) && !st.input.UpdateCall?
      modifies this, memory
      ensures Valid() && leaked == old(leaked) && Abs() == React(old(Abs()), st)
    {
      match st.input
      case ReloadCall => DeliverEvent(Reload, st.env);
      case StatusChanged(content, loaded) => OnFileChanged(content, loaded, st.env);
      case Terminate => DeliverEvent(Stop, st.env);
      case NameAcquired => DeliverEvent(Kickoff, st.env);
      case NameLost => QuitMainLoop(EXIT_DBUS_FAILURE);
    }

    method Handle(st: Stimulus)
      requires ValidEnv(st.env) && Valid() && Resting(Abs())
      modifies this, memory
      ensures Valid() && Abs() == React(old(Abs()), st)
      ensures old(leaked) <= leaked && |leaked| == |old(leaked)| + |Overwritten(old(Abs()), st)|
    {
      if st.input.UpdateCall? {
        OnUpdateCall(st);
      } else {
        HandleOther(st);
      }
    }

    /** The main loop. As many records are lost as the run loses servers, and none before the
        daemon is on its way out. */
    method Serve(h: History, ghost original: Contents)
      requires ValidHistory(h) && Valid() && RestInv(Abs(), original)
      modifies this, memory
      ensures Valid() && Abs() == Run(old(Abs()), h) && RestInv(Abs(), original)
      ensures old(leaked) <= leaked && |leaked| == |old(leaked)| + |LostServers(old(Abs()), h)|
      ensures !Ending(state) ==> leaked == old(leaked)
    {
      ghost var start, now := Abs(), Abs();
      for i := 0 to |h|
        invariant Valid() && Abs() == now
        invariant Served(start, now, h, i, |leaked| - |old(leaked)|, original)
        invariant old(leaked) <= leaked && (!Ending(now.ctx.state) ==> |leaked| == |old(leaked)|)
      {
        Advance(start, now, h, i, |leaked| - |old(leaked)|, original);
        Handle(h[i]);
        now := React(now, h[i]);
      }
      if |leaked| == |old(leaked)| {
        SameSize(old(leaked), leaked);
      }
    }

    /** The end of the process: everything the context owns is freed, once. */
    method CleanContext()
      requires Owns()
      modifies memory
      ensures memory.alive == SetOf(staticServers) + leaked
    {
      memory.FreeList(dynamicServers);
      memory.FreeList(pending);
      if ledger.Some? {
        memory.FreeTable(ledger.value);
      }
    }
  }

  lemma SameSize<T>(a: set<T>, b: set<T>)
    requires a <= b && |a| == |b|
    ensures a == b
  {
    assert b == a + (b - a);
  }

  /** After i stimuli of a history, with so many records lost. */
  ghost predicate Served(start: System, now: System, h: History, i: nat, lost: int, original: Contents)
    requires ValidHistory(h) && Resting(start) && i <= |h|
  {
    && RestInv(now, original)
    && Run(now, h[i..]) == Run(start, h)
    && lost + |LostServers(now, h[i..])| == |LostServers(start, h)|
  }

  lemma Advance(start: System, now: System, h: History, i: nat, lost: int, original: Contents)
    requires ValidHistory(h) && Resting(start) && i < |h| && Served(start, now, h, i, lost, original)
    ensures var t := React(now, h[i]);
      && Served(start, t, h, i + 1, lost + |Overwritten(now, h[i])|, original)
      && (!Ending(t.ctx.state) ==> !Ending(now.ctx.state) && Overwritten(now, h[i]) == [])
  {
    ReactKeeps(now, h[i], original);
    assert h[i..][0] == h[i] && h[i..][1..] == h[i + 1..];
    if Ending(now.ctx.state) {
      EndingReact(now, h[i]);
    }
  }

  /** A whole life of the daemon: whatever happens to it, in the end all records but the
      static ones and the lost ones are freed, none of them twice. As many are lost as the
      run loses servers: none, unless two updates come while the daemon stops. */
  method Live(memory: Allocator, staticServers: seq<ServerRecord>, caPaths: seq<string>,
              resolverOptions: Option<string>, listenAddress: Address, world: World, h: History)
    returns (exitCode: nat, ghost lost: set<ServerRecord>)
    requires memory.alive == SetOf(staticServers) && ValidHistory(h) && world.control == [] && !world.quit
    modifies memory
    ensures var s := Init(Config(Uris(staticServers), caPaths, resolverOptions, listenAddress), world);
      && exitCode == Run(s, h).ctx.exitCode
      && |lost| == |LostServers(s, h)|
      && (lost == {} <==> !TwoLateUpdates(s, h))
    ensures memory.alive == SetOf(staticServers) + lost && lost !! SetOf(staticServers)
  {
    var ctx := new FsmContext(memory, staticServers, caPaths, resolverOptions, listenAddress,
                              world.resolv, world.live, world.file);
    InitInv(ctx.AbsConfig(), world);
    assert ctx.Abs() == Init(ctx.AbsConfig(), world);
    LosesIffTwoLateUpdates(ctx.Abs(), h);
    ctx.Serve(h, world.resolv);
    ctx.CleanContext();
    exitCode, lost := ctx.exitCode, ctx.leaked;
  }

  lemma FilterStep(entries: seq<Entry>, accepted: seq<Server>, wireless: string -> bool)
    requires entries != [] && entries[0].Parsed?
    ensures var s := entries[0].server;
      Filter(entries, accepted, wireless)
        == Filter(entries[1..], if Conflicts(s, accepted) then accepted else accepted + [Finished(s, wireless)], wireless)
  {
  }

  /** A pass changes neither the outcome of the loop nor its code. */
  lemma {:induction false} LoopCode(s: System, e: Event, env: Env)
    requires ValidEnv(env) && Safe(s.ctx, e) && Accepts(s.ctx.state, e)
    ensures Follows(s.ctx.state, Step(s, e, env))
    ensures var r := Step(s, e, env);
      Transition(s, e, env).code == if r.event == NoEvent then 0 else Transition(r.sys, r.event, env).code
  {
    StepFollows(s, e, env);
  }

  /** The forward zones of the configuration file, zone by zone; the flags `tls` and
      `rootPresent` are those of the source. */
  method GenerateForwardZones(index: Index, mode: Mode) returns (zones: Table)
    requires NonEmptyLists(index)
    ensures zones == FileTable(UsedView(index, mode))
  {
    zones := map[];
    var rootPresent := false;
    var keys := index.Keys;
    while keys != {}
      invariant keys <= index.Keys && ZonesBut(zones, index, mode, keys)
      invariant rootPresent <==> ROOT in zones
      decreases |keys|
    {
      var d :| d in keys;
      var used := GetUsedServers(index[d], mode, d);
      ghost var before := zones;
      if used != [] {
        var zone := FileZoneOf(used);
        zones := zones[d := zone];
        if !rootPresent && d == ROOT {
          rootPresent := true;
        }
      }
      ZonesNext(before, zones, index, mode, keys, d);
      keys := keys - {d};
    }
    AllZones(zones, index, mode);
    if !rootPresent {
      zones := zones[ROOT := BLACKHOLE];
    }
  }

  /** The zones of every domain but those of `keys`. */
  ghost predicate ZonesBut(zones: Table, index: Index, mode: Mode, keys: set<string>)
    requires NonEmptyLists(index)
  {
    && (forall d :: d in zones <==> d in index && d !in keys && UsedServers(index[d], mode, d) != [])
    && (forall d :: d in zones ==> zones[d] == FileZone(UsedServers(index[d], mode, d)))
  }

  lemma ZonesNext(zones: Table, next: Table, index: Index, mode: Mode, keys: set<string>, d: string)
    requires NonEmptyLists(index) && ZonesBut(zones, index, mode, keys) && d in keys && keys <= index.Keys
    requires next == if UsedServers(index[d], mode, d) == [] then zones
                     else zones[d := FileZone(UsedServers(index[d], mode, d))]
    ensures ZonesBut(next, index, mode, keys - {d})
  {
  }

  lemma AllZones(zones: Table, index: Index, mode: Mode)
    requires NonEmptyLists(index) && ZonesBut(zones, index, mode, {})
    ensures WithRoot(zones) == FileTable(UsedView(index, mode))
  {
    var view := UsedView(index, mode);
    assert zones.Keys == view.Keys;
    assert zones == map d | d in view :: FileZone(view[d]);
  }

  method FileZoneOf(used: seq<Server>) returns (zone: Zone)
    ensures zone == FileZone(used)
  {
    var tls := false;
    var forwarders := [];
    for i := 0 to |used|
      invariant |forwarders| == i && forall j :: 0 <= j < i ==> forwarders[j] == ForwarderOf(used[j])
      invariant tls <==> exists s :: s in used[..i] && s.protocol == Tls
    {
      assert used[..i + 1] == used[..i] + [used[i]];
      if used[i].protocol == Tls {
        tls := true;
      }
      forwarders := forwarders + [ForwarderOf(used[i])];
    }
    assert used[..|used|] == used;
    zone := Zone(forwarders, tls);
  }
}
