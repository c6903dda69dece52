/** Unbound's forward table, the commands that change it, and the two ways the daemon
    writes it: a whole configuration file, or a difference against a ledger. */
module Unbound {
  import opened ServerTypes
  import opened StableSort
  import opened DomainIndex

  /** The servers in use for each domain that has any. */
  type View = map<string, seq<Server>>

  ghost predicate NonEmptyLists(view: View) {
    forall d :: d in view ==> view[d] != []
  }

  function UsedView(index: Index, mode: Mode): (view: View)
    requires NonEmptyLists(index)
    ensures NonEmptyLists(view)
  {
    map d | d in index && UsedServers(index[d], mode, d) != [] :: UsedServers(index[d], mode, d)
  }

  // ----- Forward zones

  /** The text `address@port#name`, as its three parts. */
  datatype Forwarder = Forwarder(address: Address, port: Option<Port>, authName: Option<string>)

  datatype Zone = Zone(forwarders: seq<Forwarder>, tls: bool)

  type Table = map<string, Zone>

  const LOOPBACK: Address := V4([127, 0, 0, 1])

  /** The root zone while no server may resolve it. */
  const BLACKHOLE := Zone([Forwarder(LOOPBACK, None, None)], false)

  function ForwarderOf(s: Server): Forwarder {
    if s.protocol == Tls
    then Forwarder(s.address, Some(if s.port != 0 then s.port else 853), s.name)
    else Forwarder(s.address, if s.port != 0 then Some(s.port) else None, None)
  }

  /** What a forwarder must say about its server: its address; its port, or 853 for TLS without
      one; and for TLS alone the name to authenticate. */
  ghost predicate Describes(f: Forwarder, s: Server) {
    && f.address == s.address
    && (s.port != 0 ==> f.port == Some(s.port))
    && (s.port == 0 && s.protocol == Tls ==> f.port == Some(853))
    && (s.port == 0 && s.protocol != Tls ==> f.port == None)
    && (s.protocol == Tls ==> f.authName == s.name)
    && (s.protocol != Tls ==> f.authName == None)
  }

  /** Only servers that cannot be told apart on the wire share a forwarder. */
  lemma SameForwarderIff(s: Server, t: Server)
    requires s.protocol == t.protocol == Tls
    ensures ForwarderOf(s) == ForwarderOf(t) <==>
      s.address == t.address && s.name == t.name && (s.port == t.port || {s.port, t.port} == {0, 853})
  {
    assert s.port in {s.port, t.port} && t.port in {s.port, t.port};
    assert 0 in {0, 853} && 853 in {0, 853};
  }

  function Forwarders(servers: seq<Server>): (r: seq<Forwarder>)
    ensures |r| == |servers|
    ensures forall i :: 0 <= i < |r| ==> r[i] == ForwarderOf(servers[i])
  {
    seq(|servers|, i requires 0 <= i < |servers| => ForwarderOf(servers[i]))
  }

  /** What the command line gives: TLS if the first server of the list speaks it. */
  function CommandZone(servers: seq<Server>): Zone
    requires servers != []
  {
    Zone(Forwarders(servers), servers[0].protocol == Tls)
  }

  /** What the configuration file gives: TLS if any server of the list speaks it. */
  function FileZone(servers: seq<Server>): Zone {
    Zone(Forwarders(servers), exists s :: s in servers && s.protocol == Tls)
  }

  function WithRoot(t: Table): Table {
    if ROOT in t then t else t[ROOT := BLACKHOLE]
  }

  /** The live table that the commands build for a view. */
  function CommandTable(view: View): Table
    requires NonEmptyLists(view)
  {
    WithRoot(map d | d in view :: CommandZone(view[d]))
  }

  /** The table that the configuration file lists for a view. */
  function FileTable(view: View): Table {
    WithRoot(map d | d in view :: FileZone(view[d]))
  }

  function Lookup(t: Table, d: string): Option<Zone> {
    if d in t then Some(t[d]) else None
  }

  lemma TableExtensionality(s: Table, t: Table)
    requires forall d :: Lookup(s, d) == Lookup(t, d)
    ensures s == t
  {
    forall d
      ensures d in s <==> d in t
      ensures d in s && d in t ==> s[d] == t[d]
    {
      assert Lookup(s, d) == Lookup(t, d);
    }
  }

  /** The zones of a table speak of the servers in use, one by one, and the root is never
      without a zone: nobody serves it, the loopback address does. */
  ghost predicate ZoneDescribes(zone: Zone, servers: seq<Server>) {
    && |zone.forwarders| == |servers|
    && forall i :: 0 <= i < |servers| ==> Describes(zone.forwarders[i], servers[i])
  }

  lemma DescribedOnce(f: Forwarder, g: Forwarder, s: Server)
    requires Describes(f, s) && Describes(g, s)
    ensures f == g
  {
  }

  /** A zone that describes a list of servers forwards to exactly these. */
  lemma ForwarderIff(zone: Zone, servers: seq<Server>, f: Forwarder)
    requires ZoneDescribes(zone, servers)
    ensures f in zone.forwarders <==> exists s :: s in servers && Describes(f, s)
  {
    if f in zone.forwarders {
      var i :| 0 <= i < |zone.forwarders| && zone.forwarders[i] == f;
      assert servers[i] in servers && Describes(f, servers[i]);
    }
    if s :| s in servers && Describes(f, s) {
      var i :| 0 <= i < |servers| && servers[i] == s;
      DescribedOnce(f, zone.forwarders[i], s);
    }
  }

  ghost predicate TableDescribes(table: Table, view: View) {
    && table.Keys == view.Keys + {"."}
    && (forall d :: d in view ==> ZoneDescribes(table[d], view[d]))
    && ("." !in view ==> table["."] == Zone([Forwarder(V4([127, 0, 0, 1]), None, None)], false))
  }

  lemma WithRootDescribes(zones: Table, view: View)
    requires zones.Keys == view.Keys && forall d :: d in view ==> ZoneDescribes(zones[d], view[d])
    ensures TableDescribes(WithRoot(zones), view)
  {
  }

  lemma TablesDescribeServers(view: View)
    requires NonEmptyLists(view)
    ensures TableDescribes(FileTable(view), view) && TableDescribes(CommandTable(view), view)
    ensures forall d :: d in view ==>
      && (FileTable(view)[d].tls <==> exists s :: s in view[d] && s.protocol == Tls)
      && (CommandTable(view)[d].tls <==> view[d][0].protocol == Tls)
  {
    WithRootDescribes(map d | d in view :: FileZone(view[d]), view);
    WithRootDescribes(map d | d in view :: CommandZone(view[d]), view);
  }

  // ----- File and command agree

  lemma UniformZonesAgree(servers: seq<Server>)
    requires servers != []
    requires forall s :: s in servers ==> s.protocol == servers[0].protocol
    ensures FileZone(servers) == CommandZone(servers)
  {
    assert servers[0] in servers;
  }

  /** In a sorted index the file and the command describe the same zones. */
  lemma FileAndCommandAgree(servers: seq<Server>, mode: Mode)
    requires DomainSpansFit(servers)
    ensures NonEmptyLists(BuildIndex(servers))
    ensures FileTable(UsedView(BuildIndex(servers), mode)) == CommandTable(UsedView(BuildIndex(servers), mode))
  {
    var index := BuildIndex(servers);
    IndexNonEmpty(servers);
    var view := UsedView(index, mode);
    forall d | d in view
      ensures FileZone(view[d]) == CommandZone(view[d])
    {
      IndexIsStableSort(servers, d);
      UsedServersOneRank(index[d], mode, d);
      assert view[d][0] in view[d];
      UniformZonesAgree(view[d]);
    }
    assert (map d | d in view :: FileZone(view[d])) == (map d | d in view :: CommandZone(view[d]));
  }

  /** The agreement is lost to an overflowing priority difference: two servers of equal
      priority, one with TLS, behind a third that the comparator wrongly puts first. */
  lemma OverflowSplitsFileFromCommand(b: Server, c: Server, a: Server, d: string)
    requires forall s :: s in [b, c, a] ==> s.routingDomains == [d] && s.networks == [] && s.interface == ""
    requires b.protocol == Udp && c.protocol == Tls && a.protocol == Udp
    requires a.dnssec == b.dnssec == c.dnssec && a.priority == c.priority > b.priority
    ensures NonEmptyLists(BuildIndex([b, c, a]))
    ensures var view := UsedView(BuildIndex([b, c, a]), Backup);
      FileTable(view) == CommandTable(view) <==> c.priority - b.priority <= 0x7fff_ffff
  {
    var all := [b, c, a];
    IndexNonEmpty(all);
    if c.priority - b.priority <= 0x7fff_ffff {
      SpanFitsEverywhere(all);
      FileAndCommandAgree(all, Backup);
    } else {
      MisorderedTriple(b, c, a, d);
      TablesSplit(UsedView(BuildIndex(all), Backup), d, c);
    }
  }

  lemma MisorderedTriple(b: Server, c: Server, a: Server, d: string)
    requires forall s :: s in [b, c, a] ==> s.routingDomains == [d] && s.networks == [] && s.interface == ""
    requires b.protocol == Udp && c.protocol == Tls && a.protocol == Udp
    requires a.dnssec == b.dnssec == c.dnssec && a.priority == c.priority
    requires c.priority - b.priority > 0x7fff_ffff
    ensures d in BuildIndex([b, c, a]) && BuildIndex([b, c, a])[d] != []
    ensures UsedServers(BuildIndex([b, c, a])[d], Backup, d) == [a, c, b]
  {
    WideDifferenceMisorders(c, b);
    CompareIsRankOrder(c, a);
    TripleIndex(b, c, a, d);
    TripleScan(b, c, a, d);
  }

  lemma TablesSplit(view: View, d: string, s: Server)
    requires NonEmptyLists(view) && d in view
    requires s in view[d] && s.protocol == Tls && view[d][0].protocol != Tls
    ensures FileTable(view) != CommandTable(view)
  {
    assert FileTable(view)[d] == FileZone(view[d]) && CommandTable(view)[d] == CommandZone(view[d]);
  }

  lemma TripleIndex(b: Server, c: Server, a: Server, d: string)
    requires forall s :: s in [b, c, a] ==> s.routingDomains == [d] && s.networks == []
    requires Precedes(b, c) && Precedes(c, a)
    ensures d in BuildIndex([b, c, a]) && BuildIndex([b, c, a])[d] == [b, c, a]
  {
    var all := [b, c, a];
    assert b in all && c in all && a in all;
    assert all[1..] == [c, a] && all[..1] == [b];
    PairIndex(c, a, d);
    assert CountDomain([d], d) == 1;
    assert Repeat(b, 1) == [b];
    assert [c, a][1..] == [a] && [a][1..] == [];
    assert Repeat(c, 1) == [c] && Repeat(a, 1) == [a];
    assert Naming([a], d) == [a];
    assert Naming([c, a], d) == [c, a];
    assert Naming(all, d) == all;
    assert Sort([b], Precedes) == [b];
    assert [c, a][..1] == [c];
    assert Sort([c, a], Precedes) == SortServers(Naming([c, a], d)) == [c, a];
    assert [b][1..] == [];
    assert Merge([b], [c, a], Precedes) == [b] + Merge([], [c, a], Precedes);
    assert Sort(all, Precedes) == Merge(Sort([b], Precedes), Sort([c, a], Precedes), Precedes);
  }

  lemma TripleScan(b: Server, c: Server, a: Server, d: string)
    requires forall s :: s in [b, c, a] ==> s.interface == ""
    requires !EndsScan(c, b) && !EndsScan(a, b)
    ensures UsedServers([b, c, a], Backup, d) == [a, c, b]
  {
    var all := [b, c, a];
    assert b in all && c in all && a in all;
    assert all[1..] == [c, a] && [c, a][1..] == [a] && [a][1..] == [];
    assert Scan([a], b, Backup, d) == [a];
    assert Scan([c, a], b, Backup, d) == [c, a];
    assert Scan(all, b, Backup, d) == all;
    assert Reversed([a]) == [a];
    assert Reversed([c, a]) == [a, c];
    assert Reversed(all) == [a, c, b];
  }

  lemma IndexNonEmpty(servers: seq<Server>)
    ensures NonEmptyLists(BuildIndex(servers))
  {
    forall d | d in BuildIndex(servers)
      ensures BuildIndex(servers)[d] != []
    {
      IndexListsNonEmpty(servers, d);
    }
  }

  // ----- Commands

  datatype Command =
    | ForwardAdd(domain: string, insecure: bool, tls: bool, forwarders: seq<Forwarder>)
    | ForwardRemove(domain: string)
    | FlushZone(domain: string)

  function ForwardAddCommand(domain: string, servers: seq<Server>): Command
    requires servers != []
  {
    ForwardAdd(domain, !servers[0].dnssec, servers[0].protocol == Tls, Forwarders(servers))
  }

  /** The root is never removed but pointed back at the loopback address. */
  function RemoveCommand(domain: string): Command {
    if domain != ROOT then ForwardRemove(domain)
    else ForwardAdd(ROOT, false, false, BLACKHOLE.forwarders)
  }

  function Apply(live: Table, c: Command): Table {
    match c
    case ForwardAdd(d, _, tls, forwarders) => live[d := Zone(forwarders, tls)]
    case ForwardRemove(d) => live - {d}
    case FlushZone(_) => live
  }

  function ApplyAll(live: Table, cs: seq<Command>): Table
    decreases |cs|
  {
    if cs == [] then live else ApplyAll(Apply(live, cs[0]), cs[1..])
  }

  // ----- Comparing two lists of used servers

  predicate SameServer(a: Server, b: Server) {
    && a.address == b.address && a.port == b.port
    && a.priority == b.priority
    && a.interface == b.interface
    && a.dnssec == b.dnssec
    && a.protocol == b.protocol
    && a.ca == b.ca
    && a.name == b.name
  }

  predicate SameServerLists(a: seq<Server>, b: seq<Server>) {
    |a| == |b| && forall i :: 0 <= i < |a| ==> SameServer(a[i], b[i])
  }

  /** The compared fields are all but the domains and networks. */
  lemma SameServerIff(a: Server, b: Server)
    ensures SameServer(a, b) <==>
      a == b.(routingDomains := a.routingDomains, searchDomains := a.searchDomains, networks := a.networks)
  {
  }

  /** Field by field, in the order of the source; true means no difference found. */
  method CompareServers(a: seq<Server>, b: seq<Server>) returns (same: bool)
    ensures same <==> SameServerLists(a, b)
  {
    if |a| != |b| {
      return false;
    }
    for i := 0 to |a|
      invariant forall j :: 0 <= j < i ==> SameServer(a[j], b[j])
    {
      if a[i].address != b[i].address || a[i].port != b[i].port {
        return false;
      }
      if a[i].priority != b[i].priority {
        return false;
      }
      if a[i].interface != b[i].interface {
        return false;
      }
      if a[i].dnssec != b[i].dnssec {
        return false;
      }
      if a[i].protocol != b[i].protocol {
        return false;
      }
      if a[i].ca != b[i].ca {
        return false;
      }
      if a[i].name != b[i].name {
        return false;
      }
    }
    return true;
  }

  /** Lists that compare equal ask Unbound for the same thing, whatever the domain. */
  lemma SkippingIsSound(a: seq<Server>, b: seq<Server>, domain: string)
    requires a != [] && SameServerLists(a, b)
    ensures ForwardAddCommand(domain, a) == ForwardAddCommand(domain, b)
    ensures CommandZone(a) == CommandZone(b)
  {
    forall i | 0 <= i < |a|
      ensures ForwarderOf(a[i]) == ForwarderOf(b[i])
    {
      assert SameServer(a[i], b[i]);
    }
    assert Forwarders(a) == Forwarders(b);
    assert SameServer(a[0], b[0]);
  }

  // ----- The plan of an incremental update

  /** The ledger already holds these servers for the domain. */
  predicate Unchanged(view: View, ledger: View, d: string)
    requires d in view
  {
    d in ledger && SameServerLists(view[d], ledger[d])
  }

  function Adds(view: View, ledger: View, order: seq<string>): seq<Command>
    requires NonEmptyLists(view) && forall d :: d in order ==> d in view
  {
    if order == [] then []
    else if Unchanged(view, ledger, order[0]) then Adds(view, ledger, order[1..])
    else [ForwardAddCommand(order[0], view[order[0]]), FlushZone(order[0])] + Adds(view, ledger, order[1..])
  }

  function Removes(view: View, order: seq<string>): seq<Command> {
    if order == [] then []
    else if order[0] in view then Removes(view, order[1..])
    else [RemoveCommand(order[0]), FlushZone(order[0])] + Removes(view, order[1..])
  }

  function Plan(view: View, ledger: View, adds: seq<string>, removes: seq<string>): seq<Command>
    requires NonEmptyLists(view) && forall d :: d in adds ==> d in view
  {
    Adds(view, ledger, adds) + Removes(view, removes)
  }

  /** A command to change the forwarding of a domain, as the source builds it. */
  ghost predicate Changes(c: Command, view: View, ledger: View) {
    && !c.FlushZone?
    && if c.domain in view then
         && c.ForwardAdd? && view[c.domain] != []
         && (c.insecure <==> !view[c.domain][0].dnssec) && (c.tls <==> view[c.domain][0].protocol == Tls)
         && ZoneDescribes(Zone(c.forwarders, c.tls), view[c.domain])
         && !(c.domain in ledger && SameServerLists(view[c.domain], ledger[c.domain]))
       else if c.domain == "." then
         c == ForwardAdd(".", false, false, [Forwarder(V4([127, 0, 0, 1]), None, None)])
       else c == ForwardRemove(c.domain)
  }

  /** Commands come in pairs: a change, and the flush of the zone it changed. */
  ghost predicate Paired(cs: seq<Command>, view: View, ledger: View) {
    && |cs| % 2 == 0
    && forall i :: 0 <= i < |cs| && i % 2 == 0 ==>
         Changes(cs[i], view, ledger) && cs[i + 1] == FlushZone(cs[i].domain)
  }

  ghost predicate AllWithin(cs: seq<Command>, domains: set<string>) {
    forall c :: c in cs ==> c.domain in domains
  }

  /** The first k commands are about domains to be served, the others about former ones. */
  ghost predicate ServedFirst(cs: seq<Command>, view: View, ledger: View, k: nat) {
    k <= |cs| && AllWithin(cs[..k], view.Keys) && AllWithin(cs[k..], ledger.Keys - view.Keys)
  }

  lemma PairedJoin(xs: seq<Command>, ys: seq<Command>, view: View, ledger: View)
    requires Paired(xs, view, ledger) && Paired(ys, view, ledger)
    ensures Paired(xs + ys, view, ledger)
  {
    var cs := xs + ys;
    forall i | 0 <= i < |cs| && i % 2 == 0
      ensures Changes(cs[i], view, ledger) && cs[i + 1] == FlushZone(cs[i].domain)
    {
      if i >= |xs| {
        assert (i - |xs|) % 2 == 0;
        assert cs[i] == ys[i - |xs|] && cs[i + 1] == ys[i - |xs| + 1];
      }
    }
  }

  lemma {:induction false} AddsArePaired(view: View, ledger: View, order: seq<string>)
    requires NonEmptyLists(view) && forall d :: d in order ==> d in view
    ensures Paired(Adds(view, ledger, order), view, ledger) && AllWithin(Adds(view, ledger, order), view.Keys)
  {
    if order != [] {
      AddsArePaired(view, ledger, order[1..]);
      if !Unchanged(view, ledger, order[0]) {
        var pair := [ForwardAddCommand(order[0], view[order[0]]), FlushZone(order[0])];
        assert Paired(pair, view, ledger);
        PairedJoin(pair, Adds(view, ledger, order[1..]), view, ledger);
      }
    }
  }

  lemma {:induction false} RemovesArePaired(view: View, ledger: View, order: seq<string>)
    requires forall d :: d in order ==> d in ledger
    ensures Paired(Removes(view, order), view, ledger) && AllWithin(Removes(view, order), ledger.Keys - view.Keys)
  {
    if order != [] {
      RemovesArePaired(view, ledger, order[1..]);
      if order[0] !in view {
        var pair := [RemoveCommand(order[0]), FlushZone(order[0])];
        assert Paired(pair, view, ledger);
        PairedJoin(pair, Removes(view, order[1..]), view, ledger);
      }
    }
  }

  /** What is sent: every change is followed by the flush of its zone; domains to be served come
      first, each with its own flags and forwarders; those no longer served come last. */
  lemma PlanIsPaired(view: View, ledger: View, adds: seq<string>, removes: seq<string>)
    requires NonEmptyLists(view) && Enumerates(adds, view.Keys) && Enumerates(removes, ledger.Keys)
    ensures Paired(Plan(view, ledger, adds, removes), view, ledger)
    ensures exists k :: ServedFirst(Plan(view, ledger, adds, removes), view, ledger, k)
  {
    AddsArePaired(view, ledger, adds);
    RemovesArePaired(view, ledger, removes);
    var a, r := Adds(view, ledger, adds), Removes(view, removes);
    PairedJoin(a, r, view, ledger);
    assert (a + r)[..|a|] == a && (a + r)[|a|..] == r;
    assert ServedFirst(a + r, view, ledger, |a|);
  }

  /** Whether a command is one the plan may contain: it binds its domain to what the new
      table wants there. */
  ghost predicate MovesTowards(c: Command, target: Table) {
    match c
    case ForwardAdd(d, _, tls, forwarders) => Lookup(target, d) == Some(Zone(forwarders, tls))
    case ForwardRemove(d) => Lookup(target, d) == None
    case FlushZone(_) => true
  }

  ghost predicate AllMoveTowards(cs: seq<Command>, target: Table) {
    forall c :: c in cs ==> MovesTowards(c, target)
  }

  function DomainOf(c: Command): Option<string> {
    if c.FlushZone? then None else Some(c.domain)
  }

  ghost predicate Touches(cs: seq<Command>, d: string) {
    exists c :: c in cs && DomainOf(c) == Some(d)
  }

  /** After any commands of the plan, each domain is bound to its old or its new value:
      its new one once a command has named it. */
  lemma {:induction false} AppliedCommands(live: Table, cs: seq<Command>, target: Table, d: string)
    requires AllMoveTowards(cs, target)
    ensures Lookup(ApplyAll(live, cs), d) == if Touches(cs, d) then Lookup(target, d) else Lookup(live, d)
    decreases |cs|
  {
    if cs != [] {
      var rest, next := cs[1..], Apply(live, cs[0]);
      assert cs == [cs[0]] + rest;
      assert MovesTowards(cs[0], target);
      AppliedCommands(next, rest, target, d);
      assert Touches(cs, d) <==> Touches(rest, d) || DomainOf(cs[0]) == Some(d);
    }
  }

  lemma {:induction false} AddsMoveTowards(view: View, ledger: View, order: seq<string>)
    requires NonEmptyLists(view) && forall d :: d in order ==> d in view
    ensures AllMoveTowards(Adds(view, ledger, order), CommandTable(view))
    ensures forall d :: Touches(Adds(view, ledger, order), d) <==> d in order && !Unchanged(view, ledger, d)
  {
    if order != [] {
      var o, rest := order[0], order[1..];
      AddsMoveTowards(view, ledger, rest);
      assert order == [o] + rest;
      var tail := Adds(view, ledger, rest);
      if Unchanged(view, ledger, o) {
        assert Adds(view, ledger, order) == tail;
      } else {
        PairThenRest(ForwardAddCommand(o, view[o]), o, tail, CommandTable(view));
      }
    }
  }

  lemma {:induction false} RemovesMoveTowards(view: View, order: seq<string>)
    requires NonEmptyLists(view)
    ensures AllMoveTowards(Removes(view, order), CommandTable(view))
    ensures forall d :: Touches(Removes(view, order), d) <==> d in order && d !in view
  {
    if order != [] {
      var o, rest := order[0], order[1..];
      RemovesMoveTowards(view, rest);
      assert order == [o] + rest;
      if o in view {
        assert Removes(view, order) == Removes(view, rest);
      } else {
        PairThenRest(RemoveCommand(o), o, Removes(view, rest), CommandTable(view));
      }
    }
  }

  lemma PairThenRest(c: Command, o: string, tail: seq<Command>, target: Table)
    requires DomainOf(c) == Some(o) && MovesTowards(c, target) && AllMoveTowards(tail, target)
    ensures AllMoveTowards([c, FlushZone(o)] + tail, target)
    ensures forall d :: Touches([c, FlushZone(o)] + tail, d) <==> d == o || Touches(tail, d)
  {
    var cs := [c, FlushZone(o)] + tail;
    assert cs[0] == c;
    forall d
      ensures Touches(cs, d) <==> d == o || Touches(tail, d)
    {
      assert forall x :: x in cs <==> x == c || x == FlushZone(o) || x in tail;
      assert c in cs;
    }
  }

  /** Which domains the plan leaves alone: those the ledger and the view agree on. */
  ghost predicate LeftAlone(view: View, ledger: View, d: string) {
    if d in view then Unchanged(view, ledger, d) else d !in ledger
  }

  lemma PlanFacts(view: View, ledger: View, adds: seq<string>, removes: seq<string>)
    requires NonEmptyLists(view) && Enumerates(adds, view.Keys) && Enumerates(removes, ledger.Keys)
    ensures AllMoveTowards(Plan(view, ledger, adds, removes), CommandTable(view))
    ensures forall d :: Touches(Plan(view, ledger, adds, removes), d) <==> !LeftAlone(view, ledger, d)
  {
    AddsMoveTowards(view, ledger, adds);
    RemovesMoveTowards(view, removes);
    var a, r := Adds(view, ledger, adds), Removes(view, removes);
    forall d
      ensures Touches(a + r, d) <==> Touches(a, d) || Touches(r, d)
    {
      assert forall c :: c in a + r <==> c in a || c in r;
    }
  }

  /** At every moment of an update each domain keeps its old value or has its new one, so
      a domain present in both tables, like the root, is never left unbound. */
  lemma {:induction false} EveryMomentOldOrNew(live: Table, view: View, ledger: View, adds: seq<string>, removes: seq<string>,
                            k: nat, d: string)
    requires NonEmptyLists(view) && Enumerates(adds, view.Keys) && Enumerates(removes, ledger.Keys)
    requires k <= |Plan(view, ledger, adds, removes)|
    ensures var t := ApplyAll(live, Plan(view, ledger, adds, removes)[..k]);
      Lookup(t, d) == Lookup(live, d) || Lookup(t, d) == Lookup(CommandTable(view), d)
  {
    PlanFacts(view, ledger, adds, removes);
    var cs := Plan(view, ledger, adds, removes)[..k];
    assert AllMoveTowards(cs, CommandTable(view));
    AppliedCommands(live, cs, CommandTable(view), d);
  }

  /** Running the whole plan against any live table gives the new table exactly when the
      live table was already right wherever ledger and view agree. */
  lemma {:induction false} PlanReachesTargetIff(live: Table, view: View, ledger: View, adds: seq<string>, removes: seq<string>)
    requires NonEmptyLists(view) && Enumerates(adds, view.Keys) && Enumerates(removes, ledger.Keys)
    ensures ApplyAll(live, Plan(view, ledger, adds, removes)) == CommandTable(view) <==>
      forall d :: LeftAlone(view, ledger, d) ==> Lookup(live, d) == Lookup(CommandTable(view), d)
  {
    var cs, target := Plan(view, ledger, adds, removes), CommandTable(view);
    PlanFacts(view, ledger, adds, removes);
    forall d
      ensures Lookup(ApplyAll(live, cs), d) == if LeftAlone(view, ledger, d) then Lookup(live, d) else Lookup(target, d)
    {
      AppliedCommands(live, cs, target, d);
    }
    if forall d :: LeftAlone(view, ledger, d) ==> Lookup(live, d) == Lookup(target, d) {
      TableExtensionality(ApplyAll(live, cs), target);
    }
  }

  lemma LedgerTableIsRightWhereLeftAlone(view: View, ledger: View, d: string)
    requires NonEmptyLists(view) && NonEmptyLists(ledger) && LeftAlone(view, ledger, d)
    ensures Lookup(CommandTable(ledger), d) == Lookup(CommandTable(view), d)
  {
    if d in view {
      SkippingIsSound(view[d], ledger[d], d);
    }
  }

  /** The incremental update refines the rebuild: from the ledger's table, or from the
      target itself, it ends in the table of the new view. */
  lemma {:induction false} IncrementalRefinesRebuild(live: Table, view: View, ledger: View, adds: seq<string>, removes: seq<string>)
    requires NonEmptyLists(view) && NonEmptyLists(ledger)
    requires Enumerates(adds, view.Keys) && Enumerates(removes, ledger.Keys)
    requires live == CommandTable(ledger) || live == CommandTable(view)
    ensures ApplyAll(live, Plan(view, ledger, adds, removes)) == CommandTable(view)
  {
    PlanReachesTargetIff(live, view, ledger, adds, removes);
    forall d | LeftAlone(view, ledger, d)
      ensures Lookup(live, d) == Lookup(CommandTable(view), d)
    {
      LedgerTableIsRightWhereLeftAlone(view, ledger, d);
    }
  }

  /** Updating twice with nothing changed in between sends no command. */
  lemma {:induction false} NothingToAdd(view: View, order: seq<string>)
    requires NonEmptyLists(view) && forall d :: d in order ==> d in view
    ensures Adds(view, view, order) == []
  {
    if order != [] {
      NothingToAdd(view, order[1..]);
    }
  }

  lemma {:induction false} NothingToRemove(view: View, order: seq<string>)
    requires forall d :: d in order ==> d in view
    ensures Removes(view, order) == []
  {
    if order != [] {
      NothingToRemove(view, order[1..]);
    }
  }

  lemma UpdateIsIdempotent(view: View, adds: seq<string>, removes: seq<string>)
    requires NonEmptyLists(view) && Enumerates(adds, view.Keys) && Enumerates(removes, view.Keys)
    ensures Plan(view, view, adds, removes) == []
  {
    NothingToAdd(view, adds);
    NothingToRemove(view, removes);
  }

  // ----- Executing commands that can fail

  /** A failed command may or may not have taken effect. */
  datatype Fate = Succeeds | FailsAfter | FailsBefore

  type Fates = nat -> Fate

  datatype Executed = Executed(live: Table, ok: bool)

  /** Runs commands, the first of which is number n, up to the first failure. */
  function Execute(live: Table, cs: seq<Command>, fates: Fates, n: nat): Executed
    decreases |cs|
  {
    if cs == [] then Executed(live, true)
    else
      match fates(n)
      case Succeeds => Execute(Apply(live, cs[0]), cs[1..], fates, n + 1)
      case FailsAfter => Executed(Apply(live, cs[0]), false)
      case FailsBefore => Executed(live, false)
  }

  /** What was executed is a prefix of the plan; all of it when nothing failed. */
  lemma {:induction false} ExecutedPrefix(live: Table, cs: seq<Command>, fates: Fates, n: nat)
    ensures exists k :: 0 <= k <= |cs| && Execute(live, cs, fates, n).live == ApplyAll(live, cs[..k])
    ensures Execute(live, cs, fates, n).ok ==> Execute(live, cs, fates, n).live == ApplyAll(live, cs)
    decreases |cs|
  {
    if cs == [] {
      assert cs[..0] == [];
    } else {
      match fates(n)
      case Succeeds =>
        var next, rest := Apply(live, cs[0]), cs[1..];
        ExecutedPrefix(next, rest, fates, n + 1);
        var k :| 0 <= k <= |rest| && Execute(next, rest, fates, n + 1).live == ApplyAll(next, rest[..k]);
        assert cs[..k + 1][1..] == rest[..k];
        assert Execute(live, cs, fates, n).live == ApplyAll(live, cs[..k + 1]);
      case FailsAfter =>
        assert cs[..1] == [cs[0]];
        assert [cs[0]][1..] == [];
        assert ApplyAll(live, [cs[0]]) == ApplyAll(Apply(live, cs[0]), []);
        assert Execute(live, cs, fates, n).live == ApplyAll(live, cs[..1]);
      case FailsBefore =>
        assert cs[..0] == [];
    }
  }

  lemma {:induction false} AllSucceed(live: Table, cs: seq<Command>, fates: Fates, n: nat)
    requires forall m :: n <= m < n + |cs| ==> fates(m) == Succeeds
    ensures Execute(live, cs, fates, n) == Executed(ApplyAll(live, cs), true)
    decreases |cs|
  {
    if cs != [] {
      AllSucceed(Apply(live, cs[0]), cs[1..], fates, n + 1);
    }
  }

  /** The first failing command is the last one sent. */
  lemma {:induction false} StopsAtFirstFailure(live: Table, cs: seq<Command>, fates: Fates, n: nat, k: nat)
    requires k < |cs| && fates(n + k) != Succeeds && forall m :: n <= m < n + k ==> fates(m) == Succeeds
    ensures Execute(live, cs, fates, n)
         == Executed(ApplyAll(live, cs[..if fates(n + k) == FailsAfter then k + 1 else k]), false)
    decreases |cs|
  {
    if k == 0 {
      assert cs[..0] == [] && cs[..1] == [cs[0]] && [cs[0]][1..] == [];
      assert ApplyAll(live, [cs[0]]) == ApplyAll(Apply(live, cs[0]), []);
    } else {
      StopsAtFirstFailure(Apply(live, cs[0]), cs[1..], fates, n + 1, k - 1);
      var m := if fates(n + k) == FailsAfter then k + 1 else k;
      assert cs[..m][1..] == cs[1..][..m - 1];
    }
  }

  /** Whatever command fails, the live table only ever holds old or new values. */
  lemma {:induction false} FailureLeavesOldOrNew(live: Table, view: View, ledger: View, adds: seq<string>, removes: seq<string>,
                              fates: Fates, d: string)
    requires NonEmptyLists(view) && Enumerates(adds, view.Keys) && Enumerates(removes, ledger.Keys)
    ensures var t := Execute(live, Plan(view, ledger, adds, removes), fates, 0).live;
      Lookup(t, d) == Lookup(live, d) || Lookup(t, d) == Lookup(CommandTable(view), d)
  {
    var cs := Plan(view, ledger, adds, removes);
    ExecutedPrefix(live, cs, fates, 0);
    var k :| 0 <= k <= |cs| && Execute(live, cs, fates, 0).live == ApplyAll(live, cs[..k]);
    EveryMomentOldOrNew(live, view, ledger, adds, removes, k, d);
  }
}
