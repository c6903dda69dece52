/** Server records as the program holds them: heap objects that the lists and the
    index share. A record does not change once it is handed over. */
module Records {
  import opened ServerTypes
  import opened StableSort
  import opened DomainIndex
  import ReverseDns

  class ServerRecord {
    const uri: Server

    constructor (uri: Server)
      ensures this.uri == uri
    {
      this.uri := uri;
    }
  }

  function Uris(list: seq<ServerRecord>): (r: seq<Server>)
    ensures |r| == |list|
    ensures forall i :: 0 <= i < |r| ==> r[i] == list[i].uri
  {
    seq(|list|, i requires 0 <= i < |list| => list[i].uri)
  }

  type RecordTable = map<string, seq<ServerRecord>>

  /** What a table of records says about servers. */
  function UriTable(table: RecordTable): Index {
    map d | d in table :: Uris(table[d])
  }

  lemma UrisConcat(a: seq<ServerRecord>, b: seq<ServerRecord>)
    ensures Uris(a + b) == Uris(a) + Uris(b)
  {
  }

  // ----- Sorting records sorts their servers

  predicate RecordPrecedes(p: ServerRecord, q: ServerRecord) {
    Precedes(p.uri, q.uri)
  }

  lemma {:induction false} MergeRecords(xs: seq<ServerRecord>, ys: seq<ServerRecord>)
    ensures Uris(Merge(xs, ys, RecordPrecedes)) == Merge(Uris(xs), Uris(ys), Precedes)
    decreases |xs| + |ys|
  {
    if xs != [] && ys != [] {
      if RecordPrecedes(xs[0], ys[0]) {
        MergeRecords(xs[1..], ys);
        assert Uris(xs)[1..] == Uris(xs[1..]);
        UrisConcat([xs[0]], Merge(xs[1..], ys, RecordPrecedes));
      } else {
        MergeRecords(xs, ys[1..]);
        assert Uris(ys)[1..] == Uris(ys[1..]);
        UrisConcat([ys[0]], Merge(xs, ys[1..], RecordPrecedes));
      }
    }
  }

  lemma {:induction false} SortRecords(xs: seq<ServerRecord>)
    ensures Uris(Sort(xs, RecordPrecedes)) == SortServers(Uris(xs))
  {
    if |xs| >= 2 {
      var l, r := xs[..|xs| / 2], xs[|xs| / 2..];
      SortRecords(l);
      SortRecords(r);
      MergeRecords(Sort(l, RecordPrecedes), Sort(r, RecordPrecedes));
      assert Uris(xs)[..|xs| / 2] == Uris(l) && Uris(xs)[|xs| / 2..] == Uris(r);
    }
  }

  lemma {:induction false} SortKeepsRecord(xs: seq<ServerRecord>, p: ServerRecord)
    ensures p in Sort(xs, RecordPrecedes) <==> p in xs
  {
    SortKeepsElements(xs, RecordPrecedes);
    SameElement(Sort(xs, RecordPrecedes), xs, p);
  }

  // ----- Building the index

  function ListAt(table: RecordTable, d: string): seq<ServerRecord> {
    if d in table then table[d] else []
  }

  /** Append to the domain's list, creating it if need be. */
  function AppendServer(table: RecordTable, d: string, p: ServerRecord): RecordTable {
    table[d := ListAt(table, d) + [p]]
  }

  ghost predicate NoEmptyList(table: RecordTable) {
    forall d :: d in table ==> table[d] != []
  }

  ghost predicate Within(table: RecordTable, servers: seq<ServerRecord>) {
    forall d, p :: d in table && p in table[d] ==> p in servers
  }

  /** The table holds, for every domain, what `before` held plus p as often as told. */
  ghost predicate Grown(table: RecordTable, before: RecordTable, p: ServerRecord, times: string -> nat) {
    forall d :: Uris(ListAt(table, d)) == Uris(ListAt(before, d)) + Repeat(p.uri, times(d))
  }

  lemma AppendGrows(table: RecordTable, before: RecordTable, p: ServerRecord, d: string, n: string -> nat, m: string -> nat)
    requires Grown(table, before, p, n)
    requires forall x :: m(x) == n(x) + if x == d then 1 else 0
    ensures Grown(AppendServer(table, d, p), before, p, m)
  {
    var after := AppendServer(table, d, p);
    forall x
      ensures Uris(ListAt(after, x)) == Uris(ListAt(before, x)) + Repeat(p.uri, m(x))
    {
      assert Uris(ListAt(table, x)) == Uris(ListAt(before, x)) + Repeat(p.uri, n(x));
      if x == d {
        UrisConcat(ListAt(table, d), [p]);
        assert Repeat(p.uri, m(x)) == Repeat(p.uri, n(x)) + [p.uri];
      }
    }
  }

  lemma {:induction false} CountDomainSnoc(domains: seq<string>, last: string, d: string)
    ensures CountDomain(domains + [last], d) == CountDomain(domains, d) + if last == d then 1 else 0
  {
    if domains == [] {
      assert [last][1..] == [];
    } else {
      CountDomainSnoc(domains[1..], last, d);
      assert (domains + [last])[1..] == domains[1..] + [last];
    }
  }

  lemma {:induction false} CountNetworksSnoc(networks: seq<Network>, last: Network, d: string)
    ensures CountNetworks(networks + [last], d)
         == CountNetworks(networks, d) + if ReverseDns.ZoneName(last) == d then 1 else 0
  {
    if networks == [] {
      assert [last][1..] == [];
    } else {
      CountNetworksSnoc(networks[1..], last, d);
      assert (networks + [last])[1..] == networks[1..] + [last];
    }
  }

  lemma {:induction false} NamingSnoc(servers: seq<Server>, last: Server, d: string)
    ensures Naming(servers + [last], d) == Naming(servers, d) + Repeat(last, Mentions(last, d))
  {
    NamingKeepsOrder(servers, [last], d);
    assert [last][1..] == [] && Naming([], d) == [];
  }

  function RoutedTo(domains: seq<string>): string -> nat {
    d => CountDomain(domains, d)
  }

  function ReverseZonesOf(networks: seq<Network>): string -> nat {
    d => CountNetworks(networks, d)
  }

  /** Nothing but p was added to the lists. */
  ghost predicate AddsOnly(table: RecordTable, before: RecordTable, p: ServerRecord) {
    forall d, q :: d in table && q in table[d] ==> q == p || (d in before && q in before[d])
  }

  lemma AppendAddsOnly(table: RecordTable, before: RecordTable, p: ServerRecord, d: string)
    requires NoEmptyList(table) && AddsOnly(table, before, p)
    ensures NoEmptyList(AppendServer(table, d, p)) && AddsOnly(AppendServer(table, d, p), before, p)
  {
  }

  lemma RoutingStep(table: RecordTable, before: RecordTable, p: ServerRecord, j: nat)
    requires j < |p.uri.routingDomains| && Grown(table, before, p, RoutedTo(p.uri.routingDomains[..j]))
    ensures Grown(AppendServer(table, p.uri.routingDomains[j], p), before, p, RoutedTo(p.uri.routingDomains[..j + 1]))
  {
    var domains := p.uri.routingDomains;
    var n, m := RoutedTo(domains[..j]), RoutedTo(domains[..j + 1]);
    assert domains[..j + 1] == domains[..j] + [domains[j]];
    forall d
      ensures m(d) == n(d) + if d == domains[j] then 1 else 0
    {
      CountDomainSnoc(domains[..j], domains[j], d);
    }
    AppendGrows(table, before, p, domains[j], n, m);
  }

  lemma NetworkStep(table: RecordTable, before: RecordTable, p: ServerRecord, j: nat, zone: string)
    requires j < |p.uri.networks| && Grown(table, before, p, ReverseZonesOf(p.uri.networks[..j]))
    requires zone == ReverseDns.ZoneName(p.uri.networks[j])
    ensures Grown(AppendServer(table, zone, p), before, p, ReverseZonesOf(p.uri.networks[..j + 1]))
  {
    var networks := p.uri.networks;
    var n, m := ReverseZonesOf(networks[..j]), ReverseZonesOf(networks[..j + 1]);
    assert networks[..j + 1] == networks[..j] + [networks[j]];
    forall d
      ensures m(d) == n(d) + if d == zone then 1 else 0
    {
      CountNetworksSnoc(networks[..j], networks[j], d);
    }
    AppendGrows(table, before, p, zone, n, m);
  }

  method AppendRoutingDomains(before: RecordTable, p: ServerRecord) returns (table: RecordTable)
    requires NoEmptyList(before)
    ensures NoEmptyList(table) && AddsOnly(table, before, p)
    ensures Grown(table, before, p, RoutedTo(p.uri.routingDomains))
  {
    table := before;
    var domains := p.uri.routingDomains;
    for j := 0 to |domains|
      invariant NoEmptyList(table) && AddsOnly(table, before, p)
      invariant Grown(table, before, p, RoutedTo(domains[..j]))
    {
      RoutingStep(table, before, p, j);
      AppendAddsOnly(table, before, p, domains[j]);
      table := AppendServer(table, domains[j], p);
    }
    assert domains[..|domains|] == domains;
  }

  /** The NUL-terminated text of a buffer, as g_strdup reads it. */
  method StrDup(buffer: array<char>, ghost t: string) returns (s: string)
    requires ReverseDns.Holds(buffer, t)
    ensures s == t
  {
    var end := 0;
    while buffer[end] != '\0'
      invariant 0 <= end <= |t|
      decreases |t| - end
    {
      end := end + 1;
    }
    s := buffer[..end];
  }

  method AppendNetworks(before: RecordTable, p: ServerRecord) returns (table: RecordTable)
    requires NoEmptyList(before)
    ensures NoEmptyList(table) && AddsOnly(table, before, p)
    ensures Grown(table, before, p, ReverseZonesOf(p.uri.networks))
  {
    table := before;
    var networks := p.uri.networks;
    var buffer := new char[ReverseDns.BUFFER_SIZE];
    for j := 0 to |networks|
      invariant NoEmptyList(table) && AddsOnly(table, before, p)
      invariant Grown(table, before, p, ReverseZonesOf(networks[..j]))
    {
      ReverseDns.ToReverseDns(networks[j], buffer);
      var zone := StrDup(buffer, ReverseDns.ZoneName(networks[j]));
      NetworkStep(table, before, p, j, zone);
      AppendAddsOnly(table, before, p, zone);
      table := AppendServer(table, zone, p);
    }
    assert networks[..|networks|] == networks;
  }

  /** The table lists, for every domain, the servers that name it. */
  ghost predicate Lists(table: RecordTable, servers: seq<Server>) {
    forall d :: Uris(ListAt(table, d)) == Naming(servers, d)
  }

  lemma RepeatSum(s: Server, n: nat, m: nat)
    ensures Repeat(s, n) + Repeat(s, m) == Repeat(s, n + m)
  {
  }

  lemma ListedNext(table: RecordTable, middle: RecordTable, after: RecordTable, servers: seq<Server>, p: ServerRecord)
    requires Lists(table, servers)
    requires Grown(middle, table, p, RoutedTo(p.uri.routingDomains))
    requires Grown(after, middle, p, ReverseZonesOf(p.uri.networks))
    ensures Lists(after, servers + [p.uri])
  {
    forall d
      ensures Uris(ListAt(after, d)) == Naming(servers + [p.uri], d)
    {
      NamingSnoc(servers, p.uri, d);
      var n, m := CountDomain(p.uri.routingDomains, d), CountNetworks(p.uri.networks, d);
      assert Uris(ListAt(middle, d)) == Naming(servers, d) + Repeat(p.uri, n);
      JoinAssociates(Naming(servers, d), Repeat(p.uri, n), Repeat(p.uri, m));
      RepeatSum(p.uri, n, m);
    }
  }

  method CollectServers(servers: seq<ServerRecord>) returns (table: RecordTable)
    ensures NoEmptyList(table) && Within(table, servers) && Lists(table, Uris(servers))
  {
    table := map[];
    for i := 0 to |servers|
      invariant NoEmptyList(table) && Within(table, servers) && Lists(table, Uris(servers)[..i])
    {
      var middle := AppendRoutingDomains(table, servers[i]);
      var after := AppendNetworks(middle, servers[i]);
      assert Uris(servers)[..i + 1] == Uris(servers)[..i] + [servers[i].uri];
      ListedNext(table, middle, after, Uris(servers)[..i], servers[i]);
      table := after;
    }
    assert Uris(servers)[..|servers|] == Uris(servers);
  }

  /** The table holds the sorted lists of every domain but those of `keys`. */
  ghost predicate SortedBut(table: RecordTable, collected: RecordTable, keys: set<string>) {
    && table.Keys == collected.Keys - keys
    && forall d :: d in table ==> table[d] == Sort(collected[d], RecordPrecedes)
  }

  lemma SortedNext(table: RecordTable, next: RecordTable, collected: RecordTable, keys: set<string>, d: string)
    requires SortedBut(table, collected, keys) && d in keys && keys <= collected.Keys
    requires next == table[d := Sort(collected[d], RecordPrecedes)]
    ensures SortedBut(next, collected, keys - {d})
  {
  }

  method SortLists(collected: RecordTable) returns (table: RecordTable)
    ensures SortedBut(table, collected, {})
  {
    table := map[];
    var keys := collected.Keys;
    while keys != {}
      invariant keys <= collected.Keys && SortedBut(table, collected, keys)
      decreases |keys|
    {
      var d :| d in keys;
      ghost var before := table;
      table := table[d := Sort(collected[d], RecordPrecedes)];
      SortedNext(before, table, collected, keys, d);
      keys := keys - {d};
    }
  }

  /** The index of the configured servers, over the very records of the list. */
  method ServerListToHashTable(servers: seq<ServerRecord>) returns (table: RecordTable)
    ensures UriTable(table) == BuildIndex(Uris(servers))
    ensures Within(table, servers)
  {
    var collected := CollectServers(servers);
    table := SortLists(collected);
    SortedIsIndex(collected, table, Uris(servers));
    forall d, p | d in table && p in table[d]
      ensures p in servers
    {
      SortKeepsRecord(collected[d], p);
    }
  }

  lemma SortedIsIndex(collected: RecordTable, table: RecordTable, servers: seq<Server>)
    requires NoEmptyList(collected) && Lists(collected, servers)
    requires SortedBut(table, collected, {})
    ensures UriTable(table) == BuildIndex(servers)
  {
    forall d
      ensures d in table <==> d in AllDomains(servers)
      ensures d in table ==> Uris(table[d]) == SortServers(Naming(servers, d))
    {
      assert Uris(ListAt(collected, d)) == Naming(servers, d);
      NamingNonEmpty(servers, d);
      if d in table {
        SortRecords(collected[d]);
      }
    }
    assert UriTable(table).Keys == BuildIndex(servers).Keys;
  }
}
