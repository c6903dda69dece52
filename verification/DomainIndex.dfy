/** The index from domains to the servers that name them, and the choice of the servers
    of a domain that are actually used. */
module DomainIndex {
  import opened ServerTypes
  import opened StableSort
  import ReverseDns

  type Index = map<string, seq<Server>>

  // ----- The comparator

  /** A C `int` subtraction, wrapped to 32 bits. */
  function Wrap32(x: int): (r: Int32)
    ensures -0x8000_0000 <= x <= 0x7fff_ffff ==> r == x
  {
    (x + 0x8000_0000) % 0x1_0000_0000 - 0x8000_0000
  }

  function Bit(b: bool): int {
    if b then 1 else 0
  }

  /** Negative or zero when a may stand in front of b. */
  function Compare(a: Server, b: Server): int {
    var t := Wrap32(b.priority - a.priority);
    if t != 0 then t
    else
      var p := ProtocolRank(b.protocol) - ProtocolRank(a.protocol);
      if p != 0 then p else Bit(b.dnssec) - Bit(a.dnssec)
  }

  /** What the comparator is meant to compare. */
  datatype Rank = Rank(priority: int, protocol: Protocol, dnssec: bool)

  function RankOf(s: Server): Rank {
    Rank(s.priority, s.protocol, s.dnssec)
  }

  /** Higher priority first, then TLS before TCP before UDP, then DNSSEC. */
  predicate AtLeast(a: Rank, b: Rank) {
    || a.priority > b.priority
    || (a.priority == b.priority && a.protocol == Tls && b.protocol != Tls)
    || (a.priority == b.priority && a.protocol == Tcp && b.protocol == Udp)
    || (a.priority == b.priority && a.protocol == b.protocol && (a.dnssec || !b.dnssec))
  }

  lemma AtLeastIsTotalOrder(a: Rank, b: Rank, c: Rank)
    ensures AtLeast(a, a)
    ensures AtLeast(a, b) || AtLeast(b, a)
    ensures AtLeast(a, b) && AtLeast(b, a) ==> a == b
    ensures AtLeast(a, b) && AtLeast(b, c) ==> AtLeast(a, c)
  {
  }

  /** All priority differences fit a 32-bit int. */
  predicate PrioritySpanFits(list: seq<Server>) {
    forall a, b :: a in list && b in list ==> a.priority - b.priority <= 0x7fff_ffff
  }

  lemma CompareIsRankOrder(a: Server, b: Server)
    requires -0x7fff_ffff <= a.priority - b.priority <= 0x7fff_ffff
    ensures Compare(a, b) <= 0 <==> AtLeast(RankOf(a), RankOf(b))
  {
  }

  lemma WideDifferenceMisorders(a: Server, b: Server)
    requires a.priority - b.priority > 0x7fff_ffff
    ensures Compare(b, a) < 0 && !AtLeast(RankOf(b), RankOf(a))
  {
    var x := a.priority - b.priority;
    assert Wrap32(x) == x - 0x1_0000_0000;
  }

  /** The comparator orders a list as documented, by priority, protocol and DNSSEC, exactly
      when no priority difference overflows. */
  lemma ComparatorCorrectIffSpanFits(list: seq<Server>)
    ensures PrioritySpanFits(list) <==>
      forall a, b :: a in list && b in list ==>
        (Compare(a, b) <= 0 <==> AtLeast(RankOf(a), RankOf(b)))
  {
    if PrioritySpanFits(list) {
      forall a, b | a in list && b in list
        ensures Compare(a, b) <= 0 <==> AtLeast(RankOf(a), RankOf(b))
      {
        CompareIsRankOrder(a, b);
      }
    } else {
      var a, b :| a in list && b in list && a.priority - b.priority > 0x7fff_ffff;
      WideDifferenceMisorders(a, b);
    }
  }

  predicate Precedes(a: Server, b: Server) {
    Compare(a, b) <= 0
  }

  function SortServers(list: seq<Server>): seq<Server> {
    Sort(list, Precedes)
  }

  ghost predicate Ranked(list: seq<Server>) {
    Ordered(list, RankOf, AtLeast)
  }

  /** The declarative meaning of a stable sort by rank. */
  ghost predicate StableSortOf(sorted: seq<Server>, list: seq<Server>) {
    && Ranked(sorted)
    && multiset(sorted) == multiset(list)
    && forall r: Rank :: WithKey(sorted, RankOf, r) == WithKey(list, RankOf, r)
  }

  lemma RankOrderIsTotal()
    ensures TotalOrder(AtLeast)
  {
    forall a: Rank, b: Rank, c: Rank
      ensures AtLeast(a, b) || AtLeast(b, a)
      ensures AtLeast(a, b) && AtLeast(b, a) ==> a == b
      ensures AtLeast(a, b) && AtLeast(b, c) ==> AtLeast(a, c)
    {
      AtLeastIsTotalOrder(a, b, c);
    }
  }

  lemma SortIsStableSort(list: seq<Server>)
    requires PrioritySpanFits(list)
    ensures StableSortOf(SortServers(list), list)
  {
    RankOrderIsTotal();
    ComparatorCorrectIffSpanFits(list);
    assert Reflects(list, Precedes, RankOf, AtLeast);
    SortKeepsElements(list, Precedes);
    SortIsOrdered(list, Precedes, RankOf, AtLeast);
    forall r: Rank
      ensures WithKey(SortServers(list), RankOf, r) == WithKey(list, RankOf, r)
    {
      SortIsStable(list, Precedes, RankOf, AtLeast, r);
    }
  }

  // ----- The index

  function Repeat(s: Server, n: nat): (r: seq<Server>)
    ensures |r| == n && forall x :: x in r ==> x == s
  {
    seq(n, _ => s)
  }

  function CountDomain(domains: seq<string>, d: string): nat {
    if domains == [] then 0
    else if domains[0] == d then 1 + CountDomain(domains[1..], d)
    else CountDomain(domains[1..], d)
  }

  function CountNetworks(networks: seq<Network>, d: string): nat {
    if networks == [] then 0
    else if ReverseDns.ZoneName(networks[0]) == d then 1 + CountNetworks(networks[1..], d)
    else CountNetworks(networks[1..], d)
  }

  /** How often a server names a domain: as a routing domain, or through a network whose
      reverse zone it is. */
  function Mentions(s: Server, d: string): nat {
    CountDomain(s.routingDomains, d) + CountNetworks(s.networks, d)
  }

  lemma SameServers(xs: seq<Server>, ys: seq<Server>)
    requires multiset(xs) == multiset(ys)
    ensures forall s :: s in xs <==> s in ys
  {
    forall s
      ensures s in xs <==> s in ys
    {
      SameElement(xs, ys, s);
    }
  }

  /** The servers naming d, in configuration order, as often as they name it. */
  function Naming(servers: seq<Server>, d: string): seq<Server> {
    if servers == [] then []
    else Repeat(servers[0], Mentions(servers[0], d)) + Naming(servers[1..], d)
  }

  /** How often a domain is among the routing domains of a server and the reverse zones of its
      networks. */
  function Occurrences(s: Server, d: string): nat {
    multiset(s.routingDomains)[d] + multiset(ZoneNames(s.networks))[d]
  }

  ghost predicate Names(s: Server, d: string) {
    d in s.routingDomains || d in ZoneNames(s.networks)
  }

  function Multiplicity(table: Index, d: string, s: Server): nat {
    if d in table then multiset(table[d])[s] else 0
  }

  function ZoneNames(networks: seq<Network>): (zones: seq<string>)
    ensures |zones| == |networks|
  {
    seq(|networks|, i requires 0 <= i < |networks| => ReverseDns.ZoneName(networks[i]))
  }

  lemma {:induction false} CountDomainIsMultiplicity(domains: seq<string>, d: string)
    ensures CountDomain(domains, d) == multiset(domains)[d]
  {
    if domains != [] {
      CountDomainIsMultiplicity(domains[1..], d);
      assert domains == [domains[0]] + domains[1..];
    }
  }

  lemma {:induction false} CountNetworksIsMultiplicity(networks: seq<Network>, d: string)
    ensures CountNetworks(networks, d) == multiset(ZoneNames(networks))[d]
  {
    if networks != [] {
      CountNetworksIsMultiplicity(networks[1..], d);
      assert ZoneNames(networks) == [ReverseDns.ZoneName(networks[0])] + ZoneNames(networks[1..]);
    }
  }

  /** The servers naming a domain stand in the order of the configuration. */
  lemma {:induction false} NamingKeepsOrder(xs: seq<Server>, ys: seq<Server>, d: string)
    ensures Naming(xs + ys, d) == Naming(xs, d) + Naming(ys, d)
  {
    if xs == [] {
      assert xs + ys == ys;
    } else {
      NamingKeepsOrder(xs[1..], ys, d);
      TailOfJoin(xs, ys);
      JoinAssociates(Repeat(xs[0], Mentions(xs[0], d)), Naming(xs[1..], d), Naming(ys, d));
    }
  }

  lemma TailOfJoin<T>(h: seq<T>, k: seq<T>)
    requires h != []
    ensures (h + k)[0] == h[0] && (h + k)[1..] == h[1..] + k
  {
  }

  lemma JoinAssociates<T>(a: seq<T>, b: seq<T>, c: seq<T>)
    ensures (a + b) + c == a + (b + c)
  {
  }

  function DomainsOf(s: Server): set<string> {
    (set d | d in s.routingDomains) + (set n | n in s.networks :: ReverseDns.ZoneName(n))
  }

  function AllDomains(servers: seq<Server>): set<string> {
    if servers == [] then {} else DomainsOf(servers[0]) + AllDomains(servers[1..])
  }

  function BuildIndex(servers: seq<Server>): Index {
    map d | d in AllDomains(servers) :: SortServers(Naming(servers, d))
  }

  lemma {:induction false} CountDomainPositive(domains: seq<string>, d: string)
    ensures CountDomain(domains, d) > 0 <==> d in domains
  {
    if domains != [] {
      CountDomainPositive(domains[1..], d);
    }
  }

  lemma {:induction false} CountNetworksPositive(networks: seq<Network>, d: string)
    ensures CountNetworks(networks, d) > 0 <==> exists n :: n in networks && ReverseDns.ZoneName(n) == d
  {
    if networks != [] {
      CountNetworksPositive(networks[1..], d);
      assert networks == [networks[0]] + networks[1..];
    }
  }

  lemma MentionsPositive(s: Server, d: string)
    ensures Mentions(s, d) > 0 <==> d in DomainsOf(s)
  {
    CountDomainPositive(s.routingDomains, d);
    CountNetworksPositive(s.networks, d);
  }

  lemma {:induction false} NamingNonEmpty(servers: seq<Server>, d: string)
    ensures Naming(servers, d) != [] <==> d in AllDomains(servers)
  {
    if servers != [] {
      NamingNonEmpty(servers[1..], d);
      MentionsPositive(servers[0], d);
    }
  }

  lemma {:induction false} NamingSubset(servers: seq<Server>, d: string)
    ensures forall s :: s in Naming(servers, d) ==> s in servers
  {
    if servers != [] {
      NamingSubset(servers[1..], d);
    }
  }

  lemma {:induction false} NamingMultiplicity(servers: seq<Server>, d: string, s: Server)
    ensures multiset(Naming(servers, d))[s] == multiset(servers)[s] * Mentions(s, d)
  {
    if servers != [] {
      var h, t := servers[0], servers[1..];
      NamingMultiplicity(t, d, s);
      RepeatMultiplicity(h, Mentions(h, d), s);
      assert servers == [h] + t;
      assert multiset(servers)[s] == multiset(t)[s] + if s == h then 1 else 0;
      MultiplyStep(multiset(t)[s], Mentions(s, d));
    }
  }

  lemma MultiplyStep(c: nat, n: nat)
    ensures (c + 1) * n == c * n + n
  {
  }

  lemma {:induction false} RepeatMultiplicity(s: Server, n: nat, x: Server)
    ensures multiset(Repeat(s, n))[x] == if x == s then n else 0
  {
    if n > 0 {
      RepeatMultiplicity(s, n - 1, x);
      assert Repeat(s, n) == Repeat(s, n - 1) + [s];
    }
  }

  lemma IndexListsNonEmpty(servers: seq<Server>, d: string)
    requires d in BuildIndex(servers)
    ensures BuildIndex(servers)[d] != []
    ensures forall s :: s in BuildIndex(servers)[d] ==> s in servers
  {
    NamingNonEmpty(servers, d);
    NamingSubset(servers, d);
    SortKeepsElements(Naming(servers, d), Precedes);
    SameServers(SortServers(Naming(servers, d)), Naming(servers, d));
  }

  lemma MentionsAreOccurrences(s: Server, d: string)
    ensures Mentions(s, d) == Occurrences(s, d)
  {
    CountDomainIsMultiplicity(s.routingDomains, d);
    CountNetworksIsMultiplicity(s.networks, d);
  }

  lemma {:induction false} ListMultiplicity(servers: seq<Server>, d: string, s: Server)
    ensures Multiplicity(BuildIndex(servers), d, s) == multiset(Naming(servers, d))[s]
  {
    SortKeepsElements(Naming(servers, d), Precedes);
    NamingNonEmpty(servers, d);
  }

  /** Nothing is lost or invented: a server stands in a domain's list as often as it was
      configured, times the occurrences of the domain among its routing domains and the
      reverse zones of its networks. */
  lemma IndexConservation(servers: seq<Server>, d: string, s: Server)
    ensures d in BuildIndex(servers) <==> exists x :: x in servers && Names(x, d)
    ensures Multiplicity(BuildIndex(servers), d, s) == multiset(servers)[s] * Occurrences(s, d)
  {
    ListMultiplicity(servers, d, s);
    NamingMultiplicity(servers, d, s);
    MentionsAreOccurrences(s, d);
    SomeoneNames(servers, d);
  }

  lemma {:induction false} SomeoneNames(servers: seq<Server>, d: string)
    ensures d in AllDomains(servers) <==> exists x :: x in servers && Names(x, d)
  {
    if servers != [] {
      SomeoneNames(servers[1..], d);
      DomainsAreListed(servers[0], d);
      assert servers == [servers[0]] + servers[1..];
    }
  }

  lemma DomainsAreListed(s: Server, d: string)
    ensures d in DomainsOf(s) <==> Names(s, d)
  {
    if n :| n in s.networks && ReverseDns.ZoneName(n) == d {
      var i :| 0 <= i < |s.networks| && s.networks[i] == n;
      assert ZoneNames(s.networks)[i] == d;
    }
  }

  lemma RoutedServerIsIndexed(servers: seq<Server>, s: Server, d: string)
    requires s in servers && d in s.routingDomains
    ensures d in BuildIndex(servers) && s in BuildIndex(servers)[d]
  {
    IndexConservation(servers, d, s);
    assert s in multiset(servers) && d in multiset(s.routingDomains);
    PositiveProduct(multiset(servers)[s], Occurrences(s, d));
    if d in BuildIndex(servers) {
      assert s in multiset(BuildIndex(servers)[d]);
    }
  }

  lemma PositiveProduct(x: nat, y: nat)
    requires x > 0 && y > 0
    ensures x * y > 0
  {
  }

  /** No domain is named by servers whose priorities are too far apart. Servers of different
      domains are never compared. */
  ghost predicate DomainSpansFit(servers: seq<Server>) {
    forall d :: PrioritySpanFits(Naming(servers, d))
  }

  lemma SpanFitsEverywhere(servers: seq<Server>)
    requires PrioritySpanFits(servers)
    ensures DomainSpansFit(servers)
  {
    forall d
      ensures PrioritySpanFits(Naming(servers, d))
    {
      NamingSubset(servers, d);
    }
  }

  lemma {:induction false} IndexIsStableSort(servers: seq<Server>, d: string)
    requires PrioritySpanFits(Naming(servers, d)) && d in BuildIndex(servers)
    ensures StableSortOf(BuildIndex(servers)[d], Naming(servers, d))
  {
    SortIsStableSort(Naming(servers, d));
  }

  // ----- The servers of a domain that are used

  function Reversed(list: seq<Server>): (r: seq<Server>)
    ensures |r| == |list|
  {
    if list == [] then [] else Reversed(list[1..]) + [list[0]]
  }

  lemma {:induction false} ReversedAt(list: seq<Server>, i: nat)
    requires i < |list|
    ensures Reversed(list)[i] == list[|list| - 1 - i]
  {
    if i < |list| - 1 {
      ReversedAt(list[1..], i);
    }
  }

  /** The scan stops at the first server worse than, or different in DNSSEC from, the head. */
  predicate EndsScan(s: Server, head: Server) {
    || s.priority < head.priority
    || ProtocolRank(s.protocol) < ProtocolRank(head.protocol)
    || s.dnssec != head.dnssec
  }

  function Scan(list: seq<Server>, head: Server, mode: Mode, domain: string): seq<Server> {
    if list == [] || EndsScan(list[0], head) then []
    else if Eligible(list[0], mode, domain) then [list[0]] + Scan(list[1..], head, mode, domain)
    else Scan(list[1..], head, mode, domain)
  }

  /** Servers are prepended while scanning, so the result is reversed. */
  function UsedServers(list: seq<Server>, mode: Mode, domain: string): seq<Server>
    requires list != []
  {
    Reversed(Scan(list, list[0], mode, domain))
  }

  method GetUsedServers(servers: seq<Server>, mode: Mode, domain: string) returns (used: seq<Server>)
    requires servers != []
    ensures used == UsedServers(servers, mode, domain)
  {
    used := [];
    var head := servers[0];
    var i := 0;
    ghost var whole := Reversed(Scan(servers, head, mode, domain));
    assert servers[0..] == servers;
    while i < |servers|
      invariant 0 <= i <= |servers|
      invariant Reversed(Scan(servers[i..], head, mode, domain)) + used == whole
    {
      var cur := servers[i];
      assert servers[i..][1..] == servers[i + 1..];
      if EndsScan(cur, head) {
        assert used == whole;
        break;
      }
      if Eligible(cur, mode, domain) {
        var rest := Scan(servers[i + 1..], head, mode, domain);
        assert ([cur] + rest)[1..] == rest;
        assert (Reversed(rest) + [cur]) + used == Reversed(rest) + ([cur] + used);
        used := [cur] + used;
      }
      i := i + 1;
    }
  }

  /** The specification of the choice: the eligible servers of one rank, in list order. */
  function BestEligible(list: seq<Server>, best: Rank, mode: Mode, domain: string): seq<Server> {
    if list == [] then []
    else if RankOf(list[0]) == best && Eligible(list[0], mode, domain)
    then [list[0]] + BestEligible(list[1..], best, mode, domain)
    else BestEligible(list[1..], best, mode, domain)
  }

  lemma {:induction false} BestEligibleElements(list: seq<Server>, best: Rank, mode: Mode, domain: string)
    ensures forall s :: s in BestEligible(list, best, mode, domain) <==>
      s in list && RankOf(s) == best && Eligible(s, mode, domain)
  {
    if list != [] {
      BestEligibleElements(list[1..], best, mode, domain);
      assert list == [list[0]] + list[1..];
    }
  }

  lemma {:induction false} BestEligibleEmpty(list: seq<Server>, best: Rank, mode: Mode, domain: string)
    requires forall s :: s in list ==> RankOf(s) != best
    ensures BestEligible(list, best, mode, domain) == []
  {
    if list != [] {
      BestEligibleEmpty(list[1..], best, mode, domain);
    }
  }

  lemma HeadIsBest(list: seq<Server>)
    requires Ranked(list) && list != []
    ensures Ranked(list[1..])
    ensures forall s :: s in list ==> AtLeast(RankOf(list[0]), RankOf(s))
  {
    OrderedTail(list, RankOf, AtLeast);
  }

  lemma {:induction false} ScanIsBestEligible(list: seq<Server>, head: Server, mode: Mode, domain: string)
    requires Ranked(list)
    requires forall s :: s in list ==> AtLeast(RankOf(head), RankOf(s))
    ensures Scan(list, head, mode, domain) == BestEligible(list, RankOf(head), mode, domain)
  {
    if list != [] {
      HeadIsBest(list);
      if EndsScan(list[0], head) {
        forall s | s in list
          ensures RankOf(s) != RankOf(head)
        {
          AtLeastIsTotalOrder(RankOf(head), RankOf(list[0]), RankOf(s));
        }
        BestEligibleEmpty(list, RankOf(head), mode, domain);
      } else {
        ScanIsBestEligible(list[1..], head, mode, domain);
      }
    }
  }

  /** The choice only depends on the servers of the best rank. */
  lemma {:induction false} BestEligibleOfRank(list: seq<Server>, best: Rank, mode: Mode, domain: string)
    ensures BestEligible(list, best, mode, domain)
         == BestEligible(WithKey(list, RankOf, best), best, mode, domain)
  {
    if list != [] {
      BestEligibleOfRank(list[1..], best, mode, domain);
      if RankOf(list[0]) == best {
        assert ([list[0]] + WithKey(list[1..], RankOf, best))[1..] == WithKey(list[1..], RankOf, best);
      }
    }
  }

  /** The best rank among some servers. */
  ghost predicate IsBestRank(list: seq<Server>, r: Rank) {
    && (exists s :: s in list && RankOf(s) == r)
    && (forall s :: s in list ==> AtLeast(r, RankOf(s)))
  }

  /** The early-breaking scan of a sorted list returns exactly the eligible servers of the
      best rank, reversed. */
  lemma {:induction false} SelectionOnOrderedList(list: seq<Server>, mode: Mode, domain: string)
    requires list != [] && Ranked(list)
    ensures IsBestRank(list, RankOf(list[0]))
    ensures UsedServers(list, mode, domain) == Reversed(BestEligible(list, RankOf(list[0]), mode, domain))
  {
    HeadIsBest(list);
    ScanIsBestEligible(list, list[0], mode, domain);
  }

  /** End to end: the servers used for a domain are, in reverse configuration order, the
      eligible ones among those naming it whose rank nothing naming it beats. */
  lemma {:induction false} SelectionIsBestOfNaming(servers: seq<Server>, mode: Mode, d: string, best: Rank)
    requires PrioritySpanFits(Naming(servers, d)) && d in BuildIndex(servers)
    requires IsBestRank(Naming(servers, d), best)
    ensures BuildIndex(servers)[d] != []
    ensures UsedServers(BuildIndex(servers)[d], mode, d)
         == Reversed(BestEligible(Naming(servers, d), best, mode, d))
  {
    var list, naming := BuildIndex(servers)[d], Naming(servers, d);
    IndexListsNonEmpty(servers, d);
    IndexIsStableSort(servers, d);
    SameServers(list, naming);
    SelectionOnOrderedList(list, mode, d);
    AtLeastIsTotalOrder(best, RankOf(list[0]), best);
    BestEligibleOfRank(list, best, mode, d);
    BestEligibleOfRank(naming, best, mode, d);
  }

  lemma {:induction false} ReversedElements(list: seq<Server>)
    ensures forall s :: s in Reversed(list) <==> s in list
  {
    if list != [] {
      ReversedElements(list[1..]);
      assert list == [list[0]] + list[1..];
    }
  }

  lemma {:induction false} ScanElements(list: seq<Server>, head: Server, mode: Mode, domain: string)
    ensures forall s :: s in Scan(list, head, mode, domain) ==>
      s in list && Eligible(s, mode, domain) && !EndsScan(s, head)
  {
    if list != [] && !EndsScan(list[0], head) {
      ScanElements(list[1..], head, mode, domain);
    }
  }

  lemma UsedServersElements(list: seq<Server>, mode: Mode, domain: string)
    requires list != []
    ensures forall s :: s in UsedServers(list, mode, domain) ==>
      s in list && Eligible(s, mode, domain) && !EndsScan(s, list[0])
  {
    ScanElements(list, list[0], mode, domain);
    ReversedElements(Scan(list, list[0], mode, domain));
  }

  lemma UsedServersOneRank(list: seq<Server>, mode: Mode, domain: string)
    requires list != [] && Ranked(list)
    ensures forall s :: s in UsedServers(list, mode, domain) ==> RankOf(s) == RankOf(list[0])
  {
    UsedServersElements(list, mode, domain);
    HeadIsBest(list);
  }

  /** Two servers that differ in priority alone: whichever way round they are configured,
      the better one is used alone, exactly when the difference does not overflow. */
  lemma OverflowBreaksSelection(a: Server, b: Server, d: string)
    requires a.routingDomains == [d] && a.networks == [] && a.interface == ""
    requires b.routingDomains == [d] && b.networks == [] && b.interface == ""
    requires a.protocol == b.protocol && a.dnssec == b.dnssec && a.priority > b.priority
    ensures (d in BuildIndex([a, b]) && BuildIndex([a, b])[d] != [] &&
             UsedServers(BuildIndex([a, b])[d], Backup, d) == [a] &&
             d in BuildIndex([b, a]) && BuildIndex([b, a])[d] != [] &&
             UsedServers(BuildIndex([b, a])[d], Backup, d) == [a])
       <==> a.priority - b.priority <= 0x7fff_ffff
  {
    PairIndex(a, b, d);
    PairIndex(b, a, d);
    PairScan(a, b, d);
    PairScan(b, a, d);
    if a.priority - b.priority <= 0x7fff_ffff {
      CompareIsRankOrder(a, b);
      CompareIsRankOrder(b, a);
    } else {
      WideDifferenceMisorders(a, b);
    }
  }

  lemma PairIndex(a: Server, b: Server, d: string)
    requires a.routingDomains == [d] && a.networks == []
    requires b.routingDomains == [d] && b.networks == []
    ensures d in BuildIndex([a, b])
    ensures BuildIndex([a, b])[d] == if Compare(a, b) <= 0 then [a, b] else [b, a]
  {
    assert [a, b][1..] == [b] && [b][1..] == [];
    assert CountDomain([d], d) == 1;
    assert Repeat(a, 1) == [a] && Repeat(b, 1) == [b];
    assert Naming([b], d) == [b];
    assert Naming([a, b], d) == [a, b];
    assert [a, b][..1] == [a];
    assert Sort([a], Precedes) == [a] && Sort([b], Precedes) == [b];
    assert Sort([a, b], Precedes) == Merge([a], [b], Precedes);
    assert [a][1..] == [];
    assert Merge([], [b], Precedes) == [b] && Merge([a], [], Precedes) == [a];
    assert AllDomains([b]) == {d};
  }

  lemma PairScan(x: Server, y: Server, d: string)
    requires x.interface == "" && y.interface == ""
    ensures UsedServers([x, y], Backup, d) == if EndsScan(y, x) then [x] else [y, x]
  {
    var l := [x, y];
    assert l[1..] == [y] && [y][1..] == [];
    assert Scan([y], x, Backup, d) == if EndsScan(y, x) then [] else [y];
    assert Scan(l, x, Backup, d) == if EndsScan(y, x) then [x] else [x, y];
    assert Reversed([x]) == [x];
    assert [x, y][1..] == [y];
    assert Reversed([y]) == [y];
    assert Reversed([x, y]) == [y, x];
  }
}
