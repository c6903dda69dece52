/** The contents of resolv.conf while the daemon owns it, and what the resolution mode
    keeps out of it and out of Unbound. */
module ResolvConf {
  import opened ServerTypes
  import opened DomainIndex
  import opened Unbound

  /** A file found on the system, or one the daemon generated. */
  datatype Contents =
    | Text(text: string)
    | Generated(search: seq<string>, options: Option<string>, nameserver: Address)

  // ----- The search line

  function AddNew<T(==)>(acc: seq<T>, domains: seq<T>): seq<T>
    decreases |domains|
  {
    if domains == [] then acc
    else if domains[0] in acc then AddNew(acc, domains[1..])
    else AddNew(acc + [domains[0]], domains[1..])
  }

  function AddSearches(acc: seq<string>, servers: seq<Server>): seq<string>
    decreases |servers|
  {
    if servers == [] then acc else AddSearches(AddNew(acc, servers[0].searchDomains), servers[1..])
  }

  function SearchLine(index: Index, order: seq<string>, mode: Mode, acc: seq<string>): seq<string>
    requires NonEmptyLists(index) && forall d :: d in order ==> d in index
    decreases |order|
  {
    if order == [] then acc
    else SearchLine(index, order[1..], mode, AddSearches(acc, UsedServers(index[order[0]], mode, order[0])))
  }

  method BuildSearchLine(index: Index, order: seq<string>, mode: Mode) returns (line: seq<string>)
    requires NonEmptyLists(index) && forall d :: d in order ==> d in index
    ensures line == SearchLine(index, order, mode, [])
  {
    line := [];
    for i := 0 to |order|
      invariant SearchLine(index, order[i..], mode, line) == SearchLine(index, order, mode, [])
    {
      var used := GetUsedServers(index[order[i]], mode, order[i]);
      ghost var entry := line;
      for j := 0 to |used|
        invariant AddSearches(line, used[j..]) == AddSearches(entry, used)
      {
        var domains := used[j].searchDomains;
        ghost var before := line;
        for k := 0 to |domains|
          invariant AddNew(line, domains[k..]) == AddNew(before, domains)
        {
          assert domains[k..][1..] == domains[k + 1..];
          if domains[k] !in line {
            line := line + [domains[k]];
          }
        }
        assert used[j..][1..] == used[j + 1..];
      }
      assert order[i..][1..] == order[i + 1..];
    }
  }

  /** Where an element first stands in a list. */
  function FirstIndex<T(==)>(q: seq<T>, x: T): (i: nat)
    ensures i <= |q| && (i < |q| <==> x in q)
  {
    if q == [] then 0 else if q[0] == x then 0 else 1 + FirstIndex(q[1..], x)
  }

  /** The elements of a list, each once, in the order of their first occurrence. */
  ghost predicate FirstOccurrences<T>(line: seq<T>, all: seq<T>) {
    && (forall i :: 0 <= i < |line| ==> line[i] in all)
    && (forall i :: 0 <= i < |all| ==> all[i] in line)
    && (forall i, j :: 0 <= i < j < |line| ==> FirstIndex(all, line[i]) < FirstIndex(all, line[j]))
  }

  lemma {:induction false} FirstIndexSnoc<T>(all: seq<T>, x: T, y: T)
    ensures FirstIndex(all + [x], y)
         == if y in all then FirstIndex(all, y) else if y == x then |all| else |all| + 1
  {
    if all == [] {
      assert all + [x] == [x] && [x][1..] == [];
    } else {
      FirstIndexSnoc(all[1..], x, y);
      TailOfJoin(all, [x]);
    }
  }

  lemma OccurrencesNext<T>(line: seq<T>, all: seq<T>, x: T)
    requires FirstOccurrences(line, all)
    ensures FirstOccurrences(if x in line then line else line + [x], all + [x])
  {
    var next := if x in line then line else line + [x];
    forall i | 0 <= i < |next|
      ensures FirstIndex(all + [x], next[i]) == if i < |line| then FirstIndex(all, line[i]) else |all|
    {
      FirstIndexSnoc(all, x, next[i]);
    }
    forall i | 0 <= i < |all + [x]|
      ensures (all + [x])[i] in next
    {
      if i == |all| && x !in line {
        assert next[|line|] == x;
      }
    }
  }

  lemma {:induction false} AddNewFacts<T>(acc: seq<T>, all: seq<T>, domains: seq<T>)
    requires FirstOccurrences(acc, all)
    ensures FirstOccurrences(AddNew(acc, domains), all + domains)
    decreases |domains|
  {
    if domains == [] {
      assert all + domains == all;
    } else {
      var x := domains[0];
      OccurrencesNext(acc, all, x);
      AddNewFacts(if x in acc then acc else acc + [x], all + [x], domains[1..]);
      JoinAssociates(all, [x], domains[1..]);
      assert domains == [x] + domains[1..];
    }
  }

  /** The search domains of some servers, one list after the other. */
  function SearchesOf(servers: seq<Server>): seq<string> {
    if servers == [] then [] else servers[0].searchDomains + SearchesOf(servers[1..])
  }

  /** The search domains of all servers in use, domain after domain. */
  function SearchesIn(index: Index, order: seq<string>, mode: Mode): seq<string>
    requires NonEmptyLists(index) && forall d :: d in order ==> d in index
  {
    if order == [] then []
    else SearchesOf(UsedServers(index[order[0]], mode, order[0])) + SearchesIn(index, order[1..], mode)
  }

  lemma {:induction false} AddSearchesFacts(acc: seq<string>, all: seq<string>, servers: seq<Server>)
    requires FirstOccurrences(acc, all)
    ensures FirstOccurrences(AddSearches(acc, servers), all + SearchesOf(servers))
    decreases |servers|
  {
    if servers == [] {
      assert all + [] == all;
    } else {
      var own, rest := servers[0].searchDomains, servers[1..];
      AddNewFacts(acc, all, own);
      AddSearchesFacts(AddNew(acc, own), all + own, rest);
      JoinAssociates(all, own, SearchesOf(rest));
    }
  }

  lemma {:induction false} SearchLineFacts(index: Index, order: seq<string>, mode: Mode, acc: seq<string>, all: seq<string>)
    requires NonEmptyLists(index) && (forall d :: d in order ==> d in index) && FirstOccurrences(acc, all)
    ensures FirstOccurrences(SearchLine(index, order, mode, acc), all + SearchesIn(index, order, mode))
    decreases |order|
  {
    if order == [] {
      assert all + [] == all;
    } else {
      var used := UsedServers(index[order[0]], mode, order[0]);
      AddSearchesFacts(acc, all, used);
      SearchLineFacts(index, order[1..], mode, AddSearches(acc, used), all + SearchesOf(used));
      JoinAssociates(all, SearchesOf(used), SearchesIn(index, order[1..], mode));
    }
  }

  lemma {:induction false} SearchesOfElements(servers: seq<Server>, x: string)
    ensures x in SearchesOf(servers) <==> exists s :: s in servers && x in s.searchDomains
  {
    if servers != [] {
      SearchesOfElements(servers[1..], x);
      assert servers == [servers[0]] + servers[1..];
    }
  }

  lemma {:induction false} SearchesInElements(index: Index, order: seq<string>, mode: Mode, x: string)
    requires NonEmptyLists(index) && forall d :: d in order ==> d in index
    ensures x in SearchesIn(index, order, mode) <==>
      exists d :: d in order && x in SearchesOf(UsedServers(index[d], mode, d))
  {
    if order != [] {
      SearchesInElements(index, order[1..], mode, x);
      assert order == [order[0]] + order[1..];
    }
  }

  ghost predicate Distinct(q: seq<string>) {
    forall i, j :: 0 <= i < j < |q| ==> q[i] != q[j]
  }

  /** The line holds the search domains of the servers in use, as they come, each once. */
  lemma {:induction false} SearchLineInOrder(index: Index, order: seq<string>, mode: Mode)
    requires NonEmptyLists(index) && Enumerates(order, index.Keys)
    ensures FirstOccurrences(SearchLine(index, order, mode, []), SearchesIn(index, order, mode))
  {
    SearchLineFacts(index, order, mode, [], []);
    assert [] + SearchesIn(index, order, mode) == SearchesIn(index, order, mode);
  }

  /** Whatever the hash order, the line holds exactly the search domains of the servers in
      use, each once. */
  lemma {:induction false} SearchLineIsExact(index: Index, order: seq<string>, mode: Mode, x: string)
    requires NonEmptyLists(index) && Enumerates(order, index.Keys)
    ensures Distinct(SearchLine(index, order, mode, []))
    ensures x in SearchLine(index, order, mode, []) <==>
      exists d, s :: d in UsedView(index, mode) && s in UsedView(index, mode)[d] && x in s.searchDomains
  {
    SearchLineInOrder(index, order, mode);
    SearchesInElements(index, order, mode, x);
    var view := UsedView(index, mode);
    if x in SearchLine(index, order, mode, []) {
      var d :| d in order && x in SearchesOf(UsedServers(index[d], mode, d));
      SearchesOfElements(UsedServers(index[d], mode, d), x);
      var s :| s in UsedServers(index[d], mode, d) && x in s.searchDomains;
      assert d in view && s in view[d];
    }
    if d: string, s: Server :| d in view && s in view[d] && x in s.searchDomains {
      SearchesOfElements(UsedServers(index[d], mode, d), x);
      assert d in order;
    }
  }

  // ----- What the mode keeps out

  /** Every server in use is eligible, and comes from the index. */
  lemma ViewFollowsMode(index: Index, mode: Mode, d: string, s: Server)
    requires NonEmptyLists(index) && d in UsedView(index, mode) && s in UsedView(index, mode)[d]
    ensures s in index[d] && Eligible(s, mode, d)
    ensures mode == Exclusive ==> s.interface == ""
    ensures mode == Prefer && d == ROOT ==> s.interface == ""
  {
    UsedServersElements(index[d], mode, d);
  }

  /** Every forwarder of every zone, in the file as on the command line, describes a server of
      the zone that the mode allows there, except for the loopback of an unserved root. */
  lemma ZonesFollowMode(index: Index, mode: Mode, d: string, f: Forwarder)
    requires NonEmptyLists(index)
    requires d in FileTable(UsedView(index, mode))
    requires f in FileTable(UsedView(index, mode))[d].forwarders
    ensures d in CommandTable(UsedView(index, mode))
    ensures CommandTable(UsedView(index, mode))[d].forwarders == FileTable(UsedView(index, mode))[d].forwarders
    ensures
      || (d == "." && d !in UsedView(index, mode) && f == Forwarder(V4([127, 0, 0, 1]), None, None))
      || (d in index && exists s :: AllowedHere(index, mode, d, s) && Describes(f, s))
  {
    var view := UsedView(index, mode);
    TablesDescribeServers(view);
    if d in view {
      ForwarderIff(FileTable(view)[d], view[d], f);
      var s :| s in view[d] && Describes(f, s);
      ViewFollowsMode(index, mode, d, s);
      assert AllowedHere(index, mode, d, s);
    }
  }

  /** A server of the domain that the mode allows there. */
  ghost predicate AllowedHere(index: Index, mode: Mode, d: string, s: Server)
    requires d in index
  {
    s in index[d] && (s.interface == "" || mode == Backup || (mode == Prefer && d != "."))
  }

  // ----- Exactly who is used

  /** Nothing that names the domain beats this server. */
  ghost predicate Unbeaten(servers: seq<Server>, d: string, s: Server) {
    forall x :: x in servers && Names(x, d) ==> AtLeast(RankOf(s), RankOf(x))
  }

  /** The plain meaning of being used for a domain: configured, naming it, unbeaten, and not
      bound to an interface unless the mode is backup, or prefer and the domain not the root. */
  ghost predicate Serves(servers: seq<Server>, mode: Mode, d: string, s: Server) {
    && s in servers && Names(s, d) && Unbeaten(servers, d, s)
    && (s.interface == "" || mode == Backup || (mode == Prefer && d != "."))
  }

  lemma {:induction false} NamingIff(servers: seq<Server>, d: string, s: Server)
    ensures s in Naming(servers, d) <==> s in servers && Names(s, d)
  {
    if servers != [] {
      NamingIff(servers[1..], d, s);
      MentionsPositive(servers[0], d);
      DomainsAreListed(servers[0], d);
      var some := Repeat(servers[0], Mentions(servers[0], d));
      if some != [] {
        assert some[0] == servers[0];
      }
      assert servers == [servers[0]] + servers[1..];
    }
  }

  lemma {:induction false} UnbeatenIffBestRank(servers: seq<Server>, d: string, s: Server, best: Rank)
    requires IsBestRank(Naming(servers, d), best) && s in Naming(servers, d)
    ensures Unbeaten(servers, d, s) <==> RankOf(s) == best
  {
    var b :| b in Naming(servers, d) && RankOf(b) == best;
    NamingIff(servers, d, b);
    AtLeastIsTotalOrder(RankOf(s), best, best);
    forall x | x in servers && Names(x, d)
      ensures AtLeast(best, RankOf(x))
    {
      NamingIff(servers, d, x);
    }
  }

  /** A server is used for a domain if and only if it serves it in the plain sense. */
  lemma {:induction false} UsedExactly(servers: seq<Server>, mode: Mode, d: string, s: Server)
    requires PrioritySpanFits(Naming(servers, d))
    ensures NonEmptyLists(BuildIndex(servers))
    ensures var view := UsedView(BuildIndex(servers), mode);
      (d in view && s in view[d]) <==> Serves(servers, mode, d, s)
  {
    IndexNonEmpty(servers);
    NamingIff(servers, d, s);
    NamingNonEmpty(servers, d);
    if d in BuildIndex(servers) {
      var list, naming := BuildIndex(servers)[d], Naming(servers, d);
      IndexIsStableSort(servers, d);
      SameServers(list, naming);
      SelectionOnOrderedList(list, mode, d);
      var best := RankOf(list[0]);
      BestEligibleElements(list, best, mode, d);
      ReversedElements(BestEligible(list, best, mode, d));
      if s in naming {
        UnbeatenIffBestRank(servers, d, s, best);
      }
    }
  }

  /** Every domain is served in backup mode, and every domain but the root in prefer mode,
      whatever the priorities. */
  lemma OnlyTheModeLeavesUnserved(servers: seq<Server>, mode: Mode, d: string)
    requires mode == Backup || (mode == Prefer && d != ".")
    ensures NonEmptyLists(BuildIndex(servers))
    ensures d in UsedView(BuildIndex(servers), mode) <==> exists s :: s in servers && Names(s, d)
  {
    IndexNonEmpty(servers);
    SomeoneNames(servers, d);
    if d in BuildIndex(servers) {
      var list := BuildIndex(servers)[d];
      assert Scan(list, list[0], mode, d) != [];
    }
  }

  /** A domain is served exactly when a server of the best rank naming it is eligible: a
      better server that the mode rules out hides the worse ones behind it. */
  lemma {:induction false} ServedIffBestIsEligible(servers: seq<Server>, mode: Mode, d: string, best: Rank)
    requires PrioritySpanFits(Naming(servers, d)) && d in BuildIndex(servers)
    requires IsBestRank(Naming(servers, d), best)
    ensures NonEmptyLists(BuildIndex(servers))
    ensures d in UsedView(BuildIndex(servers), mode) <==>
      exists s :: s in Naming(servers, d) && RankOf(s) == best && Eligible(s, mode, d)
  {
    IndexNonEmpty(servers);
    SelectionIsBestOfNaming(servers, mode, d, best);
    var chosen := BestEligible(Naming(servers, d), best, mode, d);
    BestEligibleElements(Naming(servers, d), best, mode, d);
    if chosen != [] {
      assert chosen[0] in chosen;
    }
  }
}
