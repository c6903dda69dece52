/** The intake of an Update call: defaults, the duplicate filter, and the wireless penalty. */
module Intake {
  import opened ServerTypes

  datatype ParseError =
    | MissingAddress | InvalidAddress | PortInvalid | InvalidProtocol
    | InterfaceTooLong | InvalidNet | InvalidDomain | InvalidMode

  /** One dictionary of the call, as the field parsers leave it. */
  datatype Entry = Parsed(server: Server) | Broken(error: ParseError)

  /** The servers and the raw mode number of an Update call. */
  datatype Call = Call(entries: seq<Entry>, mode: nat)

  datatype Verdict = Accepted(servers: seq<Server>) | Refused(error: ParseError)

  function ModeOf(n: nat): Mode
    requires n <= 2
  {
    if n == 0 then Backup else if n == 1 then Prefer else Exclusive
  }

  /** Servers without a routing domain serve the root, servers without a port use that of
      their protocol. */
  function Defaulted(s: Server): (r: Server)
    ensures r.port != 0 && r.routingDomains != []
    ensures r.address == s.address && r.interface == s.interface && r.priority == s.priority
  {
    s.(routingDomains := if s.routingDomains == [] then [ROOT] else s.routingDomains,
       port := if s.port != 0 then s.port else if s.protocol != Tls then 53 else 853)
  }

  function Max(x: int, y: int): int {
    if x > y then x else y
  }

  /** Wireless servers lose ten points of priority, but not below INT_MIN. */
  function Finished(s: Server, wireless: string -> bool): (r: Server)
    ensures r.port != 0 && r.routingDomains != []
    ensures r.address == s.address && r.interface == s.interface
  {
    var t := Defaulted(s);
    if wireless(t.interface) then t.(priority := Max(t.priority - 10, -0x8000_0000)) else t
  }

  predicate Conflicts(s: Server, accepted: seq<Server>) {
    exists a :: a in accepted && a.address == s.address && a.interface != s.interface
  }

  /** The loop of the call: stop at the first broken entry, skip a server whose address was
      already accepted on another interface. */
  function Filter(entries: seq<Entry>, accepted: seq<Server>, wireless: string -> bool): Verdict
    decreases |entries|
  {
    if entries == [] then Accepted(accepted)
    else
      match entries[0]
      case Broken(error) => Refused(error)
      case Parsed(s) =>
        if Conflicts(s, accepted) then Filter(entries[1..], accepted, wireless)
        else Filter(entries[1..], accepted + [Finished(s, wireless)], wireless)
  }

  function Judge(call: Call, wireless: string -> bool): Verdict {
    if call.mode > 2 then Refused(InvalidMode) else Filter(call.entries, [], wireless)
  }

  method FindConflict(s: Server, accepted: seq<Server>) returns (duplicate: bool)
    ensures duplicate == Conflicts(s, accepted)
  {
    for k := 0 to |accepted|
      invariant forall j :: 0 <= j < k ==> accepted[j].address != s.address || accepted[j].interface == s.interface
    {
      if s.address == accepted[k].address && s.interface != accepted[k].interface {
        return true;
      }
    }
    return false;
  }

  // ----- The specification of the filter

  /** The interface of the first server with an address. */
  function FirstInterface(servers: seq<Server>, a: Address): Option<string> {
    if servers == [] then None
    else if servers[0].address == a then Some(servers[0].interface)
    else FirstInterface(servers[1..], a)
  }

  /** Server i is on the interface of the first server with its address. */
  predicate Keeps(servers: seq<Server>, i: nat)
    requires i < |servers|
  {
    FirstInterface(servers, servers[i].address) == Some(servers[i].interface)
  }

  function KeptFrom(servers: seq<Server>, i: nat, wireless: string -> bool): seq<Server>
    requires i <= |servers|
    decreases |servers| - i
  {
    if i == |servers| then []
    else if Keeps(servers, i) then [Finished(servers[i], wireless)] + KeptFrom(servers, i + 1, wireless)
    else KeptFrom(servers, i + 1, wireless)
  }

  function Servers(entries: seq<Entry>): seq<Server>
    requires forall e :: e in entries ==> e.Parsed?
  {
    seq(|entries|, i requires 0 <= i < |entries| => assert entries[i] in entries; entries[i].server)
  }

  lemma {:induction false} FirstInterfaceConcat(xs: seq<Server>, ys: seq<Server>, a: Address)
    ensures FirstInterface(xs + ys, a)
         == if FirstInterface(xs, a).Some? then FirstInterface(xs, a) else FirstInterface(ys, a)
  {
    if xs == [] {
      assert xs + ys == ys;
    } else {
      FirstInterfaceConcat(xs[1..], ys, a);
      assert (xs + ys)[1..] == xs[1..] + ys;
    }
  }

  lemma {:induction false} FirstInterfaceSingle(s: Server, a: Address)
    ensures FirstInterface([s], a) == if s.address == a then Some(s.interface) else None
  {
    assert [s][1..] == [];
  }

  /** Among the accepted servers, each address seen so far is on its first interface. */
  ghost predicate Represents(accepted: seq<Server>, seen: seq<Server>) {
    && (forall x :: x in accepted ==> FirstInterface(seen, x.address) == Some(x.interface))
    && (forall a :: FirstInterface(seen, a).Some? ==> exists x :: x in accepted && x.address == a)
  }

  lemma {:induction false} ConflictsIffNotFirst(s: Server, seen: seq<Server>, accepted: seq<Server>)
    requires Represents(accepted, seen)
    ensures Conflicts(s, accepted) <==> FirstInterface(seen + [s], s.address) != Some(s.interface)
  {
    FirstInterfaceConcat(seen, [s], s.address);
    if FirstInterface(seen, s.address).Some? {
      var x :| x in accepted && x.address == s.address;
    }
  }

  lemma StaysRepresented(s: Server, kept: Server, seen: seq<Server>, accepted: seq<Server>)
    requires Represents(accepted, seen)
    requires kept.address == s.address && kept.interface == s.interface
    ensures Conflicts(s, accepted) ==> Represents(accepted, seen + [s])
    ensures !Conflicts(s, accepted) ==> Represents(accepted + [kept], seen + [s])
  {
    ConflictsIffNotFirst(s, seen, accepted);
    var next := if Conflicts(s, accepted) then accepted else accepted + [kept];
    assert !Conflicts(s, accepted) ==> next[|next| - 1] == kept;
    forall a
      ensures FirstInterface(seen + [s], a) ==
        if FirstInterface(seen, a).Some? then FirstInterface(seen, a) else FirstInterface([s], a)
    {
      FirstInterfaceConcat(seen, [s], a);
    }
    forall a | FirstInterface(seen + [s], a).Some?
      ensures exists x :: x in next && x.address == a
    {
      if FirstInterface(seen, a).Some? {
        var x :| x in accepted && x.address == a;
        assert x in next;
      } else {
        FirstInterfaceSingle(s, a);
        assert kept in next;
      }
    }
  }

  lemma KeepsIffNoConflict(servers: seq<Server>, i: nat, accepted: seq<Server>)
    requires i < |servers| && Represents(accepted, servers[..i])
    ensures Keeps(servers, i) <==> !Conflicts(servers[i], accepted)
  {
    var s, seen, rest := servers[i], servers[..i], servers[i + 1..];
    assert servers == (seen + [s]) + rest;
    ConflictsIffNotFirst(s, seen, accepted);
    FirstInterfaceConcat(seen + [s], rest, s.address);
    FirstInterfaceConcat(seen, [s], s.address);
  }

  lemma {:induction false} FilterKeeps(entries: seq<Entry>, i: nat, accepted: seq<Server>, wireless: string -> bool)
    requires i <= |entries| && forall e :: e in entries ==> e.Parsed?
    requires Represents(accepted, Servers(entries)[..i])
    ensures Filter(entries[i..], accepted, wireless)
         == Accepted(accepted + KeptFrom(Servers(entries), i, wireless))
    decreases |entries| - i
  {
    var servers := Servers(entries);
    if i == |entries| {
      assert accepted + [] == accepted;
    } else {
      var s, seen := servers[i], servers[..i];
      var kept := Finished(s, wireless);
      assert entries[i] in entries && entries[i..][0] == entries[i] && entries[i..][1..] == entries[i + 1..];
      assert servers[..i + 1] == seen + [s];
      KeepsIffNoConflict(servers, i, accepted);
      StaysRepresented(s, kept, seen, accepted);
      if Keeps(servers, i) {
        FilterKeeps(entries, i + 1, accepted + [kept], wireless);
        assert (accepted + [kept]) + KeptFrom(servers, i + 1, wireless)
            == accepted + ([kept] + KeptFrom(servers, i + 1, wireless));
      } else {
        FilterKeeps(entries, i + 1, accepted, wireless);
      }
    }
  }

  /** The greedy filter keeps, in order, exactly the servers on the interface of the first
      server with their address. */
  lemma {:induction false} GreedyFilterIsFirstInterface(entries: seq<Entry>, wireless: string -> bool)
    requires forall e :: e in entries ==> e.Parsed?
    ensures Filter(entries, [], wireless) == Accepted(KeptFrom(Servers(entries), 0, wireless))
  {
    FilterKeeps(entries, 0, [], wireless);
    assert entries[0..] == entries;
    assert [] + KeptFrom(Servers(entries), 0, wireless) == KeptFrom(Servers(entries), 0, wireless);
  }

  /** One broken entry anywhere refuses the whole call, with the first one's error. */
  lemma {:induction false} FirstErrorRefuses(entries: seq<Entry>, accepted: seq<Server>, wireless: string -> bool, k: nat)
    requires k < |entries| && entries[k].Broken? && forall j :: 0 <= j < k ==> entries[j].Parsed?
    ensures Filter(entries, accepted, wireless) == Refused(entries[k].error)
    decreases |entries|
  {
    if k > 0 {
      var s := entries[0].server;
      assert entries[1..][k - 1] == entries[k];
      FirstErrorRefuses(entries[1..], accepted, wireless, k - 1);
      FirstErrorRefuses(entries[1..], accepted + [Finished(s, wireless)], wireless, k - 1);
    }
  }

  /** A call is refused for a mode above 2, else for its first broken entry, and for nothing
      else. */
  lemma RefusedExactly(call: Call, wireless: string -> bool)
    ensures call.mode > 2 ==> Judge(call, wireless) == Refused(InvalidMode)
    ensures call.mode <= 2 ==>
      (Judge(call, wireless).Refused? <==> exists e :: e in call.entries && e.Broken?)
  {
    if call.mode <= 2 {
      if forall e :: e in call.entries ==> e.Parsed? {
        GreedyFilterIsFirstInterface(call.entries, wireless);
      } else {
        var k := FirstBroken(call.entries);
        FirstErrorRefuses(call.entries, [], wireless, k);
      }
    }
  }

  lemma {:induction false} FirstBroken(entries: seq<Entry>) returns (k: nat)
    requires exists e :: e in entries && e.Broken?
    ensures k < |entries| && entries[k].Broken? && forall j :: 0 <= j < k ==> entries[j].Parsed?
  {
    if entries[0].Broken? {
      k := 0;
    } else {
      assert entries == [entries[0]] + entries[1..];
      var m := FirstBroken(entries[1..]);
      k := m + 1;
    }
  }

  /** What becomes of a server of a call that is accepted: its port or the standard one of its
      protocol, its routing domains or the root, and on a wireless interface ten points less
      priority, down to the lowest int. */
  ghost predicate AcceptedAs(s: Server, r: Server, wireless: string -> bool) {
    && r == s.(port := r.port, priority := r.priority, routingDomains := r.routingDomains)
    && (s.port != 0 ==> r.port == s.port)
    && (s.port == 0 && s.protocol == Tls ==> r.port == 853)
    && (s.port == 0 && s.protocol != Tls ==> r.port == 53)
    && (s.routingDomains != [] ==> r.routingDomains == s.routingDomains)
    && (s.routingDomains == [] ==> r.routingDomains == ["."])
    && (!wireless(s.interface) ==> r.priority == s.priority)
    && (wireless(s.interface) ==> r.priority == Max(s.priority - 10, -2147483648))
  }

  lemma {:induction false} KeptAreAccepted(servers: seq<Server>, i: nat, wireless: string -> bool, r: Server)
    requires i <= |servers|
    ensures r in KeptFrom(servers, i, wireless) <==>
      exists j :: i <= j < |servers| && Keeps(servers, j) && AcceptedAs(servers[j], r, wireless)
    decreases |servers| - i
  {
    if i < |servers| {
      KeptAreAccepted(servers, i + 1, wireless, r);
      assert AcceptedAs(servers[i], r, wireless) <==> r == Finished(servers[i], wireless);
      if j :| i <= j < |servers| && Keeps(servers, j) && AcceptedAs(servers[j], r, wireless) {
        assert j == i || i + 1 <= j;
      }
    }
  }

  /** A server is accepted if and only if the call holds one, on the interface of the first with
      its address, that becomes it by the defaults. */
  lemma {:induction false} AcceptedExactly(entries: seq<Entry>, wireless: string -> bool, r: Server)
    requires forall e :: e in entries ==> e.Parsed?
    ensures Filter(entries, [], wireless).Accepted?
    ensures r in Filter(entries, [], wireless).servers <==>
      exists j :: 0 <= j < |entries| && Keeps(Servers(entries), j) && AcceptedAs(Servers(entries)[j], r, wireless)
  {
    GreedyFilterIsFirstInterface(entries, wireless);
    KeptAreAccepted(Servers(entries), 0, wireless, r);
  }

  ghost predicate WellFormed(servers: seq<Server>) {
    && (forall s :: s in servers ==> s.port != 0 && s.routingDomains != [])
    && (forall a, b :: a in servers && b in servers && a.address == b.address ==> a.interface == b.interface)
  }

  /** Accepted servers have a port and a routing domain, and no address is accepted on two
      interfaces. */
  lemma {:induction false} AcceptedAreWellFormed(entries: seq<Entry>, accepted: seq<Server>, wireless: string -> bool)
    requires WellFormed(accepted)
    ensures Filter(entries, accepted, wireless).Accepted? ==>
      WellFormed(Filter(entries, accepted, wireless).servers)
    decreases |entries|
  {
    if entries != [] && entries[0].Parsed? {
      var s := entries[0].server;
      AcceptedAreWellFormed(entries[1..], accepted, wireless);
      if !Conflicts(s, accepted) {
        AcceptedAreWellFormed(entries[1..], accepted + [Finished(s, wireless)], wireless);
      }
    }
  }
}
