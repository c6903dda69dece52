/** The choice of the CA bundle Unbound is started with. One Unbound process has one
    bundle, so a change of this choice costs a restart. */
module CertificateAuthority {
  import opened ServerTypes
  import opened Unbound

  datatype Pick = Pick(priority: int, ca: string)

  predicate Candidate(s: Server, mode: Mode, domain: string) {
    s.ca.Some? && Eligible(s, mode, domain) && s.protocol == Tls
  }

  /** One candidate after another; the first of the lowest priority value wins. */
  function ScanList(list: seq<Server>, mode: Mode, domain: string, acc: Option<Pick>): Option<Pick>
    decreases |list|
  {
    if list == [] then acc
    else
      var s := list[0];
      var takes := Candidate(s, mode, domain) && (acc.None? || s.priority < acc.value.priority);
      ScanList(list[1..], mode, domain, if takes then Some(Pick(s.priority, s.ca.value)) else acc)
  }

  /** The scan over a hash table that is walked in the given order. */
  function ScanTable(table: View, order: seq<string>, mode: Mode, acc: Option<Pick>): Option<Pick>
    requires forall d :: d in order ==> d in table
    decreases |order|
  {
    if order == [] then acc
    else ScanTable(table, order[1..], mode, ScanList(table[order[0]], mode, order[0], acc))
  }

  function FirstReadable(paths: seq<string>, readable: string -> bool): Option<string> {
    if paths == [] then None
    else if readable(paths[0]) then Some(paths[0])
    else FirstReadable(paths[1..], readable)
  }

  function OrFallback(pick: Option<Pick>, paths: seq<string>, readable: string -> bool): Option<string> {
    if pick.Some? then Some(pick.value.ca) else FirstReadable(paths, readable)
  }

  function EffectiveCa(table: View, order: seq<string>, mode: Mode,
                       paths: seq<string>, readable: string -> bool): Option<string>
    requires forall d :: d in order ==> d in table
  {
    OrFallback(ScanTable(table, order, mode, None), paths, readable)
  }

  method GetEffectiveCa(table: View, order: seq<string>, mode: Mode,
                        paths: seq<string>, readable: string -> bool) returns (ca: Option<string>)
    requires forall d :: d in order ==> d in table
    ensures ca == EffectiveCa(table, order, mode, paths, readable)
  {
    var best: Option<Pick> := None;
    for i := 0 to |order|
      invariant ScanTable(table, order[i..], mode, best) == ScanTable(table, order, mode, None)
    {
      var domain, list := order[i], table[order[i]];
      ghost var entry := best;
      for j := 0 to |list|
        invariant ScanList(list[j..], mode, domain, best) == ScanList(list, mode, domain, entry)
      {
        var cur := list[j];
        assert list[j..][1..] == list[j + 1..];
        if cur.ca.None? || !Eligible(cur, mode, domain) {
          continue;
        }
        if (best.None? || cur.priority < best.value.priority) && cur.protocol == Tls {
          best := Some(Pick(cur.priority, cur.ca.value));
        }
      }
      assert order[i..][1..] == order[i + 1..];
    }
    if best.Some? {
      return Some(best.value.ca);
    }
    for i := 0 to |paths|
      invariant FirstReadable(paths[i..], readable) == FirstReadable(paths, readable)
    {
      assert paths[i..][1..] == paths[i + 1..];
      if readable(paths[i]) {
        return Some(paths[i]);
      }
    }
    return None;
  }

  // ----- What the scan can return, whatever the hash order

  function Better(x: Option<Pick>, y: Option<Pick>): Option<Pick> {
    if y.None? then x
    else if x.None? then y
    else if y.value.priority < x.value.priority then y else x
  }

  function Best(list: seq<Server>, mode: Mode, domain: string): Option<Pick> {
    ScanList(list, mode, domain, None)
  }

  lemma {:induction false} ScanListIsBetter(list: seq<Server>, mode: Mode, domain: string, acc: Option<Pick>)
    ensures ScanList(list, mode, domain, acc) == Better(acc, Best(list, mode, domain))
    decreases |list|
  {
    if list != [] {
      var s := list[0];
      var own := if Candidate(s, mode, domain) then Some(Pick(s.priority, s.ca.value)) else None;
      ScanListIsBetter(list[1..], mode, domain, Better(acc, own));
      ScanListIsBetter(list[1..], mode, domain, own);
    }
  }

  /** A domain whose best candidate no other domain's candidate undercuts. */
  predicate Lowest(table: View, mode: Mode, d: string)
    requires d in table
  {
    && Best(table[d], mode, d).Some?
    && forall e :: e in table && Best(table[e], mode, e).Some? ==>
         Best(table[d], mode, d).value.priority <= Best(table[e], mode, e).value.priority
  }

  /** The CAs that some hash order makes the scan choose. */
  function Choices(table: View, mode: Mode): set<string> {
    set d | d in table && Lowest(table, mode, d) :: Best(table[d], mode, d).value.ca
  }

  lemma {:induction false} ScanTableMinimum(table: View, order: seq<string>, mode: Mode, acc: Option<Pick>)
    requires forall d :: d in order ==> d in table
    ensures var r := ScanTable(table, order, mode, acc);
      && (acc.Some? ==> r.Some? && r.value.priority <= acc.value.priority)
      && (forall d :: d in order && Best(table[d], mode, d).Some? ==>
            r.Some? && r.value.priority <= Best(table[d], mode, d).value.priority)
      && (r == acc || exists d :: d in order && Best(table[d], mode, d) == r)
      && (acc.Some? && r.value.priority == acc.value.priority ==> r == acc)
    decreases |order|
  {
    if order != [] {
      var d, rest := order[0], order[1..];
      assert order == [d] + rest;
      ScanListIsBetter(table[d], mode, d, acc);
      ScanTableMinimum(table, rest, mode, Better(acc, Best(table[d], mode, d)));
    }
  }

  lemma {:induction false} ScanIsAChoice(table: View, order: seq<string>, mode: Mode)
    requires Enumerates(order, table.Keys)
    ensures var r := ScanTable(table, order, mode, None);
      if r.Some? then r.value.ca in Choices(table, mode) else Choices(table, mode) == {}
  {
    ScanTableMinimum(table, order, mode, None);
    var r := ScanTable(table, order, mode, None);
    if r.Some? {
      var d :| d in order && Best(table[d], mode, d) == r;
      assert Lowest(table, mode, d);
    }
  }

  /** Some order walks a given domain first. */
  lemma {:induction false} OrderExists(keys: set<string>) returns (order: seq<string>)
    ensures Enumerates(order, keys)
  {
    if keys == {} {
      order := [];
    } else {
      var k :| k in keys;
      var rest := OrderExists(keys - {k});
      order := [k] + rest;
    }
  }

  lemma ChoiceIsRealised(table: View, mode: Mode, d: string) returns (order: seq<string>)
    requires d in table && Lowest(table, mode, d)
    ensures Enumerates(order, table.Keys)
    ensures ScanTable(table, order, mode, None) == Best(table[d], mode, d)
  {
    var rest := OrderExists(table.Keys - {d});
    order := [d] + rest;
    assert order[1..] == rest;
    ScanListIsBetter(table[d], mode, d, None);
    ScanTableMinimum(table, rest, mode, Best(table[d], mode, d));
  }

  /** Everything the choice of a CA can come out as. */
  function Outcomes(table: View, mode: Mode, paths: seq<string>, readable: string -> bool): set<Option<string>> {
    if Choices(table, mode) == {} then {FirstReadable(paths, readable)}
    else set c | c in Choices(table, mode) :: Some(c)
  }

  lemma EffectiveCaIsAnOutcome(table: View, order: seq<string>, mode: Mode,
                               paths: seq<string>, readable: string -> bool)
    requires Enumerates(order, table.Keys)
    ensures EffectiveCa(table, order, mode, paths, readable) in Outcomes(table, mode, paths, readable)
  {
    ScanIsAChoice(table, order, mode);
  }

  lemma OutcomeIsRealised(table: View, mode: Mode, paths: seq<string>, readable: string -> bool,
                          outcome: Option<string>) returns (order: seq<string>)
    requires outcome in Outcomes(table, mode, paths, readable)
    ensures Enumerates(order, table.Keys)
    ensures EffectiveCa(table, order, mode, paths, readable) == outcome
  {
    if Choices(table, mode) == {} {
      order := OrderExists(table.Keys);
      ScanIsAChoice(table, order, mode);
    } else {
      var d :| d in table && Lowest(table, mode, d) && Best(table[d], mode, d).value.ca == outcome.value;
      order := ChoiceIsRealised(table, mode, d);
    }
  }

  /** Two tables lead to the same CA under every pair of hash orders exactly when each of
      them allows one outcome and it is the same. */
  lemma AgreeForAllOrdersIff(t: View, u: View, mode: Mode, paths: seq<string>, readable: string -> bool)
    ensures (forall o, p :: Enumerates(o, t.Keys) && Enumerates(p, u.Keys) ==>
               EffectiveCa(t, o, mode, paths, readable) == EffectiveCa(u, p, mode, paths, readable))
       <==> (exists c :: Outcomes(t, mode, paths, readable) == {c} == Outcomes(u, mode, paths, readable))
  {
    var a, b := Outcomes(t, mode, paths, readable), Outcomes(u, mode, paths, readable);
    if c :| a == {c} == b {
      forall o, p | Enumerates(o, t.Keys) && Enumerates(p, u.Keys)
        ensures EffectiveCa(t, o, mode, paths, readable) == EffectiveCa(u, p, mode, paths, readable)
      {
        EffectiveCaIsAnOutcome(t, o, mode, paths, readable);
        EffectiveCaIsAnOutcome(u, p, mode, paths, readable);
      }
    }
    if forall o, p :: Enumerates(o, t.Keys) && Enumerates(p, u.Keys) ==>
         EffectiveCa(t, o, mode, paths, readable) == EffectiveCa(u, p, mode, paths, readable) {
      var o := OrderExists(t.Keys);
      var p := OrderExists(u.Keys);
      EffectiveCaIsAnOutcome(t, o, mode, paths, readable);
      EffectiveCaIsAnOutcome(u, p, mode, paths, readable);
      var c := EffectiveCa(t, o, mode, paths, readable);
      forall x | x in a
        ensures x == c
      {
        var q := OutcomeIsRealised(t, mode, paths, readable, x);
      }
      forall x | x in b
        ensures x == c
      {
        var q := OutcomeIsRealised(u, mode, paths, readable, x);
      }
      assert a == {c} && b == {c};
    }
  }

  // ----- When it is safe

  /** Server i of a list has the lowest priority value of the candidates, and is the first with
      that value. */
  ghost predicate FirstLowest(list: seq<Server>, mode: Mode, domain: string, i: nat) {
    && i < |list| && Candidate(list[i], mode, domain)
    && (forall j :: 0 <= j < |list| && Candidate(list[j], mode, domain) ==> list[i].priority <= list[j].priority)
    && (forall j :: 0 <= j < i && Candidate(list[j], mode, domain) ==> list[i].priority < list[j].priority)
  }

  lemma FirstLowestNext(list: seq<Server>, mode: Mode, domain: string, i: nat)
    requires list != [] && FirstLowest(list[1..], mode, domain, i)
    ensures (Candidate(list[0], mode, domain) ==> list[1..][i].priority < list[0].priority) ==>
      FirstLowest(list, mode, domain, i + 1)
    ensures Candidate(list[0], mode, domain) && list[0].priority <= list[1..][i].priority ==>
      FirstLowest(list, mode, domain, 0)
  {
    forall j | 0 < j < |list|
      ensures list[j] == list[1..][j - 1]
    {
    }
  }

  lemma {:induction false} BestIsFirstLowest(list: seq<Server>, mode: Mode, domain: string) returns (i: nat)
    requires Best(list, mode, domain).Some?
    ensures FirstLowest(list, mode, domain, i)
    ensures Best(list, mode, domain) == Some(Pick(list[i].priority, list[i].ca.value))
  {
    var rest := list[1..];
    var own := if Candidate(list[0], mode, domain) then Some(Pick(list[0].priority, list[0].ca.value)) else None;
    ScanListIsBetter(rest, mode, domain, own);
    if Best(rest, mode, domain).Some? {
      var k := BestIsFirstLowest(rest, mode, domain);
      FirstLowestNext(list, mode, domain, k);
      i := if own.Some? && list[0].priority <= rest[k].priority then 0 else k + 1;
    } else {
      BestHasWitness(rest, mode, domain);
      forall j | 0 < j < |list|
        ensures !Candidate(list[j], mode, domain)
      {
        assert list[j] == rest[j - 1];
      }
      i := 0;
    }
  }

  lemma {:induction false} BestHasWitness(list: seq<Server>, mode: Mode, domain: string)
    ensures Best(list, mode, domain).Some? <==> exists s :: s in list && Candidate(s, mode, domain)
    ensures Best(list, mode, domain).Some? ==>
      exists s :: s in list && Candidate(s, mode, domain) &&
        Best(list, mode, domain) == Some(Pick(s.priority, s.ca.value))
  {
    if list != [] {
      var s := list[0];
      BestHasWitness(list[1..], mode, domain);
      assert list == [s] + list[1..];
      var own := if Candidate(s, mode, domain) then Some(Pick(s.priority, s.ca.value)) else None;
      ScanListIsBetter(list[1..], mode, domain, own);
    }
  }

  lemma LowestExists(table: View, mode: Mode, d: string)
    requires d in table && Best(table[d], mode, d).Some?
    ensures Choices(table, mode) != {}
  {
    var order := OrderExists(table.Keys);
    ScanTableMinimum(table, order, mode, None);
    ScanIsAChoice(table, order, mode);
  }

  /** A CA shared by all candidates of a table that has one is its only outcome. */
  lemma SharedCaIsOnlyOutcome(table: View, mode: Mode, paths: seq<string>, readable: string -> bool, ca: string)
    requires exists d, s :: d in table && s in table[d] && Candidate(s, mode, d)
    requires forall d, s :: d in table && s in table[d] && Candidate(s, mode, d) ==> s.ca == Some(ca)
    ensures Outcomes(table, mode, paths, readable) == {Some(ca)}
  {
    var d, s :| d in table && s in table[d] && Candidate(s, mode, d);
    BestHasWitness(table[d], mode, d);
    LowestExists(table, mode, d);
    forall e | e in table && Lowest(table, mode, e)
      ensures Best(table[e], mode, e).value.ca == ca
    {
      BestHasWitness(table[e], mode, e);
    }
    var c :| c in Choices(table, mode);
    assert Choices(table, mode) == {ca};
  }

  /** A TLS server with a CA of its own, listed for a domain for which the mode allows it. */
  ghost predicate Offers(table: View, mode: Mode, d: string, s: Server) {
    && d in table && s in table[d] && s.protocol == Tls && s.ca.Some?
    && (s.interface == "" || mode == Backup || (mode == Prefer && d != "."))
  }

  lemma OffersIffCandidate(table: View, mode: Mode, d: string, s: Server)
    ensures Offers(table, mode, d, s) <==> d in table && s in table[d] && Candidate(s, mode, d)
  {
  }

  /** If any TLS server allowed by the mode brings a CA, the chosen one is that of such a server
      with the lowest priority value among them all; otherwise it is the first readable file of
      the configuration, or none if none is readable. */
  lemma ChosenCa(table: View, order: seq<string>, mode: Mode, paths: seq<string>, readable: string -> bool)
    requires Enumerates(order, table.Keys)
    ensures var ca := EffectiveCa(table, order, mode, paths, readable);
      if exists d, s :: Offers(table, mode, d, s)
      then exists d, s :: Offers(table, mode, d, s) && ca == s.ca && NoneUndercuts(table, mode, s.priority)
      else IsFirstReadable(paths, readable, ca)
  {
    ScanTableMinimum(table, order, mode, None);
    FallbackIsFirstReadable(paths, readable);
    var r := ScanTable(table, order, mode, None);
    if r.Some? {
      var d :| d in order && Best(table[d], mode, d) == r;
      var i := BestIsFirstLowest(table[d], mode, d);
      OffersIffCandidate(table, mode, d, table[d][i]);
      NobodyLower(table, order, mode, r.value.priority);
    } else {
      forall d, s
        ensures !Offers(table, mode, d, s)
      {
        OffersIffCandidate(table, mode, d, s);
        if Offers(table, mode, d, s) {
          BestHasWitness(table[d], mode, d);
        }
      }
    }
  }

  /** No server that offers a CA has a lower priority value. */
  ghost predicate NoneUndercuts(table: View, mode: Mode, priority: int) {
    forall d, s :: Offers(table, mode, d, s) ==> priority <= s.priority
  }

  lemma NobodyLower(table: View, order: seq<string>, mode: Mode, priority: int)
    requires Enumerates(order, table.Keys)
    requires forall d :: d in order && Best(table[d], mode, d).Some? ==> priority <= Best(table[d], mode, d).value.priority
    ensures NoneUndercuts(table, mode, priority)
  {
    forall d, s | Offers(table, mode, d, s)
      ensures priority <= s.priority
    {
      OffersIffCandidate(table, mode, d, s);
      BestHasWitness(table[d], mode, d);
      var i := BestIsFirstLowest(table[d], mode, d);
      var j :| 0 <= j < |table[d]| && table[d][j] == s;
    }
  }

  ghost predicate IsFirstReadable(paths: seq<string>, readable: string -> bool, ca: Option<string>) {
    match ca
    case None => forall p :: p in paths ==> !readable(p)
    case Some(p) => exists i :: 0 <= i < |paths| && paths[i] == p && readable(p) && NoneReadable(paths[..i], readable)
  }

  ghost predicate NoneReadable(paths: seq<string>, readable: string -> bool) {
    forall p :: p in paths ==> !readable(p)
  }

  lemma {:induction false} FallbackIsFirstReadable(paths: seq<string>, readable: string -> bool)
    ensures IsFirstReadable(paths, readable, FirstReadable(paths, readable))
  {
    if paths != [] {
      if readable(paths[0]) {
        assert NoneReadable(paths[..0], readable);
      } else {
        FallbackIsFirstReadable(paths[1..], readable);
        var r := FirstReadable(paths[1..], readable);
        if r.Some? {
          var i :| 0 <= i < |paths[1..]| && paths[1..][i] == r.value && NoneReadable(paths[1..][..i], readable);
          assert paths[..i + 1] == [paths[0]] + paths[1..][..i];
          assert NoneReadable(paths[..i + 1], readable);
          assert paths[i + 1] == r.value;
        } else {
          assert paths == [paths[0]] + paths[1..];
        }
      }
    }
  }
}
