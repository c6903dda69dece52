/** Who owns which server record. A record is freed by the list or table that owns it; the
    index and the list of all servers only point at records owned elsewhere. */
module Ownership {
  import opened ServerTypes
  import opened DomainIndex
  import opened Unbound
  import opened Records

  ghost function SetOf(list: seq<ServerRecord>): set<ServerRecord> {
    set p | p in list
  }

  ghost predicate DistinctRecords(list: seq<ServerRecord>) {
    forall i, j :: 0 <= i < j < |list| ==> list[i] != list[j]
  }

  lemma {:induction false} SizeOfDistinct(list: seq<ServerRecord>)
    requires DistinctRecords(list)
    ensures |SetOf(list)| == |list|
  {
    if list != [] {
      var front, last := list[..|list| - 1], list[|list| - 1];
      SizeOfDistinct(front);
      assert list == front + [last];
      assert SetOf(list) == SetOf(front) + {last} && last !in SetOf(front);
    }
  }

  /** The records of a table. */
  ghost function Stored(table: RecordTable): set<ServerRecord> {
    set d, p | d in table && p in table[d] :: p
  }

  /** No record is in a table twice. */
  ghost predicate Unshared(table: RecordTable) {
    && (forall d :: d in table ==> DistinctRecords(table[d]))
    && (forall d, e :: d in table && e in table && d != e ==> SetOf(table[d]) !! SetOf(table[e]))
  }

  ghost function StoredIn(table: Option<RecordTable>): set<ServerRecord> {
    if table.Some? then Stored(table.value) else {}
  }

  lemma StoredUpdate(table: RecordTable, d: string, list: seq<ServerRecord>)
    requires d !in table
    ensures Stored(table[d := list]) == Stored(table) + SetOf(list)
  {
    var after := table[d := list];
    forall p
      ensures p in Stored(after) <==> p in Stored(table) || p in list
    {
      if p in list {
        assert d in after && p in after[d];
      }
      if p in Stored(table) {
        var e :| e in table && p in table[e];
        assert e in after && p in after[e];
      }
    }
  }

  lemma UnsharedUpdate(table: RecordTable, d: string, list: seq<ServerRecord>)
    requires Unshared(table) && d !in table && DistinctRecords(list) && SetOf(list) !! Stored(table)
    ensures Unshared(table[d := list])
  {
    forall e | e in table
      ensures SetOf(table[e]) !! SetOf(list)
    {
      assert SetOf(table[e]) <= Stored(table);
    }
  }

  /** The allocator, as far as server records go. Freeing a record requires it to be
      allocated, so no record can be freed twice. */
  class Allocator {
    ghost var alive: set<ServerRecord>

    constructor ()
      ensures alive == {}
    {
      alive := {};
    }

    method Allocate(uri: Server) returns (p: ServerRecord)
      modifies this
      ensures fresh(p) && p.uri == uri && p !in old(alive)
      ensures alive == old(alive) + {p}
    {
      p := new ServerRecord(uri);
      alive := alive + {p};
    }

    method Destroy(p: ServerRecord)
      requires p in alive
      modifies this
      ensures alive == old(alive) - {p}
    {
      alive := alive - {p};
    }

    /** Following the references of a list, all of which must still be allocated. */
    method ReadList(list: seq<ServerRecord>) returns (uris: seq<Server>)
      requires SetOf(list) <= alive
      ensures uris == Uris(list)
    {
      uris := Uris(list);
    }

    /** Following the references of a table. */
    method ReadTable(table: RecordTable) returns (uris: Index)
      requires Stored(table) <= alive
      ensures uris == UriTable(table)
    {
      uris := UriTable(table);
    }

    /** g_list_free_full on a list of records. */
    method FreeList(list: seq<ServerRecord>)
      requires DistinctRecords(list) && SetOf(list) <= alive
      modifies this
      ensures alive == old(alive) - SetOf(list)
    {
      for i := 0 to |list|
        invariant alive == old(alive) - SetOf(list[..i])
      {
        assert list[..i + 1] == list[..i] + [list[i]];
        assert list[i] in SetOf(list);
        Destroy(list[i]);
      }
      assert list[..|list|] == list;
    }

    /** Destroying a table whose values are lists of owned records. */
    method FreeTable(table: RecordTable)
      requires Unshared(table) && Stored(table) <= alive
      modifies this
      ensures alive == old(alive) - Stored(table)
    {
      var keys := table.Keys;
      ghost var freed: set<ServerRecord> := {};
      while keys != {}
        invariant keys <= table.Keys
        invariant freed <= Stored(table) && alive == old(alive) - freed
        invariant forall d :: d in table && d !in keys ==> SetOf(table[d]) <= freed
        invariant forall d :: d in keys ==> SetOf(table[d]) !! freed
        decreases |keys|
      {
        var d :| d in keys;
        assert SetOf(table[d]) <= Stored(table);
        FreeList(table[d]);
        freed := freed + SetOf(table[d]);
        keys := keys - {d};
      }
      assert Stored(table) <= freed by {
        forall p | p in Stored(table)
          ensures p in freed
        {
          var d :| d in table && p in table[d];
          assert p in SetOf(table[d]);
        }
      }
    }

    /** Replaces the elements of a list by copies. */
    method CopyList(uris: seq<Server>) returns (copies: seq<ServerRecord>)
      modifies this
      ensures Uris(copies) == uris && DistinctRecords(copies)
      ensures SetOf(copies) !! old(alive) && fresh(SetOf(copies))
      ensures alive == old(alive) + SetOf(copies)
    {
      copies := [];
      for i := 0 to |uris|
        invariant Uris(copies) == uris[..i] && DistinctRecords(copies)
        invariant SetOf(copies) !! old(alive) && fresh(SetOf(copies))
        invariant alive == old(alive) + SetOf(copies)
      {
        var copy := Allocate(uris[i]);
        assert copy !in SetOf(copies);
        UrisConcat(copies, [copy]);
        assert SetOf(copies + [copy]) == SetOf(copies) + {copy};
        copies := copies + [copy];
        assert uris[..i + 1] == uris[..i] + [uris[i]];
      }
      assert uris[..|uris|] == uris;
    }

    /** Stores copies of some servers under a new domain. */
    method CopyInto(table: RecordTable, d: string, uris: seq<Server>) returns (after: RecordTable)
      requires d !in table && Unshared(table) && Stored(table) <= alive
      modifies this
      ensures after.Keys == table.Keys + {d} && (forall e :: e in table ==> after[e] == table[e])
      ensures Uris(after[d]) == uris
      ensures Unshared(after) && Stored(after) <= alive
      ensures Stored(after) - Stored(table) !! old(alive) && Stored(table) <= Stored(after)
      ensures alive == old(alive) + Stored(after)
    {
      var copies := CopyList(uris);
      StoredUpdate(table, d, copies);
      UnsharedUpdate(table, d, copies);
      after := table[d := copies];
    }

    method CopyUsed(table: RecordTable, index: Index, mode: Mode, keys: set<string>, d: string)
      returns (next: RecordTable)
      requires NonEmptyLists(index) && d in keys && keys <= index.Keys && CopiedBut(table, index, mode, keys)
      requires Unshared(table) && Stored(table) <= alive
      modifies this
      ensures CopiedBut(next, index, mode, keys - {d})
      ensures Unshared(next) && Stored(table) <= Stored(next)
      ensures Stored(next) - Stored(table) !! old(alive)
      ensures alive == old(alive) + Stored(next)
    {
      var used := GetUsedServers(index[d], mode, d);
      next := table;
      if used != [] {
        next := CopyInto(table, d, used);
      }
      CopiedNext(table, next, index, mode, keys, d);
    }

    /** The used servers of every domain, as copies of their own. */
    method CopyUsedServers(index: Index, mode: Mode) returns (table: RecordTable)
      requires NonEmptyLists(index)
      modifies this
      ensures UriTable(table) == UsedView(index, mode)
      ensures Unshared(table) && Stored(table) !! old(alive)
      ensures alive == old(alive) + Stored(table)
    {
      table := map[];
      var keys := index.Keys;
      while keys != {}
        invariant keys <= index.Keys && CopiedBut(table, index, mode, keys)
        invariant Unshared(table) && Stored(table) !! old(alive)
        invariant alive == old(alive) + Stored(table)
        decreases |keys|
      {
        var d :| d in keys;
        table := CopyUsed(table, index, mode, keys, d);
        keys := keys - {d};
      }
      AllCopied(table, index, mode);
    }
  }

  /** The table holds the used servers of every domain but those of `keys`. */
  ghost predicate CopiedBut(table: RecordTable, index: Index, mode: Mode, keys: set<string>)
    requires NonEmptyLists(index)
  {
    && (forall d :: d in table <==> d in index && d !in keys && UsedServers(index[d], mode, d) != [])
    && (forall d :: d in table ==> Uris(table[d]) == UsedServers(index[d], mode, d))
  }

  lemma CopiedNext(table: RecordTable, next: RecordTable, index: Index, mode: Mode, keys: set<string>, d: string)
    requires NonEmptyLists(index) && CopiedBut(table, index, mode, keys) && d in keys && keys <= index.Keys
    requires UsedServers(index[d], mode, d) == [] ==> next == table
    requires UsedServers(index[d], mode, d) != [] ==>
      && next.Keys == table.Keys + {d} && (forall e :: e in table ==> next[e] == table[e])
      && Uris(next[d]) == UsedServers(index[d], mode, d)
    ensures CopiedBut(next, index, mode, keys - {d})
  {
  }

  lemma AllCopied(table: RecordTable, index: Index, mode: Mode)
    requires NonEmptyLists(index) && CopiedBut(table, index, mode, {})
    ensures UriTable(table) == UsedView(index, mode)
  {
    var view := UsedView(index, mode);
    assert UriTable(table).Keys == view.Keys;
  }
}
