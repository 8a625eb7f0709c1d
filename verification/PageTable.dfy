/** The three-level page table of kernel/vm.c: walk, mappages, uvmunmap and freewalk
    change the tables in place, and together they are a map from page numbers to
    entries. */
module PageTable {

  datatype Option<T> = None | Some(value: T)

  /** A page-table entry: the flags and the page it names. */
  datatype Pte = Pte(v: bool, r: bool, w: bool, x: bool, u: bool, cow: bool, page: nat) {
    /** An entry that names a table of the next level. */
    predicate IsDir() {
      v && !r && !w && !x
    }

    /** PTE_FLAGS(pte) == PTE_V */
    predicate OnlyValid() {
      IsDir() && !u && !cow
    }
  }

  const EMPTY := Pte(false, false, false, false, false, false, 0)
  const ENTRIES: nat := 512
  const PGSIZE: nat := 4096

  /** Virtual page numbers below MAXVA. */
  const MAXVPN: nat := 0x400_0000

  function Dir(p: nat): Pte {
    EMPTY.(v := true, page := p)
  }

  function Zeros(): (t: seq<Pte>)
    ensures |t| == ENTRIES && forall i :: 0 <= i < ENTRIES ==> t[i] == EMPTY
  {
    seq(ENTRIES, _ => EMPTY)
  }

  /** The index of a page in the table of the given level. */
  function Px(level: nat, vpn: nat): (i: nat)
    ensures i < ENTRIES
  {
    if level == 0 then vpn % ENTRIES
    else if level == 1 then vpn / ENTRIES % ENTRIES
    else vpn / (ENTRIES * ENTRIES) % ENTRIES
  }

  lemma PxInjective(a: nat, b: nat)
    requires a < MAXVPN && b < MAXVPN && Px(2, a) == Px(2, b) && Px(1, a) == Px(1, b) && Px(0, a) == Px(0, b)
    ensures a == b
  {
  }

  // ---------------------------------------------------------------- the tree

  /** The place of a table in the tree, by the indices that lead to it. */
  datatype Path = Root | Mid(i2: nat) | Low(i2: nat, i1: nat)

  function Child(s: Path, i: nat): Path
    requires !s.Low?
  {
    if s.Root? then Mid(i) else Low(s.i2, i)
  }

  type Tables = map<nat, seq<Pte>>

  /** Where each table is. */
  type Places = map<Path, nat>

  ghost predicate PlacesOk(tables: Tables, at: Places) {
    && (forall s :: s in at ==> at[s] in tables && |tables[at[s]]| == ENTRIES)
    && (forall s, t :: s in at && t in at && at[s] == at[t] ==> s == t)
    && (forall a: nat, b: nat :: Low(a, b) in at ==> Mid(a) in at)
    && (forall a: nat :: Mid(a) in at ==> a < ENTRIES / 2)
    && (forall a: nat, b: nat :: Low(a, b) in at ==> b < ENTRIES)
  }

  /** The entries of an upper table name exactly the tables below it. */
  ghost predicate DirsOk(tables: Tables, at: Places, s: Path)
    requires !s.Low?
  {
    s in at && at[s] in tables && |tables[at[s]]| == ENTRIES ==>
      && (forall i :: 0 <= i < ENTRIES ==> (tables[at[s]][i].v <==> Child(s, i) in at))
      && (forall i :: 0 <= i < ENTRIES && tables[at[s]][i].v ==> tables[at[s]][i] == Dir(at[Child(s, i)]))
  }

  ghost predicate FreeOk(tables: Tables, free: seq<nat>) {
    && (forall i :: 0 <= i < |free| ==> free[i] !in tables)
    && (forall i, j :: 0 <= i < j < |free| ==> free[i] != free[j])
  }

  ghost predicate TreeOk(root: nat, tables: Tables, at: Places) {
    && Root in at && at[Root] == root && PlacesOk(tables, at)
    && (forall p :: p in tables ==> p in at.Values)
    && (forall s: Path :: !s.Low? ==> DirsOk(tables, at, s))
  }

  /** What the tables say about a page. */
  ghost function Lookup(tables: Tables, at: Places, vpn: nat): Pte {
    var t := Low(Px(2, vpn), Px(1, vpn));
    if t in at && at[t] in tables && |tables[at[t]]| == ENTRIES then tables[at[t]][Px(0, vpn)] else EMPTY
  }

  ghost predicate SameMap(tables: Tables, at: Places, tables': Tables, at': Places) {
    forall v: nat :: v < MAXVPN ==> Lookup(tables', at', v) == Lookup(tables, at, v)
  }

  // ---------------------------------------------------------------- changes

  /** A zeroed table hung below entry i of the table at s. */
  function WithTable(tables: Tables, at: Places, s: Path, i: nat, p: nat): Tables
    requires s in at && at[s] in tables && i < |tables[at[s]]|
  {
    tables[at[s] := tables[at[s]][i := Dir(p)]][p := Zeros()]
  }

  lemma TableAdded(root: nat, tables: Tables, at: Places, s: Path, i: nat, p: nat)
    requires TreeOk(root, tables, at) && s in at && !s.Low? && i < ENTRIES && (s.Root? ==> i < ENTRIES / 2)
    requires p !in tables && !tables[at[s]][i].v
    ensures TreeOk(root, WithTable(tables, at, s, i, p), at[Child(s, i) := p])
    ensures SameMap(tables, at, WithTable(tables, at, s, i, p), at[Child(s, i) := p])
  {
    var tables', at' := WithTable(tables, at, s, i, p), at[Child(s, i) := p];
    assert Child(s, i) !in at;
    forall t: Path | !t.Low? ensures DirsOk(tables', at', t) {
      assert DirsOk(tables, at, t);
      if t == Child(s, i) {
        assert forall j :: 0 <= j < ENTRIES ==> Child(t, j) !in at;
      }
    }
    forall q | q in tables' ensures q in at'.Values {
      if q == p {
        assert at'[Child(s, i)] == p;
      } else {
        var t :| t in at && at[t] == q;
        assert at'[t] == q;
      }
    }
  }

  function SetEntry(tables: Tables, p: nat, i: nat, e: Pte): Tables
    requires p in tables && i < |tables[p]|
  {
    tables[p := tables[p][i := e]]
  }

  /** One entry of a lowest table changed. */
  ghost function WithEntry(tables: Tables, at: Places, vpn: nat, e: Pte): Tables
    requires var t := Low(Px(2, vpn), Px(1, vpn)); t in at && at[t] in tables && |tables[at[t]]| == ENTRIES
  {
    SetEntry(tables, at[Low(Px(2, vpn), Px(1, vpn))], Px(0, vpn), e)
  }

  lemma LookupAt(root: nat, tables: Tables, at: Places, vpn: nat)
    requires TreeOk(root, tables, at) && Low(Px(2, vpn), Px(1, vpn)) in at
    ensures var p := at[Low(Px(2, vpn), Px(1, vpn))];
            p in tables && |tables[p]| == ENTRIES && tables[p][Px(0, vpn)] == Lookup(tables, at, vpn)
  {
  }

  lemma EntryChanged(root: nat, tables: Tables, at: Places, vpn: nat, e: Pte)
    requires TreeOk(root, tables, at) && vpn < MAXVPN && Low(Px(2, vpn), Px(1, vpn)) in at
    ensures TreeOk(root, WithEntry(tables, at, vpn, e), at)
    ensures forall v: nat :: v < MAXVPN ==>
              Lookup(WithEntry(tables, at, vpn, e), at, v) == if v == vpn then e else Lookup(tables, at, v)
  {
    var tables' := WithEntry(tables, at, vpn, e);
    forall v: nat | v < MAXVPN ensures Lookup(tables', at, v) == if v == vpn then e else Lookup(tables, at, v) {
      if v != vpn && Px(2, v) == Px(2, vpn) && Px(1, v) == Px(1, vpn) && Px(0, v) == Px(0, vpn) {
        PxInjective(v, vpn);
      }
    }
    forall t: Path | !t.Low? ensures DirsOk(tables', at, t) {
      assert DirsOk(tables, at, t);
    }
  }

  // ---------------------------------------------------------------- the operations

  datatype MapResult = Mapped | NoMemory | Remap

  datatype UnmapResult = Unmapped | NoTable | NotMapped | NotLeaf

  /** A valid entry for a page, with the flags of perm. */
  predicate Maps(e: Pte, page: nat, perm: Pte) {
    e.v && e.page == page && e.r == perm.r && e.w == perm.w && e.x == perm.x && e.u == perm.u && e.cow == perm.cow
  }

  class AddressSpace {
    const root: nat
    var tables: Tables
    /** the free pages, for new tables */
    var free: seq<nat>
    /** the pages given to kfree by uvmunmap */
    var released: seq<nat>
    ghost var at: Places

    ghost predicate Valid()
      reads this
    {
      TreeOk(root, tables, at) && FreeOk(tables, free)
    }

    /** An empty page table, in the given page. */
    constructor (root: nat, free: seq<nat>)
      requires root !in free && forall i, j :: 0 <= i < j < |free| ==> free[i] != free[j]
      ensures Valid() && this.root == root && this.free == free && released == []
      ensures forall v: nat :: v < MAXVPN ==> Lookup(tables, at, v) == EMPTY
    {
      this.root, this.free, released := root, free, [];
      tables := map[root := Zeros()];
      at := map[Root := root];
      new;
      assert at[Root] == root;
    }

    /** The lowest table for a page, making the tables on the way if alloc. */
    method Walk(vpn: nat, alloc: bool) returns (r: Option<nat>)
      requires Valid() && vpn < MAXVPN
      modifies this`tables, this`free, this`at
      ensures Valid() && SameMap(old(tables), old(at), tables, at)
      ensures r.Some? <==> Low(Px(2, vpn), Px(1, vpn)) in at
      ensures r.Some? ==> r.value == at[Low(Px(2, vpn), Px(1, vpn))]
      ensures r.None? && alloc ==> free == []
      ensures !alloc ==> tables == old(tables) && free == old(free) && at == old(at)
      ensures Conserved(old(tables), old(free), tables, free)
    {
      var level, table := 2, root;
      ghost var s := Root;
      while level > 0
        invariant 0 <= level <= 2 && s in at && at[s] == table && s == Prefix(vpn, level)
        invariant Valid() && SameMap(old(tables), old(at), tables, at)
        invariant !alloc ==> tables == old(tables) && free == old(free) && at == old(at)
        invariant Conserved(old(tables), old(free), tables, free)
      {
        var i := Px(level, vpn);
        assert DirsOk(tables, at, s);
        if tables[table][i].v {
          table := tables[table][i].page;
        } else {
          if !alloc || |free| == 0 {
            return None;
          }
          ghost var was, places := tables, at;
          table := NewTable(table, i, s);
          SameMapTwice(old(tables), old(at), was, places, tables, at);
        }
        s := Child(s, i);
        level := level - 1;
      }
      r := Some(table);
    }

    /** kalloc and memset a table, and enter it. */
    method NewTable(table: nat, i: nat, ghost s: Path) returns (p: nat)
      requires Valid() && |free| > 0 && s in at && at[s] == table && !s.Low? && i < ENTRIES && (s.Root? ==> i < ENTRIES / 2)
      requires !tables[table][i].v
      modifies this`tables, this`free, this`at
      ensures Valid() && SameMap(old(tables), old(at), tables, at)
      ensures at == old(at)[Child(s, i) := p] && Conserved(old(tables), old(free), tables, free)
    {
      p := free[0];
      TableAdded(root, tables, at, s, i, p);
      tables := tables[table := tables[table][i := Dir(p)]][p := Zeros()];
      at := at[Child(s, i) := p];
      free := free[1..];
    }

    /** Map the pages from va on, size bytes in all, to the pages from page on.
        k: how many were mapped. */
    method Mappages(va: nat, size: nat, page: nat, perm: Pte) returns (r: MapResult, k: nat)
      requires Valid() && size > 0 && va + size <= MAXVPN * PGSIZE
      modifies this`tables, this`free, this`at
      ensures Valid() && Conserved(old(tables), old(free), tables, free)
      ensures MappedTo(old(tables), old(at), tables, at, va / PGSIZE, va / PGSIZE + k, page, perm)
      ensures var n := (va + size - 1) / PGSIZE - va / PGSIZE + 1; k <= n && (r.Mapped? <==> k == n)
      ensures r.Remap? ==> Lookup(old(tables), old(at), va / PGSIZE + k).v
      ensures r.NoMemory? ==> free == []
    {
      hide TreeOk, FreeOk, MappedTo, Conserved, Lookup;
      var first, last := va / PGSIZE, (va + size - 1) / PGSIZE;
      var a, pa := first, page;
      k := 0;
      assert MappedTo(tables, at, tables, at, first, first, page, perm) && Conserved(tables, free, tables, free) by {
        NothingMapped(tables, free, at, first, page, perm);
      }
      while true
        invariant first <= a <= last && a == first + k && pa == page + k && last < MAXVPN
        invariant Valid() && Conserved(old(tables), old(free), tables, free)
        invariant MappedTo(old(tables), old(at), tables, at, first, a, page, perm)
        decreases last - a
      {
        var a' := a + 1;
        r, k := MapOne(a, a', first, page, pa, perm, k, old(tables), old(at), old(free));
        if !r.Mapped? || a == last {
          break;
        }
        a, pa := a', pa + 1;
      }
    }

    /** One round of mappages. */
    method MapOne(a: nat, ghost a': nat, ghost first: nat, ghost page: nat, pa: nat, perm: Pte, k: nat, ghost tables0: Tables, ghost at0: Places, ghost free0: seq<nat>)
      returns (r: MapResult, k': nat)
      requires Valid() && first <= a < MAXVPN && a == first + k && pa == page + k && a' == a + 1
      requires MappedTo(tables0, at0, tables, at, first, a, page, perm) && Conserved(tables0, free0, tables, free)
      modifies this`tables, this`free, this`at
      ensures Valid() && Conserved(tables0, free0, tables, free)
      ensures MappedTo(tables0, at0, tables, at, first, if r.Mapped? then a' else a, page, perm)
      ensures k' == if r.Mapped? then k + 1 else k
      ensures r.Remap? ==> Lookup(tables0, at0, a).v
      ensures r.NoMemory? ==> free == []
    {
      k' := k;
      var t := Walk(a, true);
      if t.None? {
        return NoMemory, k';
      }
      LookupAt(root, tables, at, a);
      if tables[t.value][Px(0, a)].v {
        return Remap, k';
      }
      ghost var was := tables;
      var e := perm.(v := true, page := pa);
      EntryChanged(root, tables, at, a, e);
      tables := SetEntry(tables, t.value, Px(0, a), e);
      MappedNext(tables0, at0, was, at, tables, first, a, page, pa, perm);
      r, k' := Mapped, k + 1;
    }

    /** Remove npages mappings from vpn on, giving the pages to kfree if doFree.
        k: how many were removed. */
    method Uvmunmap(vpn: nat, npages: nat, doFree: bool) returns (r: UnmapResult, k: nat)
      requires Valid() && vpn + npages <= MAXVPN
      modifies this`tables, this`released, this`free, this`at
      ensures Valid() && at == old(at) && free == old(free) && tables.Keys == old(tables.Keys)
      ensures k <= npages && (r.Unmapped? <==> k == npages)
      ensures UnmappedUpto(old(tables), tables, at, vpn, vpn + k)
      ensures released == old(released) + if doFree then PagesOf(old(tables), at, vpn, k) else []
      ensures StoppedBy(r, old(tables), at, vpn + k)
    {
      hide TreeOk, FreeOk, UnmappedUpto, Lookup, PagesOf;
      k := 0;
      var a := vpn;
      r := Unmapped;
      NothingUnmapped(tables, at, vpn);
      while a < vpn + npages
        invariant a == vpn + k && k <= npages && Valid() && at == old(at) && free == old(free) && r.Unmapped?
        invariant tables.Keys == old(tables.Keys)
        invariant UnmappedUpto(old(tables), tables, at, vpn, a)
        invariant released == old(released) + if doFree then PagesOf(old(tables), at, vpn, k) else []
      {
        var a', k' := a + 1, k + 1;
        r := Unmap(a, a', doFree, vpn, k, k', old(tables), old(released));
        if !r.Unmapped? {
          break;
        }
        a, k := a', k';
      }
    }

    /** One round of uvmunmap. */
    method Unmap(a: nat, ghost a': nat, doFree: bool, ghost vpn: nat, ghost k: nat, ghost k': nat, ghost tables0: Tables, ghost released0: seq<nat>)
      returns (r: UnmapResult)
      requires Valid() && vpn <= a < MAXVPN && a == vpn + k && a' == a + 1 && k' == k + 1 && UnmappedUpto(tables0, tables, at, vpn, a)
      requires released == released0 + if doFree then PagesOf(tables0, at, vpn, k) else []
      modifies this`tables, this`released, this`free, this`at
      ensures Valid() && at == old(at) && free == old(free) && tables.Keys == old(tables.Keys)
      ensures UnmappedUpto(tables0, tables, at, vpn, if r.Unmapped? then a' else a)
      ensures released == released0 + if doFree then PagesOf(tables0, at, vpn, if r.Unmapped? then k' else k) else []
      ensures StoppedBy(r, tables0, at, a)
    {
      hide TreeOk, FreeOk, Lookup, UnmappedUpto, PagesOf;
      var t := Walk(a, false);
      if t.None? {
        return NoTable;
      }
      LookupAt(root, tables, at, a);
      var e := tables[t.value][Px(0, a)];
      NotYet(tables0, tables, at, vpn, a);
      if !e.v {
        return NotMapped;
      }
      if e.OnlyValid() {
        return NotLeaf;
      }
      EntryChanged(root, tables, at, a, EMPTY);
      tables := SetEntry(tables, t.value, Px(0, a), EMPTY);
      UnmappedNext(tables0, old(tables), tables, at, vpn, a, a');
      EntryFree(old(tables), tables, free, t.value);
      if doFree {
        released := released + [e.page];
        PagesNext(tables0, at, vpn, k, k', a, released0, e.page);
      }
      r := Unmapped;
    }

    /** Free the table at s and all tables below it. */
    method Freewalk(table: nat, ghost s: Path)
      requires Freeable(tables, at, free, s) && at[s] == table
      modifies this`tables, this`free, this`at
      ensures Freed(old(tables), old(at), old(free), tables, at, free, s)
      decreases Height(s)
    {
      var i := 0;
      NothingFreed(tables, at, free, s);
      while i < ENTRIES
        invariant i <= ENTRIES && FreedUpto(old(tables), old(at), old(free), tables, at, free, s, i)
      {
        EntryOf(old(tables), old(at), old(free), tables, at, free, s, i);
        var pte := tables[table][i];
        if pte.IsDir() {
          ghost var t1, a1, f1 := tables, at, free;
          Freewalk(pte.page, Child(s, i));
          ChildFreed(old(tables), old(at), old(free), t1, a1, f1, tables, at, free, s, i);
          tables := SetEntry(tables, table, i, EMPTY);
        } else if pte.v {
          assert false;
        }
        i := i + 1;
      }
      AllFreed(old(tables), old(at), old(free), tables, at, free, s);
      tables := tables - {table};
      free := free + [table];
      at := at - {s};
    }

    /** Free a user address space of sz bytes: the pages, then the tables. */
    method Uvmfree(sz: nat)
      requires Valid() && sz <= MAXVPN * PGSIZE
      requires forall v: nat :: v < MAXVPN ==>
                 if v < (sz + PGSIZE - 1) / PGSIZE then Lookup(tables, at, v).v && !Lookup(tables, at, v).OnlyValid() else !Lookup(tables, at, v).v
      modifies this
      ensures tables == map[] && released == old(released) + PagesOf(old(tables), old(at), 0, (sz + PGSIZE - 1) / PGSIZE)
      ensures forall p :: p in free <==> p in old(free) || p in old(tables)
      ensures forall i, j :: 0 <= i < j < |free| ==> free[i] != free[j]
    {
      hide Lookup, PlacesOk, DirsOk;
      var n := (sz + PGSIZE - 1) / PGSIZE;
      ghost var places := at;
      if sz > 0 {
        var r, k := Uvmunmap(0, n, true);
        AllUnmapped(old(tables), tables, at, n, r, k);
      }
      assert n == 0 ==> PagesOf(old(tables), old(at), 0, n) == [];
      NoLeaves(root, tables, at, free);
      ghost var t := tables;
      Freewalk(root, Root);
      NothingLeft(root, t, places, tables, at, free);
    }
  }

  // ---------------------------------------------------------------- freewalk

  function Height(s: Path): nat {
    if s.Root? then 2 else if s.Mid? then 1 else 0
  }

  predicate Below(s: Path, t: Path) {
    s.Root? || t == s || (s.Mid? && t.Low? && t.i2 == s.i2)
  }

  /** Table t lies below one of the first i entries of the table at s. */
  predicate Under(s: Path, i: nat, t: Path) {
    match s
    case Root => !t.Root? && t.i2 < i
    case Mid(a) => t.Low? && t.i2 == a && t.i1 < i
    case Low(_, _) => false
  }

  /** The part of the tree at s is in order and holds no leaf mapping. */
  ghost predicate Freeable(tables: Tables, at: Places, free: seq<nat>, s: Path) {
    && s in at && PlacesOk(tables, at) && FreeOk(tables, free)
    && (forall t: Path :: Below(s, t) && !t.Low? ==> DirsOk(tables, at, t))
    && (forall t: Path, j :: Below(s, t) && t.Low? && t in at && 0 <= j < ENTRIES ==> !tables[at[t]][j].v)
  }

  /** Page p holds one of the tables that gone picks. */
  ghost predicate Holds(at: Places, p: nat, t: Path) {
    t in at && at[t] == p
  }

  /** Exactly the tables below s are gone from the tree and have become free. */
  ghost predicate Freed(t0: Tables, a0: Places, f0: seq<nat>, t: Tables, a: Places, f: seq<nat>, s: Path) {
    && (forall u: Path :: u in a <==> u in a0 && !Below(s, u)) && (forall u: Path :: u in a ==> a[u] == a0[u])
    && (forall p: nat :: p in t ==> p in t0 && t[p] == t0[p])
    && (forall p: nat :: p in t0 ==> (p !in t <==> exists u :: Holds(a0, p, u) && Below(s, u)))
    && (forall p: nat :: p in f <==> p in f0 || (p in t0 && p !in t))
    && FreeOk(t, f)
  }

  /** The same for the first i entries of the table at s, which is still there. */
  ghost predicate FreedUpto(t0: Tables, a0: Places, f0: seq<nat>, t: Tables, a: Places, f: seq<nat>, s: Path, i: nat) {
    && s in a0 && a0[s] in t && |t[a0[s]]| == ENTRIES && a0[s] in t0 && |t0[a0[s]]| == ENTRIES
    && (forall u: Path :: u in a <==> u in a0 && !Under(s, i, u)) && (forall u: Path :: u in a ==> a[u] == a0[u])
    && (forall p: nat :: p in t ==> p in t0 && (p != a0[s] ==> t[p] == t0[p]))
    && (forall j :: i <= j < ENTRIES ==> t[a0[s]][j] == t0[a0[s]][j])
    && (forall p: nat :: p in t0 ==> (p !in t <==> exists u :: Holds(a0, p, u) && Under(s, i, u)))
    && (forall p: nat :: p in f <==> p in f0 || (p in t0 && p !in t))
    && FreeOk(t, f)
  }

  lemma NothingFreed(t: Tables, a: Places, f: seq<nat>, s: Path)
    requires Freeable(t, a, f, s)
    ensures FreedUpto(t, a, f, t, a, f, s, 0)
  {
  }

  /** The next entry is as it was: a table that can be freed, or nothing. */
  lemma EntryOf(t0: Tables, a0: Places, f0: seq<nat>, t: Tables, a: Places, f: seq<nat>, s: Path, i: nat)
    requires Freeable(t0, a0, f0, s) && FreedUpto(t0, a0, f0, t, a, f, s, i) && i < ENTRIES
    ensures t[a0[s]][i].v ==> !s.Low? && t[a0[s]][i].IsDir() && Child(s, i) in a && a[Child(s, i)] == t[a0[s]][i].page
    ensures t[a0[s]][i].v ==> Freeable(t, a, f, Child(s, i))
    ensures !t[a0[s]][i].v ==> FreedUpto(t0, a0, f0, t, a, f, s, i + 1)
  {
    assert Below(s, s);
    if !s.Low? {
      assert DirsOk(t0, a0, s);
    }
    if t[a0[s]][i].v {
      ChildFreeable(t0, a0, f0, t, a, f, s, i);
    } else {
      SkipEntry(t0, a0, f0, t, a, f, s, i);
    }
  }

  lemma ChildFreeable(t0: Tables, a0: Places, f0: seq<nat>, t: Tables, a: Places, f: seq<nat>, s: Path, i: nat)
    requires Freeable(t0, a0, f0, s) && FreedUpto(t0, a0, f0, t, a, f, s, i) && i < ENTRIES && !s.Low? && Child(s, i) in a
    ensures Freeable(t, a, f, Child(s, i))
  {
    forall u: Path | u in a ensures a[u] in t && |t[a[u]]| == ENTRIES {
      assert !exists w :: Holds(a0, a[u], w) && Under(s, i, w);
    }
    forall u: Path | Below(Child(s, i), u) ensures Below(s, u) && u != s && !Under(s, i, u) {
    }
  }

  lemma SkipEntry(t0: Tables, a0: Places, f0: seq<nat>, t: Tables, a: Places, f: seq<nat>, s: Path, i: nat)
    requires Freeable(t0, a0, f0, s) && FreedUpto(t0, a0, f0, t, a, f, s, i) && i < ENTRIES
    requires !s.Low? ==> Child(s, i) !in a0
    ensures FreedUpto(t0, a0, f0, t, a, f, s, i + 1)
  {
    forall u: Path | u in a0 && Under(s, i + 1, u) ensures Under(s, i, u) {
    }
  }

  lemma UnderNext(s: Path, i: nat, u: Path)
    requires !s.Low?
    ensures Under(s, i + 1, u) <==> Under(s, i, u) || Below(Child(s, i), u)
  {
  }

  lemma NotUnderItself(a0: Places, s: Path, i: nat)
    requires s in a0 && forall t, u :: t in a0 && u in a0 && a0[t] == a0[u] ==> t == u
    ensures !exists u :: Holds(a0, a0[s], u) && Under(s, i, u)
  {
  }

  lemma ChildPages(t0: Tables, a0: Places, f0: seq<nat>, t1: Tables, a1: Places, f1: seq<nat>, t2: Tables, a2: Places, f2: seq<nat>, s: Path, i: nat, p: nat)
    requires FreedUpto(t0, a0, f0, t1, a1, f1, s, i) && !s.Low? && Freed(t1, a1, f1, t2, a2, f2, Child(s, i)) && p in t0
    ensures p !in t2 <==> exists u :: Holds(a0, p, u) && Under(s, i + 1, u)
  {
    if p !in t2 {
      if p in t1 {
        var u :| Holds(a1, p, u) && Below(Child(s, i), u);
        assert Holds(a0, p, u) && Under(s, i + 1, u);
      } else {
        var u :| Holds(a0, p, u) && Under(s, i, u);
        assert Under(s, i + 1, u);
      }
    }
    if u :| Holds(a0, p, u) && Under(s, i + 1, u) {
      UnderNext(s, i, u);
      if p in t1 {
        assert Holds(a1, p, u);
      }
    }
  }

  /** A child has been freed and its entry is cleared. */
  lemma ChildFreed(t0: Tables, a0: Places, f0: seq<nat>, t1: Tables, a1: Places, f1: seq<nat>, t2: Tables, a2: Places, f2: seq<nat>, s: Path, i: nat)
    requires Freeable(t0, a0, f0, s) && FreedUpto(t0, a0, f0, t1, a1, f1, s, i) && i < ENTRIES && !s.Low? && Child(s, i) in a1
    requires Freed(t1, a1, f1, t2, a2, f2, Child(s, i))
    ensures a0[s] in t2 && |t2[a0[s]]| == ENTRIES
    ensures FreedUpto(t0, a0, f0, SetEntry(t2, a0[s], i, EMPTY), a2, f2, s, i + 1)
  {
    hide Under, Below, FreeOk, DirsOk;
    ChildPages(t0, a0, f0, t1, a1, f1, t2, a2, f2, s, i, a0[s]);
    NotUnderItself(a0, s, i + 1);
    var t3 := SetEntry(t2, a0[s], i, EMPTY);
    forall p: nat | p in t0 ensures p !in t3 <==> exists u :: Holds(a0, p, u) && Under(s, i + 1, u) {
      ChildPages(t0, a0, f0, t1, a1, f1, t2, a2, f2, s, i, p);
    }
    forall u: Path ensures Under(s, i + 1, u) <==> Under(s, i, u) || Below(Child(s, i), u) {
      UnderNext(s, i, u);
    }
    EntryFree(t2, t3, f2, a0[s]);
  }

  lemma LastPages(t0: Tables, a0: Places, f0: seq<nat>, t: Tables, a: Places, f: seq<nat>, s: Path, p: nat)
    requires Freeable(t0, a0, f0, s) && FreedUpto(t0, a0, f0, t, a, f, s, ENTRIES) && p in t0
    ensures p !in t - {a0[s]} <==> exists u :: Holds(a0, p, u) && Below(s, u)
  {
    if p == a0[s] {
      assert Holds(a0, p, s) && Below(s, s);
    } else if p !in t {
      var u :| Holds(a0, p, u) && Under(s, ENTRIES, u);
      assert Below(s, u);
    }
    if u :| Holds(a0, p, u) && Below(s, u) {
      assert u != s ==> Under(s, ENTRIES, u);
    }
  }

  lemma BelowSplit(t0: Tables, a0: Places, s: Path, u: Path)
    requires PlacesOk(t0, a0) && u in a0
    ensures Below(s, u) <==> u == s || Under(s, ENTRIES, u)
  {
  }

  lemma AllFreed(t0: Tables, a0: Places, f0: seq<nat>, t: Tables, a: Places, f: seq<nat>, s: Path)
    requires Freeable(t0, a0, f0, s) && FreedUpto(t0, a0, f0, t, a, f, s, ENTRIES)
    ensures Freed(t0, a0, f0, t - {a0[s]}, a - {s}, f + [a0[s]], s)
  {
    hide Under, Below, DirsOk;
    forall p: nat | p in t0 ensures p !in t - {a0[s]} <==> exists u :: Holds(a0, p, u) && Below(s, u) {
      LastPages(t0, a0, f0, t, a, f, s, p);
    }
    forall u: Path | u in a0 ensures Below(s, u) <==> u == s || Under(s, ENTRIES, u) {
      BelowSplit(t0, a0, s, u);
    }
  }

  /** With every page of the range mapped, uvmunmap reaches the end of it. */
  lemma AllUnmapped(t0: Tables, t: Tables, at: Places, n: nat, r: UnmapResult, k: nat)
    requires n <= MAXVPN && k <= n && (r.Unmapped? <==> k == n) && StoppedBy(r, t0, at, 0 + k) && UnmappedUpto(t0, t, at, 0, 0 + k)
    requires forall v: nat :: v < MAXVPN ==> if v < n then Lookup(t0, at, v).v && !Lookup(t0, at, v).OnlyValid() else !Lookup(t0, at, v).v
    ensures k == n && forall v: nat :: v < MAXVPN ==> !Lookup(t, at, v).v
  {
    assert k < n ==> Lookup(t0, at, k).v && !Lookup(t0, at, k).OnlyValid();
  }

  lemma NothingLeft(root: nat, t0: Tables, a0: Places, t: Tables, a: Places, f: seq<nat>)
    requires TreeOk(root, t0, a0) && forall p: nat :: p in t0 ==> (p !in t <==> exists u :: Holds(a0, p, u) && Below(Root, u))
    requires forall p: nat :: p in t ==> p in t0
    ensures t == map[]
  {
    forall p: nat | p in t0 ensures p !in t {
      var u :| u in a0 && a0[u] == p;
      assert Holds(a0, p, u) && Below(Root, u);
    }
  }

  /** A map without valid entries has no leaves in its tables. */
  lemma NoLeaves(root: nat, tables: Tables, at: Places, free: seq<nat>)
    requires TreeOk(root, tables, at) && FreeOk(tables, free) && forall v: nat :: v < MAXVPN ==> !Lookup(tables, at, v).v
    ensures Freeable(tables, at, free, Root)
  {
    forall t: Path, j | t.Low? && t in at && 0 <= j < ENTRIES ensures !tables[at[t]][j].v {
      var v := t.i2 * (ENTRIES * ENTRIES) + t.i1 * ENTRIES + j;
      assert Px(2, v) == t.i2 && Px(1, v) == t.i1 && Px(0, v) == j;
      assert !Lookup(tables, at, v).v;
    }
  }

  function Prefix(vpn: nat, level: nat): Path {
    if level == 2 then Root else if level == 1 then Mid(Px(2, vpn)) else Low(Px(2, vpn), Px(1, vpn))
  }

  /** Pages are tables or free, before and after. */
  ghost predicate Conserved(tables: Tables, free: seq<nat>, tables': Tables, free': seq<nat>) {
    && (forall p :: p in tables ==> p in tables')
    && (forall p :: p in tables' || p in free' <==> p in tables || p in free)
  }

  lemma SameMapTwice(t0: Tables, a0: Places, t1: Tables, a1: Places, t2: Tables, a2: Places)
    requires SameMap(t0, a0, t1, a1) && SameMap(t1, a1, t2, a2)
    ensures SameMap(t0, a0, t2, a2)
  {
  }

  /** The pages from first up to a are mapped, and were not before. */
  ghost predicate MappedTo(t0: Tables, a0: Places, t: Tables, at: Places, first: nat, a: nat, page: nat, perm: Pte) {
    && (forall v: nat :: v < MAXVPN ==>
          if first <= v < a then Maps(Lookup(t, at, v), page + (v - first), perm) else Lookup(t, at, v) == Lookup(t0, a0, v))
    && (forall v: nat :: first <= v < a ==> !Lookup(t0, a0, v).v)
  }

  lemma MappedNext(t0: Tables, a0: Places, t: Tables, at: Places, t': Tables, first: nat, a: nat, page: nat, pa: nat, perm: Pte)
    requires MappedTo(t0, a0, t, at, first, a, page, perm) && first <= a < MAXVPN && pa == page + (a - first)
    requires forall v: nat :: v < MAXVPN ==> if v == a then Maps(Lookup(t', at, v), pa, perm) else Lookup(t', at, v) == Lookup(t, at, v)
    requires !Lookup(t, at, a).v
    ensures MappedTo(t0, a0, t', at, first, a + 1, page, perm)
  {
  }

  lemma NothingMapped(t: Tables, free: seq<nat>, at: Places, first: nat, page: nat, perm: Pte)
    ensures MappedTo(t, at, t, at, first, first, page, perm) && Conserved(t, free, t, free)
  {
  }

  lemma NothingUnmapped(t: Tables, at: Places, vpn: nat)
    ensures UnmappedUpto(t, t, at, vpn, vpn) && PagesOf(t, at, vpn, 0) == []
  {
  }

  lemma NotYet(t0: Tables, t: Tables, at: Places, vpn: nat, a: nat)
    requires UnmappedUpto(t0, t, at, vpn, a) && a < MAXVPN
    ensures Lookup(t, at, a) == Lookup(t0, at, a)
  {
  }

  lemma UnmappedNext(t0: Tables, t: Tables, t': Tables, at: Places, vpn: nat, a: nat, a': nat)
    requires UnmappedUpto(t0, t, at, vpn, a) && vpn <= a < MAXVPN && a' == a + 1
    requires forall v: nat :: v < MAXVPN ==> Lookup(t', at, v) == if v == a then EMPTY else Lookup(t, at, v)
    requires Lookup(t, at, a).v && !Lookup(t, at, a).OnlyValid()
    ensures UnmappedUpto(t0, t', at, vpn, a')
  {
  }

  lemma PagesNext(t0: Tables, at: Places, vpn: nat, k: nat, k': nat, a: nat, pre: seq<nat>, page: nat)
    requires k' == k + 1 && a == vpn + k && Lookup(t0, at, a).page == page
    ensures pre + PagesOf(t0, at, vpn, k) + [page] == pre + PagesOf(t0, at, vpn, k')
  {
  }

  lemma EntryFree(t: Tables, t': Tables, free: seq<nat>, p: nat)
    requires FreeOk(t, free) && t'.Keys == t.Keys
    ensures FreeOk(t', free)
  {
  }

  /** Why uvmunmap stopped at page a; anything but Unmapped stops the machine. */
  ghost predicate StoppedBy(r: UnmapResult, t0: Tables, at: Places, a: nat) {
    match r
    case Unmapped => true
    case NoTable => Low(Px(2, a), Px(1, a)) !in at
    case NotMapped => !Lookup(t0, at, a).v
    case NotLeaf => Lookup(t0, at, a).OnlyValid()
  }

  ghost predicate UnmappedUpto(t0: Tables, t: Tables, at: Places, first: nat, a: nat) {
    && (forall v: nat :: v < MAXVPN ==> Lookup(t, at, v) == if first <= v < a then EMPTY else Lookup(t0, at, v))
    && (forall v: nat :: first <= v < a ==> Lookup(t0, at, v).v && !Lookup(t0, at, v).OnlyValid())
  }

  /** The pages that k entries from vpn on name. */
  ghost function PagesOf(tables: Tables, at: Places, vpn: nat, k: nat): (r: seq<nat>)
    ensures |r| == k
  {
    if k == 0 then [] else PagesOf(tables, at, vpn, k - 1) + [Lookup(tables, at, vpn + k - 1).page]
  }
}
