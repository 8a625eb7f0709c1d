/** kernel/kalloc.c and the copy-on-write memory of kernel/vm.c as they run on one
    processor, byte by byte and page by page: what each call changes of what each address
    space reads, and what it leaves alone. */
module CowMemory {
  import opened CowProtocol

  const MAXVA: nat := 0x40_0000_0000

  /** The physical pages, krefs.count, kmem.freelist, and the leaf entries of all page
      tables. */
  datatype Mem = Mem(pages: seq<seq<Byte>>, count: seq<nat>, free: seq<nat>, pt: map<Key, Pte>)

  // ---------------------------------------------------------------- invariant

  function Owners(pt: map<Key, Pte>, pg: nat): set<Key> {
    set k | k in pt && pt[k].page == pg
  }

  function One(b: bool): nat {
    if b then 1 else 0
  }

  ghost predicate Sized(m: Mem) {
    |m.pages| == |m.count| && forall i :: 0 <= i < |m.pages| ==> |m.pages[i]| == PGSIZE
  }

  /** The free list holds each page without references once. */
  ghost predicate FreeOk(count: seq<nat>, free: seq<nat>) {
    && (forall i :: 0 <= i < |free| ==> free[i] < |count| && count[free[i]] == 0)
    && (forall i, j :: 0 <= i < j < |free| ==> free[i] != free[j])
    && (forall pg: nat :: pg < |count| && count[pg] == 0 ==> pg in free)
  }

  /** A page has as many references as entries that name it, and one more while the kernel
      holds it. */
  ghost predicate CountsOk(count: seq<nat>, pt: map<Key, Pte>, held: set<nat>) {
    && (forall pg :: pg in held ==> pg < |count|)
    && (forall pg: nat :: pg < |count| ==> count[pg] == |Owners(pt, pg)| + One(pg in held))
  }

  /** A user page is writable or copy-on-write, and writable only without other owners. */
  predicate EntryOk(count: seq<nat>, e: Pte) {
    && e.page < |count| && (e.u ==> e.w != e.cow)
    && (e.UserWritable() ==> count[e.page] == 1)
  }

  ghost predicate EntriesOk(count: seq<nat>, pt: map<Key, Pte>) {
    forall k :: k in pt ==> EntryOk(count, pt[k])
  }

  ghost predicate Ok(m: Mem, held: set<nat>) {
    Sized(m) && FreeOk(m.count, m.free) && CountsOk(m.count, m.pt, held) && EntriesOk(m.count, m.pt)
  }

  /** Entry k means the same in both: it is there or not, a user page or not, and has the
      same contents. */
  predicate Same(m: Mem, m': Mem, k: Key) {
    && (k in m.pt <==> k in m'.pt)
    && (k in m.pt && k in m'.pt ==>
          && m'.pt[k].u == m.pt[k].u && m.pt[k].page < |m.pages| && m'.pt[k].page < |m'.pages|
          && m'.pages[m'.pt[k].page] == m.pages[m.pt[k].page])
  }

  ghost predicate SameAll(m: Mem, m': Mem) {
    forall k :: Same(m, m', k)
  }

  // ---------------------------------------------------------------- owners

  lemma OwnersAdd(pt: map<Key, Pte>, k: Key, e: Pte, pg: nat)
    requires k !in pt
    ensures |Owners(pt[k := e], pg)| == |Owners(pt, pg)| + One(e.page == pg)
  {
    if e.page == pg {
      assert Owners(pt[k := e], pg) == Owners(pt, pg) + {k};
    } else {
      assert Owners(pt[k := e], pg) == Owners(pt, pg);
    }
  }

  lemma OwnersDrop(pt: map<Key, Pte>, k: Key, pg: nat)
    requires k in pt
    ensures |Owners(pt - {k}, pg)| + One(pt[k].page == pg) == |Owners(pt, pg)|
  {
    if pt[k].page == pg {
      assert Owners(pt - {k}, pg) == Owners(pt, pg) - {k};
      assert k in Owners(pt, pg);
    } else {
      assert Owners(pt - {k}, pg) == Owners(pt, pg);
    }
  }

  lemma OwnersSet(pt: map<Key, Pte>, k: Key, e: Pte, pg: nat)
    requires k in pt
    ensures |Owners(pt[k := e], pg)| + One(pt[k].page == pg) == |Owners(pt, pg)| + One(e.page == pg)
  {
    OwnersDrop(pt, k, pg);
    OwnersAdd(pt - {k}, k, e, pg);
    assert (pt - {k})[k := e] == pt[k := e];
  }

  /** The only reference to a page is that of the entry k. */
  lemma SoleOwner(m: Mem, held: set<nat>, k: Key, l: Key)
    requires Ok(m, held) && k in m.pt && m.count[m.pt[k].page] == 1 && l in m.pt && l != k
    ensures m.pt[l].page != m.pt[k].page
  {
    var pg := m.pt[k].page;
    assert m.count[pg] == |Owners(m.pt, pg)| + One(pg in held);
    assert k in Owners(m.pt, pg);
    if m.pt[l].page == pg {
      assert {k, l} <= Owners(m.pt, pg);
      SubsetSize({k, l}, Owners(m.pt, pg));
    }
  }

  lemma SubsetSize<T>(a: set<T>, b: set<T>)
    requires a <= b
    ensures |a| <= |b|
  {
    assert b == a + (b - a);
  }

  /** The kernel's own page has no owner. */
  lemma HeldUnmapped(m: Mem, held: set<nat>, pg: nat, k: Key)
    requires Ok(m, held) && pg in held && m.count[pg] == 1 && k in m.pt
    ensures m.pt[k].page != pg
  {
    assert m.count[pg] == |Owners(m.pt, pg)| + 1;
    assert Owners(m.pt, pg) == {};
    assert m.pt[k].page == pg ==> k in Owners(m.pt, pg);
  }

  lemma OwnedIsCounted(m: Mem, held: set<nat>, k: Key)
    requires Ok(m, held) && k in m.pt
    ensures m.pt[k].page < |m.count| && m.count[m.pt[k].page] >= 1
  {
    assert EntryOk(m.count, m.pt[k]);
    assert k in Owners(m.pt, m.pt[k].page);
  }

  // ---------------------------------------------------------------- the allocator, on values

  /** kfree: one reference less, and without references the page is filled with junk and
      put on the free list. */
  function Freed(m: Mem, pg: nat): Mem
    requires pg < |m.count| && pg < |m.pages| && m.count[pg] >= 1
  {
    if m.count[pg] > 1 then m.(count := m.count[pg := m.count[pg] - 1])
    else m.(count := m.count[pg := 0], pages := m.pages[pg := Filled(1)], free := [pg] + m.free)
  }

  function Taken(m: Mem): Mem
    requires m.free != [] && m.free[0] < |m.count| && m.free[0] < |m.pages|
  {
    m.(free := m.free[1..], count := m.count[m.free[0] := 1], pages := m.pages[m.free[0] := Filled(5)])
  }

  lemma FreeGrows(count: seq<nat>, free: seq<nat>, pg: nat)
    requires FreeOk(count, free) && pg < |count| && count[pg] >= 1
    ensures FreeOk(count[pg := 0], [pg] + free)
  {
    var free' := [pg] + free;
    forall x: nat | x < |count| && count[pg := 0][x] == 0 ensures x in free' {
      if x == pg {
        assert free'[0] == pg;
      } else {
        assert x in free;
      }
    }
  }

  lemma FreeShrinks(count: seq<nat>, free: seq<nat>)
    requires FreeOk(count, free) && free != []
    ensures FreeOk(count[free[0] := 1], free[1..])
  {
    forall x: nat | x < |count| && count[free[0] := 1][x] == 0 ensures x in free[1..] {
      assert x in free;
      var i :| 0 <= i < |free| && free[i] == x;
      assert free[1..][i - 1] == x;
    }
  }

  lemma FreeStays(count: seq<nat>, free: seq<nat>, pg: nat, c: nat)
    requires FreeOk(count, free) && pg < |count| && count[pg] >= 1 && c >= 1
    ensures FreeOk(count[pg := c], free)
  {
  }

  lemma TakenOk(m: Mem, held: set<nat>)
    requires Ok(m, held) && m.free != []
    ensures m.free[0] < |m.count| == |m.pages| && m.free[0] !in held && m.count[m.free[0]] == 0
    ensures Ok(Taken(m), held + {m.free[0]}) && SameAll(m, Taken(m))
  {
    var pg, m' := m.free[0], Taken(m);
    assert m.count[pg] == 0;
    assert pg !in held && Owners(m.pt, pg) == {};
    FreeShrinks(m.count, m.free);
    forall k | k in m.pt ensures m.pt[k].page != pg && EntryOk(m'.count, m.pt[k]) {
      assert EntryOk(m.count, m.pt[k]);
      assert m.pt[k].page == pg ==> k in Owners(m.pt, pg);
    }
  }

  /** Unmapping an entry: kfree, then the entry is cleared. */
  function Unmapped(m: Mem, k: Key): Mem
    requires k in m.pt && m.pt[k].page < |m.count| && m.pt[k].page < |m.pages| && m.count[m.pt[k].page] >= 1
  {
    Freed(m, m.pt[k].page).(pt := m.pt - {k})
  }

  lemma UnmappedCounts(m: Mem, held: set<nat>, k: Key)
    requires Ok(m, held) && k in m.pt && m.pt[k].page < |m.count| && m.count[m.pt[k].page] >= 1
    ensures CountsOk(m.count[m.pt[k].page := m.count[m.pt[k].page] - 1], m.pt - {k}, held)
  {
    var pg := m.pt[k].page;
    forall x: nat | x < |m.count|
      ensures m.count[pg := m.count[pg] - 1][x] == |Owners(m.pt - {k}, x)| + One(x in held)
    {
      OwnersDrop(m.pt, k, x);
    }
  }

  lemma UnmappedEntries(m: Mem, held: set<nat>, k: Key)
    requires Ok(m, held) && k in m.pt && m.pt[k].page < |m.count| && m.count[m.pt[k].page] >= 1
    ensures EntriesOk(m.count[m.pt[k].page := m.count[m.pt[k].page] - 1], m.pt - {k})
  {
    var pg := m.pt[k].page;
    forall l | l in m.pt - {k} ensures EntryOk(m.count[pg := m.count[pg] - 1], m.pt[l]) {
      assert EntryOk(m.count, m.pt[l]);
      if m.pt[l].page == pg && m.count[pg] == 1 {
        SoleOwner(m, held, k, l);
      }
    }
  }

  lemma UnmappedOk(m: Mem, held: set<nat>, k: Key)
    requires Ok(m, held) && k in m.pt
    ensures m.pt[k].page < |m.count| == |m.pages| && m.count[m.pt[k].page] >= 1
    ensures Ok(Unmapped(m, k), held) && Unmapped(m, k).pt == m.pt - {k} && forall l :: l != k ==> Same(m, Unmapped(m, k), l)
  {
    OwnedIsCounted(m, held, k);
    var pg, m' := m.pt[k].page, Unmapped(m, k);
    UnmappedCounts(m, held, k);
    UnmappedEntries(m, held, k);
    if m.count[pg] == 1 {
      FreeGrows(m.count, m.free, pg);
      forall l | l in m.pt && l != k ensures m.pt[l].page != pg {
        SoleOwner(m, held, k, l);
      }
    } else {
      FreeStays(m.count, m.free, pg, m.count[pg] - 1);
    }
    forall l | l != k ensures Same(m, m', l) {
      if l in m.pt {
        assert EntryOk(m.count, m.pt[l]);
      }
    }
  }

  // ---------------------------------------------------------------- fork, on values

  /** The entry that uvmcopy leaves in the parent and gives to the child. */
  function Shared(e: Pte): Pte {
    if e.UserWritable() then e.(w := false, cow := true) else e
  }

  function Marked(m: Mem, k: Key): Mem
    requires k in m.pt
  {
    m.(pt := m.pt[k := Shared(m.pt[k])])
  }

  lemma MarkedOk(m: Mem, held: set<nat>, k: Key)
    requires Ok(m, held) && k in m.pt
    ensures Ok(Marked(m, k), held) && SameAll(m, Marked(m, k)) && m.pt[k].page < |m.count|
  {
    var m' := Marked(m, k);
    forall x: nat | x < |m.count| ensures m.count[x] == |Owners(m'.pt, x)| + One(x in held) {
      OwnersSet(m.pt, k, Shared(m.pt[k]), x);
    }
    forall l | l in m.pt ensures EntryOk(m.count, m'.pt[l]) && m.pt[l].page < |m.pages| {
      assert EntryOk(m.count, m.pt[l]);
    }
  }

  /** The child's entry is mapped and counted. */
  function SharedWith(m: Mem, k: Key, c: Key): Mem
    requires k in m.pt && m.pt[k].page < |m.count|
  {
    m.(pt := m.pt[c := m.pt[k]], count := m.count[m.pt[k].page := m.count[m.pt[k].page] + 1])
  }

  lemma SharedWithOk(m: Mem, held: set<nat>, k: Key, c: Key)
    requires Ok(m, held) && k in m.pt && c !in m.pt && !m.pt[k].UserWritable() && m.pt[k].page < |m.count|
    ensures Ok(SharedWith(m, k, c), held) && forall l :: l != c ==> Same(m, SharedWith(m, k, c), l)
  {
    var e, m' := m.pt[k], SharedWith(m, k, c);
    OwnedIsCounted(m, held, k);
    FreeStays(m.count, m.free, e.page, m.count[e.page] + 1);
    forall x: nat | x < |m.count| ensures m'.count[x] == |Owners(m'.pt, x)| + One(x in held) {
      OwnersAdd(m.pt, c, e, x);
    }
    forall l | l in m'.pt ensures EntryOk(m'.count, m'.pt[l]) && m'.pt[l].page < |m.pages| {
      if l != c {
        SharedStays(m, held, k, l);
      } else {
        assert EntryOk(m.count, e);
      }
    }
  }

  /** Another entry for a page that no user can write. */
  lemma SharedStays(m: Mem, held: set<nat>, k: Key, l: Key)
    requires Ok(m, held) && k in m.pt && l in m.pt && !m.pt[k].UserWritable() && m.pt[k].page < |m.count|
    ensures EntryOk(m.count[m.pt[k].page := m.count[m.pt[k].page] + 1], m.pt[l])
  {
    assert EntryOk(m.count, m.pt[l]) && EntryOk(m.count, m.pt[k]);
    if m.pt[l].UserWritable() && l != k {
      SoleOwner(m, held, l, k);
    }
  }

  // ---------------------------------------------------------------- cowalloc, on values

  predicate CowPage(m: Mem, k: Key) {
    k in m.pt && m.pt[k].u && m.pt[k].cow
  }

  /** The entry becomes writable where it is. */
  function Upgraded(m: Mem, k: Key): Mem
    requires k in m.pt
  {
    m.(pt := m.pt[k := m.pt[k].(w := true, cow := false)])
  }

  lemma UpgradedOk(m: Mem, held: set<nat>, k: Key)
    requires Ok(m, held) && k in m.pt && m.pt[k].page < |m.count| && m.count[m.pt[k].page] == 1
    ensures Ok(Upgraded(m, k), held) && SameAll(m, Upgraded(m, k))
  {
    var m' := Upgraded(m, k);
    forall x: nat | x < |m.count| ensures m.count[x] == |Owners(m'.pt, x)| + One(x in held) {
      OwnersSet(m.pt, k, m'.pt[k], x);
    }
    forall l | l in m.pt ensures EntryOk(m.count, m'.pt[l]) && m.pt[l].page < |m.pages| {
      assert EntryOk(m.count, m.pt[l]);
    }
  }

  /** The contents move to page pg, which the kernel holds, and the entry with them. */
  function Copied(m: Mem, k: Key, pg: nat): Mem
    requires k in m.pt && m.pt[k].page < |m.pages| && pg < |m.pages|
  {
    m.(pages := m.pages[pg := m.pages[m.pt[k].page]], pt := m.pt[k := m.pt[k].(page := pg, w := true, cow := false)])
  }

  /** As Copied, with the old page given back. */
  function Moved(m: Mem, k: Key, pg: nat): Mem
    requires k in m.pt && m.pt[k].page < |m.pages| && pg < |m.pages| && m.pt[k].page < |m.count| && m.count[m.pt[k].page] >= 1
  {
    Freed(Copied(m, k, pg), m.pt[k].page)
  }

  lemma MovedCounts(m: Mem, held: set<nat>, k: Key, pg: nat)
    requires Ok(m, held) && k in m.pt && pg in held && m.pt[k].page < |m.count| && m.count[m.pt[k].page] > 1
    ensures CountsOk(m.count[m.pt[k].page := m.count[m.pt[k].page] - 1], m.pt[k := m.pt[k].(page := pg, w := true, cow := false)], held - {pg})
  {
    var old_, e := m.pt[k].page, m.pt[k].(page := pg, w := true, cow := false);
    forall x: nat | x < |m.count|
      ensures m.count[old_ := m.count[old_] - 1][x] == |Owners(m.pt[k := e], x)| + One(x in held - {pg})
    {
      OwnersSet(m.pt, k, e, x);
    }
  }

  lemma MovedOk(m: Mem, held: set<nat>, k: Key, pg: nat)
    requires Ok(m, held) && k in m.pt && pg in held && m.pt[k].page < |m.count| && m.count[m.pt[k].page] > 1
    requires pg < |m.count| && m.count[pg] == 1
    ensures |m.pages| == |m.count| && Ok(Moved(m, k, pg), held - {pg}) && SameAll(m, Moved(m, k, pg))
  {
    var from, m' := m.pt[k].page, Moved(m, k, pg);
    MovedCounts(m, held, k, pg);
    FreeStays(m.count, m.free, from, m.count[from] - 1);
    forall l | l in m.pt
      ensures EntryOk(m'.count, m'.pt[l]) && m.pt[l].page != pg && m.pt[l].page < |m.pages|
    {
      HeldUnmapped(m, held, pg, l);
      assert EntryOk(m.count, m.pt[l]);
    }
  }

  // ---------------------------------------------------------------- new pages, on values

  function Mapped(m: Mem, k: Key, pg: nat): Mem {
    m.(pt := m.pt[k := Pte(pg, true, true, true, true, false)])
  }

  lemma MappedOk(m: Mem, held: set<nat>, k: Key, pg: nat)
    requires Ok(m, held) && k !in m.pt && pg in held && pg < |m.count| && m.count[pg] == 1
    ensures Ok(Mapped(m, k, pg), held - {pg}) && forall l :: l != k ==> Same(m, Mapped(m, k, pg), l)
  {
    var m' := Mapped(m, k, pg);
    forall x: nat | x < |m.count| ensures m.count[x] == |Owners(m'.pt, x)| + One(x in held - {pg}) {
      OwnersAdd(m.pt, k, m'.pt[k], x);
    }
    forall l | l in m.pt ensures EntryOk(m.count, m.pt[l]) && m.pt[l].page < |m.pages| {
    }
  }

  /** A page the kernel holds may be filled, and given back. */
  lemma FilledOk(m: Mem, held: set<nat>, pg: nat, page: seq<Byte>)
    requires Ok(m, held) && pg in held && pg < |m.count| && m.count[pg] == 1 && |page| == PGSIZE
    ensures |m.pages| == |m.count| && Ok(m.(pages := m.pages[pg := page]), held) && SameAll(m, m.(pages := m.pages[pg := page]))
  {
    forall k | k in m.pt ensures m.pt[k].page != pg && m.pt[k].page < |m.pages| {
      HeldUnmapped(m, held, pg, k);
      assert EntryOk(m.count, m.pt[k]);
    }
  }

  lemma ReturnedOk(m: Mem, held: set<nat>, pg: nat)
    requires Ok(m, held) && pg in held && pg < |m.count| && m.count[pg] == 1
    ensures |m.pages| == |m.count| && Ok(Freed(m, pg), held - {pg}) && SameAll(m, Freed(m, pg))
  {
    var m' := Freed(m, pg);
    FreeGrows(m.count, m.free, pg);
    forall k | k in m.pt ensures m.pt[k].page != pg && EntryOk(m'.count, m.pt[k]) {
      HeldUnmapped(m, held, pg, k);
      assert EntryOk(m.count, m.pt[k]);
    }
  }

  function Stored(m: Mem, k: Key, page: seq<Byte>): Mem
    requires k in m.pt && m.pt[k].page < |m.pages|
  {
    m.(pages := m.pages[m.pt[k].page := page])
  }

  /** A store to a page that one user entry can write. */
  lemma StoredOk(m: Mem, held: set<nat>, k: Key, page: seq<Byte>)
    requires Ok(m, held) && k in m.pt && m.pt[k].UserWritable() && |page| == PGSIZE
    ensures m.pt[k].page < |m.pages| && Ok(Stored(m, k, page), held)
    ensures forall l :: l != k ==> Same(m, Stored(m, k, page), l)
  {
    assert EntryOk(m.count, m.pt[k]);
    forall l | l in m.pt && l != k ensures m.pt[l].page != m.pt[k].page && m.pt[l].page < |m.pages| {
      SoleOwner(m, held, k, l);
      assert EntryOk(m.count, m.pt[l]);
    }
  }

  // ---------------------------------------------------------------- addresses

  function PageKey(t: nat, va: nat): Key {
    Key(t, va / PGSIZE)
  }

  /** A user address that is mapped. */
  predicate Readable(m: Mem, t: nat, va: nat) {
    var k := PageKey(t, va);
    k in m.pt && m.pt[k].u && m.pt[k].page < |m.pages| && |m.pages[m.pt[k].page]| == PGSIZE
  }

  /** What address space t reads at va. */
  function ByteAt(m: Mem, t: nat, va: nat): Byte
    requires Readable(m, t, va)
  {
    m.pages[m.pt[PageKey(t, va)].page][va % PGSIZE]
  }

  predicate SameByte(m: Mem, m': Mem, t: nat, va: nat) {
    && (Readable(m, t, va) <==> Readable(m', t, va))
    && (Readable(m, t, va) && Readable(m', t, va) ==> ByteAt(m', t, va) == ByteAt(m, t, va))
  }

  lemma SameBytes(m: Mem, m': Mem, t: nat, va: nat)
    requires Same(m, m', PageKey(t, va))
    ensures SameByte(m, m', t, va)
  {
  }

  lemma SameTwice(m: Mem, m': Mem, m'': Mem, k: Key)
    requires Same(m, m', k) && Same(m', m'', k)
    ensures Same(m, m'', k)
  {
  }

  /** The addresses of a piece of a page. */
  lemma PieceAddresses(va: nat, n: nat, a: nat)
    requires va % PGSIZE + n <= PGSIZE
    ensures va <= a < va + n <==> a / PGSIZE == va / PGSIZE && va % PGSIZE <= a % PGSIZE < va % PGSIZE + n
    ensures va <= a < va + n ==> a - va == a % PGSIZE - va % PGSIZE
  {
  }

  function Patched(page: seq<Byte>, off: nat, bytes: seq<Byte>): (r: seq<Byte>)
    requires off + |bytes| <= |page|
    ensures |r| == |page|
    ensures forall i :: 0 <= i < |page| ==> r[i] == if off <= i < off + |bytes| then bytes[i - off] else page[i]
  {
    page[..off] + bytes + page[off + |bytes|..]
  }

  /** bytes were written at va, inside one page, of a writable entry. */
  function PieceWritten(m: Mem, k: Key, off: nat, bytes: seq<Byte>): Mem
    requires k in m.pt && m.pt[k].page < |m.pages| && off + |bytes| <= |m.pages[m.pt[k].page]|
  {
    Stored(m, k, Patched(m.pages[m.pt[k].page], off, bytes))
  }

  lemma PieceWrittenOk(m: Mem, held: set<nat>, k: Key, off: nat, bytes: seq<Byte>)
    requires Ok(m, held) && k in m.pt && m.pt[k].UserWritable() && off + |bytes| <= PGSIZE
    ensures m.pt[k].page < |m.pages| && |m.pages[m.pt[k].page]| == PGSIZE
    ensures Ok(PieceWritten(m, k, off, bytes), held) && forall l :: l != k ==> Same(m, PieceWritten(m, k, off, bytes), l)
  {
    assert EntryOk(m.count, m.pt[k]);
    StoredOk(m, held, k, Patched(m.pages[m.pt[k].page], off, bytes));
  }

  /** Which bytes of which address space a piece changes. */
  lemma PieceBytes(m: Mem, t: nat, va: nat, off: nat, bytes: seq<Byte>, m': Mem, x: nat, a: nat)
    requires off == va % PGSIZE && off + |bytes| <= PGSIZE && Readable(m, t, va) && m' == PieceWritten(m, PageKey(t, va), off, bytes)
    requires forall l :: l != PageKey(t, va) ==> Same(m, m', l)
    ensures x == t && va <= a < va + |bytes| ==> Readable(m', x, a) && ByteAt(m', x, a) == bytes[a - va]
    ensures !(x == t && va <= a < va + |bytes|) ==> SameByte(m, m', x, a)
  {
    PieceAddresses(va, |bytes|, a);
    if PageKey(x, a) != PageKey(t, va) {
      SameBytes(m, m', x, a);
    }
  }

  /** The number of pages that hold sz bytes. */
  function Pages(sz: nat): nat {
    (sz + PGSIZE - 1) / PGSIZE
  }

  predicate Between(t: nat, lo: nat, hi: nat, k: Key) {
    k.pid == t && lo <= k.vpn < hi
  }

  /** Entry k of m and entry l of m' read the same. */
  predicate SameAs(m: Mem, k: Key, m': Mem, l: Key) {
    && k in m.pt && l in m'.pt && m'.pt[l].u == m.pt[k].u
    && m.pt[k].page < |m.pages| && m'.pt[l].page < |m'.pages|
    && m'.pages[m'.pt[l].page] == m.pages[m.pt[k].page]
  }

  /** A zeroed page that the user may write. */
  predicate NewPage(m: Mem, k: Key) {
    k in m.pt && m.pt[k].UserWritable() && m.pt[k].page < |m.pages| && m.pages[m.pt[k].page] == Filled(0)
  }

  // ---------------------------------------------------------------- the kernel

  class Kernel {
    var m: Mem
    /** pages that a routine has allocated and not yet mapped or freed */
    ghost var held: set<nat>

    ghost predicate Valid()
      reads this
    {
      Ok(m, held)
    }

    /** kinit: freerange gives every page one reference and frees it. */
    constructor (pages: seq<seq<Byte>>)
      requires forall i :: 0 <= i < |pages| ==> |pages[i]| == PGSIZE
      ensures Valid() && m.pt == map[] && held == {} && |m.free| == |m.count| == |pages|
    {
      m, held := Mem(pages, seq(|pages|, _ => 0), [], map[]), {};
      new;
      var p := 0;
      while p < |pages|
        invariant p <= |pages| == |m.count| && Sized(m) && m.pt == map[] && held == {} && |m.free| == p
        invariant (forall i :: 0 <= i < |m.count| ==> m.count[i] == 0) && forall i :: 0 <= i < p ==> m.free[i] == p - 1 - i
      {
        m := m.(count := m.count[p := 1]);
        Kfree(p);
        p := p + 1;
      }
      forall pg: nat | pg < |m.count| ensures pg in m.free && Owners(m.pt, pg) == {} {
        assert m.free[p - 1 - pg] == pg;
      }
    }

    /** kalloc: the first free page, with one reference, filled with junk. */
    method Kalloc() returns (r: Option<nat>)
      requires Valid()
      modifies this
      ensures Valid() && SameAll(old(m), m) && (r.None? <==> old(m).free == [])
      ensures r.None? ==> m == old(m) && held == old(held)
      ensures r.Some? ==> old(m).free != [] && r.value == old(m).free[0] && r.value < |old(m).count| == |old(m).pages| && old(m).count[r.value] == 0
      ensures r.Some? ==> m == Taken(old(m)) && held == old(held) + {r.value} && r.value !in old(held)
    {
      if m.free == [] {
        SameItself(m, held);
        return None;
      }
      TakenOk(m, held);
      var pg := m.free[0];
      m := m.(free := m.free[1..]);
      assert m.count[pg] == 0;
      m := m.(count := m.count[pg := 1]);
      m := m.(pages := m.pages[pg := Filled(5)]);
      held := held + {pg};
      r := Some(pg);
    }

    /** kfree, of a page with a reference. */
    method Kfree(pg: nat)
      requires pg < |m.count| == |m.pages| && m.count[pg] >= 1
      modifies this`m
      ensures m == Freed(old(m), pg)
    {
      m := m.(count := m.count[pg := m.count[pg] - 1]);
      if m.count[pg] > 0 {
        return;
      }
      m := m.(pages := m.pages[pg := Filled(1)]);
      m := m.(free := [pg] + m.free);
    }

    /** krefinc, of a page with a reference. */
    method Krefinc(pg: nat)
      requires pg < |m.count| && m.count[pg] >= 1
      modifies this`m
      ensures m == old(m).(count := old(m).count[pg := old(m).count[pg] + 1])
    {
      m := m.(count := m.count[pg := m.count[pg] + 1]);
    }

    /** uvmunmap with do_free: the pages first to first + n of t are gone, and nobody else
        reads anything different. */
    method Uvmunmap(t: nat, first: nat, n: nat)
      requires Valid() && forall v :: first <= v < first + n ==> Key(t, v) in m.pt
      modifies this`m
      ensures Valid() && forall k :: if Between(t, first, first + n, k) then k !in m.pt else Same(old(m), m, k)
    {
      hide Ok, Same;
      SameItself(m, held);
      var a := first;
      while a < first + n
        invariant first <= a <= first + n && Valid()
        invariant forall k :: if Between(t, first, a, k) then k !in m.pt else Same(old(m), m, k)
        invariant forall v :: a <= v < first + n ==> Key(t, v) in m.pt
      {
        UnmapOne(t, first, a, old(m));
        a := a + 1;
      }
    }

    method UnmapOne(t: nat, first: nat, a: nat, ghost m0: Mem)
      requires Valid() && first <= a && Key(t, a) in m.pt
      requires forall k :: if Between(t, first, a, k) then k !in m.pt else Same(m0, m, k)
      modifies this`m
      ensures Valid() && m.pt == old(m).pt - {Key(t, a)}
      ensures forall k :: if Between(t, first, a + 1, k) then k !in m.pt else Same(m0, m, k)
    {
      hide Ok, Same;
      var k := Key(t, a);
      UnmappedOk(m, held, k);
      Kfree(m.pt[k].page);
      m := m.(pt := m.pt - {k});
      forall l ensures if Between(t, first, a + 1, l) then l !in m.pt else Same(m0, m, l) {
        if !Between(t, first, a + 1, l) {
          SameTwice(m0, old(m), m, l);
        }
      }
    }

    /** One page of uvmcopy: the parent's entry is marked, the child's mapped to the same
        page, and the page counted; fails says that mappages found no table page. */
    method SharePage(parent: nat, child: nat, v: nat, fails: bool) returns (ok: bool)
      requires Valid() && parent != child && Key(parent, v) in m.pt && Key(child, v) !in m.pt
      modifies this`m
      ensures Valid() && ok == !fails && (forall k :: k != Key(child, v) ==> Same(old(m), m, k))
      ensures !ok ==> Key(child, v) !in m.pt
      ensures ok ==> SameAs(old(m), Key(parent, v), m, Key(child, v))
    {
      hide Ok, Owners;
      var k, c := Key(parent, v), Key(child, v);
      MarkedOk(m, held, k);
      var e := m.pt[k];
      if e.w && e.u {
        e := e.(w := false, cow := true);
        m := m.(pt := m.pt[k := e]);
      }
      assert m == Marked(old(m), k) by {
        assert m.pt == old(m).pt[k := Shared(old(m).pt[k])];
      }
      ok := !fails;
      if ok {
        OwnedIsCounted(m, held, k);
        SharedWithOk(m, held, k, c);
        ghost var m1 := m;
        m := m.(pt := m.pt[c := e]);
        Krefinc(e.page);
        SharedRead(old(m), m1, m, k, c);
        forall l | l != c ensures Same(old(m), m, l) {
          SameTwice(old(m), m1, m, l);
        }
      }
    }

    /** uvmcopy of a parent of sz bytes, in which mappages finds no table page for page
        failAt.  The child reads at every page what the parent read; or the copy failed
        and the child is empty.  In both cases everyone else reads what they read. */
    method Uvmcopy(parent: nat, child: nat, sz: nat, failAt: Option<nat>) returns (ok: bool)
      requires Valid() && parent != child && (forall v :: 0 <= v < Pages(sz) ==> Key(parent, v) in m.pt) && forall v: nat :: Key(child, v) !in m.pt
      modifies this`m
      ensures Valid() && (ok <==> failAt.None? || failAt.value >= Pages(sz))
      ensures forall k: Key :: k.pid != child ==> Same(old(m), m, k)
      ensures ok ==> forall v: nat :: if v < Pages(sz) then SameAs(old(m), Key(parent, v), m, Key(child, v)) else Key(child, v) !in m.pt
      ensures !ok ==> forall v: nat :: Key(child, v) !in m.pt
    {
      hide Ok, Same, SameAs;
      SameItself(m, held);
      var i := 0;
      ghost var v := 0;
      while i < sz
        invariant i == v * PGSIZE && v <= Pages(sz) && Valid() && (failAt.Some? ==> v <= failAt.value)
        invariant forall k: Key :: k.pid != child ==> Same(old(m), m, k)
        invariant forall x: nat :: if x < v then SameAs(old(m), Key(parent, x), m, Key(child, x)) else Key(child, x) !in m.pt
      {
        ghost var m1 := m;
        StillThere(old(m), m, Key(parent, v));
        var shared := SharePage(parent, child, i / PGSIZE, failAt == Some(i / PGSIZE));
        ShareKept(old(m), m1, m, parent, child, v);
        if !shared {
          ChildMapped(old(m), m, parent, child, v);
          ghost var m2 := m;
          Uvmunmap(child, 0, i / PGSIZE);
          OthersKept(old(m), m2, m, child, v);
          return false;
        }
        i, v := i + PGSIZE, v + 1;
      }
      ok := true;
    }

    /** cowalloc at address va: on success the entry can be written; nobody reads anything
        different, and on failure nothing changes at all. */
    method Cowalloc(t: nat, va: nat) returns (ok: bool)
      requires Valid()
      modifies this
      ensures Valid() && held == old(held) && SameAll(old(m), m)
      ensures ok <==> va < MAXVA && CowPage(old(m), PageKey(t, va)) && (Sole(old(m), PageKey(t, va)) || old(m).free != [])
      ensures ok ==> PageKey(t, va) in m.pt && m.pt[PageKey(t, va)].UserWritable() && !m.pt[PageKey(t, va)].cow
      ensures !ok ==> m == old(m)
    {
      hide Ok, Same;
      SameItself(m, held);
      var k := PageKey(t, va);
      if va >= MAXVA || !CowPage(m, k) {
        return false;
      }
      OwnedIsCounted(m, held, k);
      var pg := m.pt[k].page;
      if m.count[pg] == 1 {
        UpgradedOk(m, held, k);
        m := Upgraded(m, k);
        return true;
      }
      var mem := Kalloc();
      if mem.None? {
        return false;
      }
      MoveTo(k, mem.value, old(m), old(held));
      ok := true;
    }

    /** The end of cowalloc: copy the page, switch the entry, drop the old reference. */
    method MoveTo(k: Key, pg: nat, ghost m0: Mem, ghost held0: set<nat>)
      requires Valid() && k in m.pt && SameAll(m0, m) && pg !in held0 && held == held0 + {pg} && pg < |m.count| && m.count[pg] == 1
      requires m.pt[k].u && m.pt[k].page < |m.count| == |m.pages| && m.count[m.pt[k].page] > 1
      modifies this
      ensures Valid() && held == held0 && SameAll(m0, m) && k in m.pt && m.pt[k].UserWritable() && !m.pt[k].cow
    {
      hide Ok, Same;
      MovedOk(m, held, k, pg);
      ghost var m1 := m;
      var old_ := m.pt[k].page;
      m := m.(pages := m.pages[pg := m.pages[old_]]);
      m := m.(pt := m.pt[k := m.pt[k].(page := pg, w := true, cow := false)]);
      Kfree(old_);
      held := held - {pg};
      forall l ensures Same(m0, m, l) {
        SameTwice(m0, m1, m, l);
      }
    }

    /** A store by the process, and the trap that a read-only page causes: done, or the
        process is killed and nothing has changed. */
    method Store(t: nat, va: nat, b: Byte) returns (done: bool)
      requires Valid() && va < MAXVA
      modifies this
      ensures Valid() && held == old(held)
      ensures done <==> Readable(old(m), t, va) && (old(m).pt[PageKey(t, va)].w || Sole(old(m), PageKey(t, va)) || old(m).free != [])
      ensures done ==> Readable(m, t, va) && ByteAt(m, t, va) == b && forall x: nat, a: nat :: x != t || a != va ==> SameByte(old(m), m, x, a)
      ensures !done ==> m == old(m)
    {
      hide Ok, Same;
      var k := PageKey(t, va);
      EntryFacts(m, held, t, va);
      SameItself(m, held);
      if k !in m.pt || !m.pt[k].UserWritable() {
        done := Cowalloc(t, va);
        if !done {
          return;
        }
      }
      WritePiece(t, va, [b], old(m));
      StoreWrote(old(m), m, t, va, b);
      done := true;
    }

    /** memmove of bytes to va, inside one page. */
    method WritePiece(t: nat, va: nat, bytes: seq<Byte>, ghost m0: Mem)
      requires Valid() && PageKey(t, va) in m.pt && m.pt[PageKey(t, va)].UserWritable() && va % PGSIZE + |bytes| <= PGSIZE && SameAll(m0, m)
      modifies this`m
      ensures Valid() && forall x: nat, a: nat :: Wrote(m0, m, t, va, bytes, x, a)
    {
      hide Ok, Same, Wrote;
      var k, off := PageKey(t, va), va % PGSIZE;
      EntryFacts(m, held, t, va);
      PieceWrittenOk(m, held, k, off, bytes);
      ghost var m1 := m;
      m := PieceWritten(m, k, off, bytes);
      forall x: nat, a: nat ensures Wrote(m0, m, t, va, bytes, x, a) {
        PieceWrote(m0, m1, t, va, off, bytes, m, x, a);
      }
    }

    /** copyout: src is written at dstva, page by page; done tells how much of it.  The
        copy stops where the address is no user address, or where a shared page would
        have to be copied and no page is free. */
    method Copyout(t: nat, dstva: nat, src: seq<Byte>) returns (ok: bool, done: nat)
      requires Valid()
      modifies this
      ensures Valid() && held == old(held) && done <= |src| && (ok <==> done == |src|)
      ensures forall x: nat, a: nat :: Wrote(old(m), m, t, dstva, src[..done], x, a)
      ensures !ok ==> Stuck(m, t, dstva + done)
    {
      hide Ok, Wrote, Stuck, SameAll;
      done := 0;
      assert src[..0] == [];
      WroteNothing(m, held, t, dstva);
      while done < |src|
        invariant Valid() && held == old(held) && done <= |src|
        invariant forall x: nat, a: nat :: Wrote(old(m), m, t, dstva, src[..done], x, a)
        decreases |src| - done
      {
        var va := dstva + done;
        var room := PGSIZE - va % PGSIZE;
        var n := if room > |src| - done then |src| - done else room;
        ghost var m1 := m;
        var more := CopyPiece(t, va, src[done..done + n]);
        if !more {
          WroteSame(old(m), m1, m, t, dstva, src[..done]);
          return false, done;
        }
        WroteMore(old(m), m1, m, t, dstva, va, src[..done], src[done..done + n]);
        assert src[..done] + src[done..done + n] == src[..done + n];
        done := done + n;
      }
      assert src[..done] == src;
      ok := true;
    }

    /** One page of copyout. */
    method CopyPiece(t: nat, va: nat, bytes: seq<Byte>) returns (ok: bool)
      requires Valid() && va % PGSIZE + |bytes| <= PGSIZE
      modifies this
      ensures Valid() && held == old(held) && (ok <==> !Stuck(old(m), t, va))
      ensures ok ==> forall x: nat, a: nat :: Wrote(old(m), m, t, va, bytes, x, a)
      ensures !ok ==> Stuck(m, t, va) && m == old(m)
    {
      hide Ok, Same, Wrote;
      var k := PageKey(t, va);
      if va / PGSIZE * PGSIZE >= MAXVA {
        return false;
      }
      SameItself(m, held);
      EntryFacts(m, held, t, va);
      PageBelow(va);
      if k in m.pt && m.pt[k].cow {
        var served := Cowalloc(t, va);
        if !served {
          return false;
        }
      }
      if k !in m.pt || !m.pt[k].u {
        return false;
      }
      EntryFacts(m, held, t, va);
      WritePiece(t, va, bytes, old(m));
      ok := true;
    }

    /** copyin: the n bytes at srcva, or failure if one of them is not at a user address. */
    method Copyin(t: nat, srcva: nat, n: nat) returns (r: Option<seq<Byte>>)
      requires Valid()
      ensures r.Some? <==> forall a: nat :: srcva <= a < srcva + n ==> UserAddress(m, t, a)
      ensures r.Some? ==> |r.value| == n && Reads(m, t, srcva, r.value)
    {
      hide Ok, UserAddress;
      var out: seq<Byte> := [];
      while |out| < n
        invariant |out| <= n && Reads(m, t, srcva, out)
        decreases n - |out|
      {
        var va := srcva + |out|;
        var room := PGSIZE - va % PGSIZE;
        var len := if room > n - |out| then n - |out| else room;
        var piece := ReadPiece(t, va, len);
        if piece.None? {
          return None;
        }
        JoinRead(m, t, srcva, out, va, piece.value);
        out := out + piece.value;
      }
      r := Some(out);
    }

    /** One page of copyin. */
    method ReadPiece(t: nat, va: nat, n: nat) returns (r: Option<seq<Byte>>)
      requires Valid() && 0 < n && va % PGSIZE + n <= PGSIZE
      ensures r.None? ==> !UserAddress(m, t, va)
      ensures r.Some? ==> |r.value| == n && Reads(m, t, va, r.value)
    {
      hide Ok;
      var k, off := PageKey(t, va), va % PGSIZE;
      PageBelow(va);
      EntryFacts(m, held, t, va);
      if va / PGSIZE * PGSIZE >= MAXVA || k !in m.pt || !m.pt[k].u {
        return None;
      }
      var page := m.pages[m.pt[k].page];
      var bytes := page[off..off + n];
      forall a: nat | va <= a < va + n ensures UserAddress(m, t, a) && bytes[a - va] == ByteAt(m, t, a) {
        PieceAddresses(va, n, a);
        PageBelow(a);
      }
      r := Some(bytes);
    }

    /** uvmdealloc: the pages that only the old size needs are gone. */
    method Uvmdealloc(t: nat, oldsz: nat, newsz: nat) returns (r: nat)
      requires Valid() && forall v :: Pages(newsz) <= v < Pages(oldsz) ==> Key(t, v) in m.pt
      modifies this`m
      ensures Valid() && r == if newsz >= oldsz then oldsz else newsz
      ensures forall k :: if newsz < oldsz && Between(t, Pages(newsz), Pages(oldsz), k) then k !in m.pt else Same(old(m), m, k)
    {
      hide Ok, Same;
      SameItself(m, held);
      if newsz >= oldsz {
        return oldsz;
      }
      if Pages(newsz) < Pages(oldsz) {
        Uvmunmap(t, Pages(newsz), Pages(oldsz) - Pages(newsz));
      }
      r := newsz;
    }

    /** One page of uvmalloc; fails says that mappages found no table page. */
    method GrowPage(t: nat, v: nat, fails: bool) returns (ok: bool)
      requires Valid() && Key(t, v) !in m.pt
      modifies this
      ensures Valid() && held == old(held) && (ok <==> old(m).free != [] && !fails)
      ensures ok ==> NewPage(m, Key(t, v)) && |m.free| == |old(m).free| - 1 && forall k :: k != Key(t, v) ==> Same(old(m), m, k)
      ensures ok ==> m.pt == old(m).pt[Key(t, v) := m.pt[Key(t, v)]]
      ensures !ok ==> SameAll(old(m), m)
    {
      hide Ok, Same;
      var mem := Kalloc();
      if mem.None? {
        return false;
      }
      var pg := mem.value;
      ghost var m1 := m;
      FilledOk(m, held, pg, Filled(0));
      m := m.(pages := m.pages[pg := Filled(0)]);
      ghost var m2 := m;
      if fails {
        ReturnedOk(m, held, pg);
        Kfree(pg);
        held := held - {pg};
        SameThrice(old(m), m1, m2, m);
        return false;
      }
      MappedOk(m, held, Key(t, v), pg);
      m := m.(pt := m.pt[Key(t, v) := Pte(pg, true, true, true, true, false)]);
      held := held - {pg};
      forall k | k != Key(t, v) ensures Same(old(m), m, k) {
        SameTwice(old(m), m1, m2, k);
        SameTwice(old(m), m2, m, k);
      }
      ok := true;
    }

    /** uvmalloc: zeroed pages for the new size, or failure with everything as it was. */
    method Uvmalloc(t: nat, oldsz: nat, newsz: nat, failAt: Option<nat>) returns (r: Option<nat>)
      requires Valid() && forall v :: Pages(oldsz) <= v < Pages(newsz) ==> Key(t, v) !in m.pt
      modifies this
      ensures Valid() && held == old(held)
      ensures r.Some? ==> r.value == if newsz < oldsz then oldsz else newsz
      ensures r.Some? ==> forall k :: if Between(t, Pages(oldsz), Pages(newsz), k) then NewPage(m, k) else Same(old(m), m, k)
      ensures r.None? ==> SameAll(old(m), m)
      ensures r.Some? <==> newsz < oldsz || (|old(m).free| >= Pages(newsz) - Pages(oldsz) && !(failAt.Some? && Pages(oldsz) <= failAt.value < Pages(newsz)))
    {
      hide Ok, Same, NewPage;
      SameItself(m, held);
      if newsz < oldsz {
        return Some(oldsz);
      }
      var first := Pages(oldsz);
      var a := first * PGSIZE;
      ghost var v := first;
      while a < newsz
        invariant a == v * PGSIZE && first <= v && (v <= Pages(newsz) || v == first) && Valid() && held == old(held)
        invariant |m.free| == |old(m).free| - (v - first) && (failAt.Some? && first <= failAt.value ==> v <= failAt.value)
        invariant forall k :: if Between(t, first, v, k) then NewPage(m, k) else Same(old(m), m, k)
      {
        ghost var m1 := m;
        StillThere(old(m), m, Key(t, v));
        var grown := GrowPage(t, a / PGSIZE, failAt == Some(a / PGSIZE));
        if !grown {
          NewStay(m1, m, t, first, v);
          ghost var m2 := m;
          var _ := Uvmdealloc(t, a, oldsz);
          Undone(old(m), m1, m2, m, t, first, v);
          return None;
        }
        NewOneMore(old(m), m1, m, t, first, v);
        a, v := a + PGSIZE, v + 1;
      }
      r := Some(newsz);
    }
  }

  lemma SameThrice(m0: Mem, m1: Mem, m2: Mem, m3: Mem)
    requires SameAll(m0, m1) && SameAll(m1, m2) && SameAll(m2, m3)
    ensures SameAll(m0, m3)
  {
    hide Same;
    forall k ensures Same(m0, m3, k) {
      SameTwice(m0, m1, m2, k);
      SameTwice(m0, m2, m3, k);
    }
  }

  lemma NewStays(m: Mem, m': Mem, k: Key)
    requires NewPage(m, k) && Same(m, m', k)
    ensures k in m.pt && k in m'.pt
  {
  }

  lemma NewStay(m: Mem, m': Mem, t: nat, first: nat, v: nat)
    requires SameAll(m, m') && forall k :: Between(t, first, v, k) ==> NewPage(m, k)
    ensures forall x :: first <= x < v ==> Key(t, x) in m'.pt
  {
    forall x | first <= x < v ensures Key(t, x) in m'.pt {
      assert Between(t, first, v, Key(t, x));
      NewStays(m, m', Key(t, x));
    }
  }

  /** The pages gained so far stay as they are when one more is mapped. */
  lemma NewOneMore(m0: Mem, m1: Mem, m2: Mem, t: nat, first: nat, v: nat)
    requires first <= v && NewPage(m2, Key(t, v)) && forall k :: k != Key(t, v) ==> Same(m1, m2, k)
    requires forall k :: if Between(t, first, v, k) then NewPage(m1, k) else Same(m0, m1, k)
    requires m2.pt == m1.pt[Key(t, v) := m2.pt[Key(t, v)]]
    ensures forall k :: if Between(t, first, v + 1, k) then NewPage(m2, k) else Same(m0, m2, k)
  {
    forall k ensures if Between(t, first, v + 1, k) then NewPage(m2, k) else Same(m0, m2, k) {
      if Between(t, first, v, k) {
        assert NewPage(m1, k) && Same(m1, m2, k);
      } else if k != Key(t, v) {
        SameTwice(m0, m1, m2, k);
      }
    }
  }

  /** After a failure the pages gained are unmapped again. */
  lemma Undone(m0: Mem, m1: Mem, m2: Mem, m3: Mem, t: nat, first: nat, v: nat)
    requires SameAll(m1, m2) && forall k :: if Between(t, first, v, k) then NewPage(m1, k) else Same(m0, m1, k)
    requires forall k :: if Between(t, first, v, k) then k !in m3.pt else Same(m2, m3, k)
    requires forall x :: first <= x < v ==> Key(t, x) !in m0.pt
    ensures SameAll(m0, m3)
  {
    hide Same, NewPage;
    forall k ensures Same(m0, m3, k) {
      if Between(t, first, v, k) {
        assert k == Key(t, k.vpn);
        SameGone(m0, m3, k);
      } else {
        SameTwice(m0, m1, m2, k);
        SameTwice(m0, m2, m3, k);
      }
    }
  }

  lemma SameGone(m: Mem, m': Mem, k: Key)
    requires k !in m.pt && k !in m'.pt
    ensures Same(m, m', k)
  {
  }

  /** The page of entry k has one reference. */
  predicate Sole(m: Mem, k: Key) {
    k in m.pt && m.pt[k].page < |m.count| && m.count[m.pt[k].page] == 1
  }

  predicate UserAddress(m: Mem, t: nat, va: nat) {
    va < MAXVA && Readable(m, t, va)
  }

  /** copyout cannot write at va. */
  predicate Stuck(m: Mem, t: nat, va: nat) {
    !UserAddress(m, t, va) || (CowPage(m, PageKey(t, va)) && !Sole(m, PageKey(t, va)) && m.free == [])
  }

  /** Address a of space x after bytes were written to t at va. */
  predicate Wrote(m: Mem, m': Mem, t: nat, va: nat, bytes: seq<Byte>, x: nat, a: nat) {
    if x == t && va <= a < va + |bytes| then Readable(m', x, a) && ByteAt(m', x, a) == bytes[a - va] else SameByte(m, m', x, a)
  }

  /** A page is below MAXVA as a whole or not at all. */
  lemma PageBelow(va: nat)
    ensures va / PGSIZE * PGSIZE >= MAXVA <==> va >= MAXVA
  {
  }

  lemma EntryFacts(m: Mem, held: set<nat>, t: nat, va: nat)
    requires Ok(m, held)
    ensures var k := PageKey(t, va);
            && (k in m.pt ==> m.pt[k].page < |m.pages| == |m.count| && |m.pages[m.pt[k].page]| == PGSIZE && (m.pt[k].u ==> m.pt[k].w != m.pt[k].cow))
            && (Readable(m, t, va) <==> k in m.pt && m.pt[k].u)
            && (k in m.pt && m.pt[k].UserWritable() ==> Sole(m, k))
  {
    assert PageKey(t, va) in m.pt ==> EntryOk(m.count, m.pt[PageKey(t, va)]);
  }

  lemma PieceWrote(m0: Mem, m1: Mem, t: nat, va: nat, off: nat, bytes: seq<Byte>, m: Mem, x: nat, a: nat)
    requires SameAll(m0, m1) && off == va % PGSIZE && off + |bytes| <= PGSIZE && Readable(m1, t, va) && m == PieceWritten(m1, PageKey(t, va), off, bytes)
    requires forall l :: l != PageKey(t, va) ==> Same(m1, m, l)
    ensures Wrote(m0, m, t, va, bytes, x, a)
  {
    PieceBytes(m1, t, va, off, bytes, m, x, a);
    SameBytes(m0, m1, x, a);
  }

  lemma WroteNothing(m: Mem, held: set<nat>, t: nat, va: nat)
    requires Ok(m, held)
    ensures forall x: nat, a: nat :: Wrote(m, m, t, va, [], x, a)
  {
  }

  lemma WroteSame(m0: Mem, m1: Mem, m2: Mem, t: nat, va: nat, bytes: seq<Byte>)
    requires m1 == m2 && forall x: nat, a: nat :: Wrote(m0, m1, t, va, bytes, x, a)
    ensures forall x: nat, a: nat :: Wrote(m0, m2, t, va, bytes, x, a)
  {
  }

  /** A second piece right after the first. */
  lemma WroteMore(m0: Mem, m1: Mem, m2: Mem, t: nat, va: nat, next: nat, u: seq<Byte>, w: seq<Byte>)
    requires next == va + |u| && (forall x: nat, a: nat :: Wrote(m0, m1, t, va, u, x, a)) && forall x: nat, a: nat :: Wrote(m1, m2, t, next, w, x, a)
    ensures forall x: nat, a: nat :: Wrote(m0, m2, t, va, u + w, x, a)
  {
    forall x: nat, a: nat ensures Wrote(m0, m2, t, va, u + w, x, a) {
      assert Wrote(m0, m1, t, va, u, x, a) && Wrote(m1, m2, t, next, w, x, a);
    }
  }

  /** bytes is what space t reads from va on. */
  ghost predicate Reads(m: Mem, t: nat, va: nat, bytes: seq<Byte>) {
    forall a: nat :: va <= a < va + |bytes| ==> UserAddress(m, t, a) && bytes[a - va] == ByteAt(m, t, a)
  }

  lemma JoinRead(m: Mem, t: nat, srcva: nat, out: seq<Byte>, va: nat, piece: seq<Byte>)
    requires va == srcva + |out| && Reads(m, t, srcva, out) && Reads(m, t, va, piece)
    ensures Reads(m, t, srcva, out + piece)
  {
  }

  lemma StoreWrote(m: Mem, m': Mem, t: nat, va: nat, b: Byte)
    requires forall x: nat, a: nat :: Wrote(m, m', t, va, [b], x, a)
    ensures Readable(m', t, va) && ByteAt(m', t, va) == b && forall x: nat, a: nat :: x != t || a != va ==> SameByte(m, m', x, a)
  {
    assert Wrote(m, m', t, va, [b], t, va);
    forall x: nat, a: nat | x != t || a != va ensures SameByte(m, m', x, a) {
      assert Wrote(m, m', t, va, [b], x, a);
    }
  }

  /** What copyout wrote, copyin reads. */
  lemma CopyRoundTrip(m: Mem, m': Mem, t: nat, va: nat, bytes: seq<Byte>)
    requires va + |bytes| <= MAXVA && forall x: nat, a: nat :: Wrote(m, m', t, va, bytes, x, a)
    ensures Reads(m', t, va, bytes)
  {
    forall a: nat | va <= a < va + |bytes| ensures UserAddress(m', t, a) && bytes[a - va] == ByteAt(m', t, a) {
      assert Wrote(m, m', t, va, bytes, t, a);
    }
  }

  /** The child's new entry reads what the parent's read. */
  lemma SharedRead(m: Mem, m1: Mem, m2: Mem, k: Key, c: Key)
    requires k in m.pt && Same(m, m1, k) && k in m1.pt && m1.pt[k].page < |m1.pages|
    requires m2.pages == m1.pages && c in m2.pt && m2.pt[c] == m1.pt[k]
    ensures SameAs(m, k, m2, c)
  {
  }

  lemma StillThere(m: Mem, m': Mem, k: Key)
    requires Same(m, m', k)
    ensures k in m.pt <==> k in m'.pt
  {
  }

  lemma SameAsTwice(m: Mem, m1: Mem, m2: Mem, k: Key, l: Key)
    requires SameAs(m, k, m1, l) && Same(m1, m2, l)
    ensures SameAs(m, k, m2, l)
  {
  }

  lemma SameThenAs(m: Mem, m1: Mem, m2: Mem, k: Key, l: Key)
    requires Same(m, m1, k) && SameAs(m1, k, m2, l)
    ensures SameAs(m, k, m2, l)
  {
  }

  lemma ShareKept(m: Mem, m1: Mem, m2: Mem, parent: nat, child: nat, v: nat)
    requires parent != child && (forall k: Key :: k.pid != child ==> Same(m, m1, k)) && forall k :: k != Key(child, v) ==> Same(m1, m2, k)
    requires forall x: nat :: if x < v then SameAs(m, Key(parent, x), m1, Key(child, x)) else Key(child, x) !in m1.pt
    ensures forall k: Key :: k.pid != child ==> Same(m, m2, k)
    ensures forall x: nat :: x != v ==> if x < v then SameAs(m, Key(parent, x), m2, Key(child, x)) else Key(child, x) !in m2.pt
    ensures SameAs(m1, Key(parent, v), m2, Key(child, v)) ==> SameAs(m, Key(parent, v), m2, Key(child, v))
  {
    hide Same, SameAs;
    forall k: Key | k.pid != child ensures Same(m, m2, k) {
      SameTwice(m, m1, m2, k);
    }
    forall x: nat | x != v ensures if x < v then SameAs(m, Key(parent, x), m2, Key(child, x)) else Key(child, x) !in m2.pt {
      if x < v {
        SameAsTwice(m, m1, m2, Key(parent, x), Key(child, x));
      } else {
        StillThere(m1, m2, Key(child, x));
      }
    }
    if SameAs(m1, Key(parent, v), m2, Key(child, v)) {
      SameThenAs(m, m1, m2, Key(parent, v), Key(child, v));
    }
  }

  lemma ChildMapped(m: Mem, m1: Mem, parent: nat, child: nat, v: nat)
    requires forall x: nat :: x < v ==> SameAs(m, Key(parent, x), m1, Key(child, x))
    ensures forall x: nat :: x < v ==> Key(child, x) in m1.pt
  {
  }

  lemma OthersKept(m: Mem, m1: Mem, m2: Mem, child: nat, v: nat)
    requires forall k: Key :: k.pid != child ==> Same(m, m1, k)
    requires forall k :: if Between(child, 0, v, k) then k !in m2.pt else Same(m1, m2, k)
    requires forall x: nat :: x >= v ==> Key(child, x) !in m1.pt
    ensures (forall k: Key :: k.pid != child ==> Same(m, m2, k)) && forall x: nat :: Key(child, x) !in m2.pt
  {
    hide Same;
    forall k: Key | k.pid != child ensures Same(m, m2, k) {
      assert !Between(child, 0, v, k);
      SameTwice(m, m1, m2, k);
    }
    forall x: nat ensures Key(child, x) !in m2.pt {
      if x >= v {
        assert !Between(child, 0, v, Key(child, x));
        StillThere(m1, m2, Key(child, x));
      } else {
        assert Between(child, 0, v, Key(child, x));
      }
    }
  }

  lemma SameItself(m: Mem, held: set<nat>)
    requires Ok(m, held)
    ensures SameAll(m, m)
  {
    forall k ensures Same(m, m, k) {
      assert k in m.pt ==> EntryOk(m.count, m.pt[k]);
    }
  }
}
