/** The K&R allocator of user/umalloc.c, in units of one header: a circular list of
    free blocks in address order, updated in place. */
module Umalloc {

  datatype Option<T> = None | Some(value: T)

  /** Bytes in a header. */
  const UNIT: nat := 16

  /** The least number of units that morecore asks for. */
  const CHUNK: nat := 4096

  /** The largest request sbrk's int argument can carry. */
  const MAXINT: nat := 0x7FFF_FFFF

  function Next(i: nat, n: nat): (j: nat)
    requires i < n
    ensures j < n
  {
    if i + 1 == n then 0 else i + 1
  }

  /** Element i of the list points to the next one. */
  ghost predicate Linked(l: seq<nat>, ptr: map<nat, nat>, i: nat) {
    i < |l| && l[i] in ptr && ptr[l[i]] == l[Next(i, |l|)]
  }

  /** Unit u lies in the block at a. */
  ghost predicate Inside(size: map<nat, nat>, a: nat, u: nat) {
    a in size && a <= u < a + size[a]
  }

  /** The free list: base first, then the free blocks by address, closed to a circle;
      no two free blocks touch. */
  ghost predicate ListOk(base: nat, l: seq<nat>, ptr: map<nat, nat>, size: map<nat, nat>) {
    && |l| >= 1 && l[0] == base
    && (forall i :: 0 <= i < |l| ==> l[i] in ptr && l[i] in size)
    && (forall i, j :: 0 <= i < j < |l| ==> l[i] < l[j])
    && (forall i :: 0 <= i < |l| ==> Linked(l, ptr, i))
    && (forall i, j :: 0 <= i < j < |l| ==> l[i] + size[l[i]] < l[j])
    && size[base] == 0 && (forall i :: 0 < i < |l| ==> size[l[i]] > 0)
  }

  /** Every unit obtained from sbrk belongs to exactly one block, free or allocated,
      and every unit of a block was obtained. */
  ghost predicate TileOk(base: nat, l: seq<nat>, size: map<nat, nat>, alloc: map<nat, nat>, owner: map<nat, nat>) {
    && (forall u :: u in owner ==> base < owner[u] && Inside(size, owner[u], u))
    && (forall u :: u in owner ==> owner[u] in l || owner[u] in alloc)
    && (forall a: nat, u: nat :: Inside(size, a, u) && (a in l || a in alloc) ==> u in owner && owner[u] == a)
    && (forall a :: a in alloc ==> a in size && size[a] == alloc[a] > 0 && a !in l && base < a)
  }

  /** The index of the last element of the list below b. */
  ghost predicate Position(l: seq<nat>, b: nat, k: nat) {
    k < |l| && l[k] < b && (k + 1 < |l| ==> b < l[k + 1])
  }

  lemma {:induction false} PositionExists(l: seq<nat>, b: nat) returns (k: nat)
    requires |l| >= 1 && l[0] < b && b !in l && forall i, j :: 0 <= i < j < |l| ==> l[i] < l[j]
    ensures Position(l, b, k)
  {
    k := 0;
    while k + 1 < |l| && l[k + 1] < b
      invariant k < |l| && l[k] < b
    {
      k := k + 1;
    }
  }

  /** The steps from index i forward to index k around a circle of n. */
  function Steps(i: nat, k: nat, n: nat): (r: nat)
    requires i < n && k < n
    ensures r < n
  {
    if i <= k then k - i else k + n - i
  }

  // ---------------------------------------------------------------- giving a block back

  /** The heap with block bp allocated, lying after the k-th free block. */
  ghost predicate Returning(base: nat, l: seq<nat>, ptr: map<nat, nat>, size: map<nat, nat>, alloc: map<nat, nat>, owner: map<nat, nat>, bp: nat, k: nat) {
    ListOk(base, l, ptr, size) && TileOk(base, l, size, alloc, owner) && bp in alloc && Position(l, bp, k)
  }

  /** Blocks do not overlap. */
  lemma Apart(base: nat, l: seq<nat>, ptr: map<nat, nat>, size: map<nat, nat>, alloc: map<nat, nat>, owner: map<nat, nat>, bp: nat, k: nat)
    requires Returning(base, l, ptr, size, alloc, owner, bp, k)
    ensures bp in size && l[k] + size[l[k]] <= bp && (k + 1 < |l| ==> bp + size[bp] <= l[k + 1])
  {
    assert Inside(size, bp, bp);
    assert !Inside(size, l[k], bp);
    if k + 1 < |l| {
      assert Inside(size, l[k + 1], l[k + 1]);
      assert !Inside(size, bp, l[k + 1]);
    }
  }

  /** Units of block x become units of block y. */
  function Relabel(owner: map<nat, nat>, x: nat, y: nat): (r: map<nat, nat>)
    ensures r.Keys == owner.Keys
  {
    map u | u in owner :: if owner[u] == x then y else owner[u]
  }

  function Inserted(l: seq<nat>, k: nat, b: nat): (r: seq<nat>)
    requires k < |l|
    ensures |r| == |l| + 1
    ensures forall i :: 0 <= i < |r| ==> r[i] == if i <= k then l[i] else if i == k + 1 then b else l[i - 1]
  {
    l[..k + 1] + [b] + l[k + 1..]
  }

  function Dropped(l: seq<nat>, k: nat): (r: seq<nat>)
    requires k < |l|
    ensures |r| == |l| - 1
    ensures forall i :: 0 <= i < |r| ==> r[i] == if i < k then l[i] else l[i + 1]
  {
    l[..k] + l[k + 1..]
  }

  lemma InsertedHas(l: seq<nat>, k: nat, b: nat)
    requires k < |l|
    ensures forall a :: a in Inserted(l, k, b) <==> a in l || a == b
  {
    var r := Inserted(l, k, b);
    forall a | a in l ensures a in r {
      var i :| 0 <= i < |l| && l[i] == a;
      assert r[if i <= k then i else i + 1] == a;
    }
    assert r[k + 1] == b;
  }

  lemma DroppedHas(l: seq<nat>, k: nat)
    requires k < |l| && forall i, j :: 0 <= i < j < |l| ==> l[i] < l[j]
    ensures forall a :: a in Dropped(l, k) <==> a in l && a != l[k]
  {
    var r := Dropped(l, k);
    forall a | a in l && a != l[k] ensures a in r {
      var i :| 0 <= i < |l| && l[i] == a;
      assert r[if i < k then i else i - 1] == a;
    }
  }

  lemma ReplacedHas(l: seq<nat>, k: nat, b: nat)
    requires k < |l| && (forall i, j :: 0 <= i < j < |l| ==> l[i] < l[j]) && b !in l
    ensures forall a :: a in l[k := b] <==> (a in l && a != l[k]) || a == b
  {
    var r := l[k := b];
    forall a | a in l && a != l[k] ensures a in r {
      var i :| 0 <= i < |l| && l[i] == a;
      assert r[i] == a;
    }
    assert r[k] == b;
  }

  // The list alone.

  ghost predicate Sorted(l: seq<nat>) {
    forall i, j :: 0 <= i < j < |l| ==> l[i] < l[j]
  }

  lemma LinkInserted(l: seq<nat>, ptr: map<nat, nat>, k: nat, b: nat, i: nat)
    requires Sorted(l) && b !in l && k < |l| && i <= |l| && forall j :: 0 <= j < |l| ==> Linked(l, ptr, j)
    ensures Linked(Inserted(l, k, b), ptr[b := l[Next(k, |l|)]][l[k] := b], i)
  {
    if i <= k {
      assert Linked(l, ptr, i);
    } else if i > k + 1 {
      assert Linked(l, ptr, i - 1);
    }
  }

  lemma LinkReplaced(l: seq<nat>, ptr: map<nat, nat>, k: nat, b: nat, i: nat)
    requires Sorted(l) && b !in l && k + 1 < |l| && i < |l| && forall j :: 0 <= j < |l| ==> Linked(l, ptr, j)
    ensures l[k + 1] in ptr && Linked(l[k + 1 := b], ptr[b := ptr[l[k + 1]]][l[k] := b], i)
  {
    assert Linked(l, ptr, i) && Linked(l, ptr, k + 1);
  }

  lemma LinkSame(l: seq<nat>, ptr: map<nat, nat>, k: nat, b: nat, i: nat)
    requires b !in l && k < |l| && i < |l| && forall j :: 0 <= j < |l| ==> Linked(l, ptr, j)
    ensures Linked(l, ptr[b := l[Next(k, |l|)]][l[k] := l[Next(k, |l|)]], i)
  {
    assert Linked(l, ptr, i) && Linked(l, ptr, k);
  }

  lemma LinkDropped(l: seq<nat>, ptr: map<nat, nat>, k: nat, b: nat, i: nat)
    requires Sorted(l) && b !in l && k + 1 < |l| && i < |l| - 1 && forall j :: 0 <= j < |l| ==> Linked(l, ptr, j)
    ensures l[k + 1] in ptr && Linked(Dropped(l, k + 1), ptr[b := ptr[l[k + 1]]][l[k] := ptr[l[k + 1]]], i)
  {
    assert Linked(l, ptr, k + 1);
    if i <= k {
      assert Linked(l, ptr, i);
    } else {
      assert Linked(l, ptr, i + 1);
    }
  }

  /** Each element of the list ends before any later one begins. */
  ghost predicate Gaps(l: seq<nat>, size: map<nat, nat>) {
    && (forall i :: 0 <= i < |l| ==> l[i] in size)
    && (forall i, j :: 0 <= i < j < |l| ==> l[i] + size[l[i]] < l[j])
  }

  lemma GapInserted(l: seq<nat>, size: map<nat, nat>, k: nat, b: nat, i: nat, j: nat)
    requires Gaps(l, size) && k < |l| && b in size && l[k] + size[l[k]] < b && (k + 1 < |l| ==> b + size[b] < l[k + 1])
    requires i < j < |l| + 1
    ensures var r := Inserted(l, k, b); r[i] in size && r[j] in size && r[i] + size[r[i]] < r[j]
  {
    var r := Inserted(l, k, b);
    var x, y := if i <= k then i else i - 1, if j <= k then j else j - 1;
    if i == k + 1 {
      assert r[i] == b && r[j] == l[y];
    } else if j == k + 1 {
      assert r[i] == l[i] && r[j] == b;
    } else {
      assert r[i] == l[x] && r[j] == l[y];
    }
  }

  lemma GapDropped(l: seq<nat>, size: map<nat, nat>, size': map<nat, nat>, k: nat, i: nat, j: nat)
    requires Gaps(l, size) && k + 1 < |l| && i < j < |l| - 1
    requires forall x :: 0 <= x < |l| ==> l[x] in size' && (x != k ==> size'[l[x]] == size[l[x]])
    requires l[k] + size'[l[k]] == l[k + 1] + size[l[k + 1]]
    ensures var r := Dropped(l, k + 1); r[i] in size' && r[j] in size' && r[i] + size'[r[i]] < r[j]
  {
    var r := Dropped(l, k + 1);
    var x, y := if i <= k then i else i + 1, if j <= k then j else j + 1;
    assert r[i] == l[x] && r[j] == l[y];
    if x == k {
      assert l[k + 1] + size[l[k + 1]] < l[y];
    }
  }

  lemma GapReplaced(l: seq<nat>, size: map<nat, nat>, size': map<nat, nat>, k: nat, b: nat, i: nat, j: nat)
    requires Gaps(l, size) && k + 1 < |l| && b !in l && i < j < |l| && b in size' && l[k] + size[l[k]] < b < l[k + 1]
    requires forall x :: 0 <= x < |l| ==> l[x] in size' && size'[l[x]] == size[l[x]]
    requires b + size'[b] == l[k + 1] + size[l[k + 1]]
    ensures var r := l[k + 1 := b]; r[i] in size' && r[j] in size' && r[i] + size'[r[i]] < r[j]
  {
    if i == k + 1 {
      assert l[i] + size[l[i]] < l[j];
    } else if j == k + 1 && i < k {
      assert l[i] + size[l[i]] < l[k];
    }
  }

  ghost predicate Positive(l: seq<nat>, size: map<nat, nat>) {
    forall i :: 0 < i < |l| ==> l[i] in size && size[l[i]] > 0
  }

  lemma Assemble(base: nat, l: seq<nat>, ptr: map<nat, nat>, size: map<nat, nat>)
    requires |l| >= 1 && l[0] == base && (forall i :: 0 <= i < |l| ==> Linked(l, ptr, i)) && Gaps(l, size)
    requires size[base] == 0 && Positive(l, size)
    ensures ListOk(base, l, ptr, size)
  {
    forall i: nat | i < |l| ensures l[i] in ptr {
      assert Linked(l, ptr, i);
    }
  }

  lemma ListInsert(base: nat, l: seq<nat>, ptr: map<nat, nat>, size: map<nat, nat>, b: nat, k: nat)
    requires ListOk(base, l, ptr, size) && b !in l && Position(l, b, k) && b in size && size[b] > 0
    requires l[k] + size[l[k]] < b && (k + 1 < |l| ==> b + size[b] < l[k + 1])
    ensures ListOk(base, Inserted(l, k, b), ptr[b := l[Next(k, |l|)]][l[k] := b], size)
  {
    var r, ptr' := Inserted(l, k, b), ptr[b := l[Next(k, |l|)]][l[k] := b];
    forall i: nat | i < |r| ensures Linked(r, ptr', i) {
      LinkInserted(l, ptr, k, b, i);
    }
    forall i: nat, j: nat | i < j < |r| ensures r[i] in size && r[j] in size && r[i] + size[r[i]] < r[j] {
      GapInserted(l, size, k, b, i, j);
    }
    Assemble(base, r, ptr', size);
  }

  lemma ListReplace(base: nat, l: seq<nat>, ptr: map<nat, nat>, size: map<nat, nat>, b: nat, k: nat)
    requires ListOk(base, l, ptr, size) && b !in l && Position(l, b, k) && b in size
    requires l[k] + size[l[k]] < b && k + 1 < |l| && b + size[b] == l[k + 1]
    ensures l[k + 1] in ptr
    ensures ListOk(base, l[k + 1 := b], ptr[b := ptr[l[k + 1]]][l[k] := b], size[b := size[b] + size[l[k + 1]]])
  {
    assert Linked(l, ptr, k + 1);
    var r, ptr', size' := l[k + 1 := b], ptr[b := ptr[l[k + 1]]][l[k] := b], size[b := size[b] + size[l[k + 1]]];
    forall i: nat | i < |r| ensures Linked(r, ptr', i) {
      LinkReplaced(l, ptr, k, b, i);
    }
    forall i: nat, j: nat | i < j < |r| ensures r[i] in size' && r[j] in size' && r[i] + size'[r[i]] < r[j] {
      GapReplaced(l, size, size', k, b, i, j);
    }
    Assemble(base, r, ptr', size');
  }

  lemma ListGrow(base: nat, l: seq<nat>, ptr: map<nat, nat>, size: map<nat, nat>, b: nat, k: nat)
    requires ListOk(base, l, ptr, size) && b !in l && Position(l, b, k) && b in size && base < l[k]
    requires l[k] + size[l[k]] == b && (k + 1 < |l| ==> b + size[b] < l[k + 1])
    ensures ListOk(base, l, ptr[b := l[Next(k, |l|)]][l[k] := l[Next(k, |l|)]], size[l[k] := size[l[k]] + size[b]])
  {
    var ptr' := ptr[b := l[Next(k, |l|)]][l[k] := l[Next(k, |l|)]];
    forall i: nat | i < |l| ensures Linked(l, ptr', i) {
      LinkSame(l, ptr, k, b, i);
    }
    hide Linked;
  }

  lemma ListJoin(base: nat, l: seq<nat>, ptr: map<nat, nat>, size: map<nat, nat>, b: nat, k: nat, size': map<nat, nat>)
    requires ListOk(base, l, ptr, size) && b !in l && Position(l, b, k) && b in size && base < l[k]
    requires l[k] + size[l[k]] == b && k + 1 < |l| && b + size[b] == l[k + 1]
    requires size' == size[b := size[b] + size[l[k + 1]]][l[k] := size[l[k]] + (size[b] + size[l[k + 1]])]
    ensures l[k + 1] in ptr && ListOk(base, Dropped(l, k + 1), ptr[b := ptr[l[k + 1]]][l[k] := ptr[l[k + 1]]], size')
  {
    assert Linked(l, ptr, k + 1);
    var r, ptr' := Dropped(l, k + 1), ptr[b := ptr[l[k + 1]]][l[k] := ptr[l[k + 1]]];
    forall i: nat | i < |r| ensures Linked(r, ptr', i) {
      LinkDropped(l, ptr, k, b, i);
    }
    JoinGaps(base, l, ptr, size, b, k, size');
    Assemble(base, r, ptr', size');
  }

  lemma JoinGaps(base: nat, l: seq<nat>, ptr: map<nat, nat>, size: map<nat, nat>, b: nat, k: nat, size': map<nat, nat>)
    requires ListOk(base, l, ptr, size) && b !in l && k + 1 < |l| && b in size && base < l[k]
    requires l[k] + size[l[k]] == b && b + size[b] == l[k + 1]
    requires size' == size[b := size[b] + size[l[k + 1]]][l[k] := size[l[k]] + (size[b] + size[l[k + 1]])]
    ensures Gaps(Dropped(l, k + 1), size') && Positive(Dropped(l, k + 1), size') && size'[base] == 0
  {
    hide Linked;
    var r := Dropped(l, k + 1);
    forall i: nat | i < |r| ensures r[i] in size' && (i > 0 ==> size'[r[i]] > 0) {
      var x := if i <= k then i else i + 1;
      assert r[i] == l[x] && l[x] in l;
    }
    forall i: nat, j: nat | i < j < |r| ensures r[i] in size' && r[j] in size' && r[i] + size'[r[i]] < r[j] {
      GapDropped(l, size, size', k, i, j);
    }
  }

  // The units.

  lemma TileInsert(base: nat, l: seq<nat>, size: map<nat, nat>, alloc: map<nat, nat>, owner: map<nat, nat>, b: nat, k: nat)
    requires TileOk(base, l, size, alloc, owner) && b in alloc && k < |l|
    ensures TileOk(base, Inserted(l, k, b), size, alloc - {b}, owner)
  {
    InsertedHas(l, k, b);
    hide Inserted;
  }

  /** Two neighbouring blocks x and y become one free block, at x. */
  lemma TileMerge(base: nat, l: seq<nat>, r: seq<nat>, size: map<nat, nat>, size': map<nat, nat>, alloc: map<nat, nat>, owner: map<nat, nat>, x: nat, y: nat)
    requires TileOk(base, l, size, alloc, owner) && x in size && y in size && x + size[x] == y && base < x
    requires (x in l || x in alloc) && (y in l || y in alloc) && size[x] > 0 && size[y] > 0
    requires forall a :: a in r <==> (a in l && a != y) || a == x
    requires size'.Keys == size.Keys && (forall a :: a in size && a != x ==> size'[a] == size[a]) && size'[x] == size[x] + size[y]
    ensures TileOk(base, r, size', alloc - {x, y}, Relabel(owner, y, x))
  {
    var owner' := Relabel(owner, y, x);
    forall u | u in owner' ensures Inside(size', owner'[u], u) {
      assert Inside(size, owner[u], u);
    }
    forall a: nat, u: nat | Inside(size', a, u) && (a in r || a in alloc - {x, y}) ensures u in owner' && owner'[u] == a {
      if a == x {
        assert Inside(size, x, u) || Inside(size, y, u);
      } else {
        assert Inside(size, a, u);
        assert a != y;
      }
    }
  }

  // ---------------------------------------------------------------- the four ways to free

  lemma FreeAlone(base: nat, l: seq<nat>, ptr: map<nat, nat>, size: map<nat, nat>, alloc: map<nat, nat>, owner: map<nat, nat>, bp: nat, k: nat)
    requires Returning(base, l, ptr, size, alloc, owner, bp, k)
    requires l[k] + size[l[k]] != bp && (k + 1 < |l| ==> bp + size[bp] != l[k + 1])
    ensures HeapOk(base, Inserted(l, k, bp), ptr[bp := l[Next(k, |l|)]][l[k] := bp], size, alloc - {bp}, owner)
  {
    Apart(base, l, ptr, size, alloc, owner, bp, k);
    ListInsert(base, l, ptr, size, bp, k);
    TileInsert(base, l, size, alloc, owner, bp, k);
  }

  lemma FreeUp(base: nat, l: seq<nat>, ptr: map<nat, nat>, size: map<nat, nat>, alloc: map<nat, nat>, owner: map<nat, nat>, bp: nat, k: nat)
    requires Returning(base, l, ptr, size, alloc, owner, bp, k)
    requires l[k] + size[l[k]] != bp && k + 1 < |l| && bp + size[bp] == l[k + 1]
    ensures l[k + 1] in ptr
    ensures HeapOk(base, l[k + 1 := bp], ptr[bp := ptr[l[k + 1]]][l[k] := bp], size[bp := size[bp] + size[l[k + 1]]],
                   alloc - {bp, l[k + 1]}, Relabel(owner, l[k + 1], bp))
  {
    Apart(base, l, ptr, size, alloc, owner, bp, k);
    ListReplace(base, l, ptr, size, bp, k);
    ReplacedHas(l, k + 1, bp);
    TileMerge(base, l, l[k + 1 := bp], size, size[bp := size[bp] + size[l[k + 1]]], alloc, owner, bp, l[k + 1]);
  }

  lemma FreeDown(base: nat, l: seq<nat>, ptr: map<nat, nat>, size: map<nat, nat>, alloc: map<nat, nat>, owner: map<nat, nat>, bp: nat, k: nat)
    requires Returning(base, l, ptr, size, alloc, owner, bp, k)
    requires l[k] + size[l[k]] == bp && (k + 1 < |l| ==> bp + size[bp] != l[k + 1])
    ensures HeapOk(base, l, ptr[bp := l[Next(k, |l|)]][l[k] := l[Next(k, |l|)]], size[l[k] := size[l[k]] + size[bp]],
                   alloc - {l[k], bp}, Relabel(owner, bp, l[k]))
  {
    Apart(base, l, ptr, size, alloc, owner, bp, k);
    assert k > 0;
    ListGrow(base, l, ptr, size, bp, k);
    TileMerge(base, l, l, size, size[l[k] := size[l[k]] + size[bp]], alloc, owner, l[k], bp);
  }

  lemma FreeBoth(base: nat, l: seq<nat>, ptr: map<nat, nat>, size: map<nat, nat>, alloc: map<nat, nat>, owner: map<nat, nat>, bp: nat, k: nat, size': map<nat, nat>)
    requires Returning(base, l, ptr, size, alloc, owner, bp, k)
    requires l[k] + size[l[k]] == bp && k + 1 < |l| && bp + size[bp] == l[k + 1]
    requires size' == size[bp := size[bp] + size[l[k + 1]]][l[k] := size[l[k]] + (size[bp] + size[l[k + 1]])]
    ensures l[k + 1] in ptr
    ensures HeapOk(base, Dropped(l, k + 1), ptr[bp := ptr[l[k + 1]]][l[k] := ptr[l[k + 1]]], size',
                   alloc - {bp, l[k + 1]} - {l[k], bp}, Relabel(Relabel(owner, l[k + 1], bp), bp, l[k]))
  {
    Apart(base, l, ptr, size, alloc, owner, bp, k);
    assert k > 0;
    ListJoin(base, l, ptr, size, bp, k, size');
    ReplacedHas(l, k + 1, bp);
    DroppedHas(l, k + 1);
    var n, r := l[k + 1], l[k + 1 := bp];
    var size1 := size[bp := size[bp] + size[n]];
    TileMerge(base, l, r, size, size1, alloc, owner, bp, n);
    TileMerge(base, r, Dropped(l, k + 1), size1, size', alloc - {bp, n}, Relabel(owner, n, bp), l[k], bp);
  }

  ghost predicate HeapOk(base: nat, l: seq<nat>, ptr: map<nat, nat>, size: map<nat, nat>, alloc: map<nat, nat>, owner: map<nat, nat>) {
    ListOk(base, l, ptr, size) && TileOk(base, l, size, alloc, owner)
  }

  // ---------------------------------------------------------------- taking a block

  lemma LinkTaken(l: seq<nat>, ptr: map<nat, nat>, i: nat, j: nat)
    requires Sorted(l) && 0 < i < |l| && j < |l| - 1 && forall x :: 0 <= x < |l| ==> Linked(l, ptr, x)
    ensures l[i] in ptr && Linked(Dropped(l, i), ptr[l[i - 1] := ptr[l[i]]], j)
  {
    assert Linked(l, ptr, i);
    if j < i {
      assert Linked(l, ptr, j);
    } else {
      assert Linked(l, ptr, j + 1);
    }
  }

  /** A block that fits exactly leaves the list. */
  lemma TakeWhole(base: nat, l: seq<nat>, ptr: map<nat, nat>, size: map<nat, nat>, alloc: map<nat, nat>, owner: map<nat, nat>, i: nat)
    requires HeapOk(base, l, ptr, size, alloc, owner) && 0 < i < |l|
    ensures l[i] in ptr
    ensures HeapOk(base, Dropped(l, i), ptr[l[i - 1] := ptr[l[i]]], size, alloc[l[i] := size[l[i]]], owner)
  {
    assert Linked(l, ptr, i);
    var r, ptr' := Dropped(l, i), ptr[l[i - 1] := ptr[l[i]]];
    forall j: nat | j < |r| ensures Linked(r, ptr', j) {
      LinkTaken(l, ptr, i, j);
    }
    TakenGaps(base, l, ptr, size, i);
    Assemble(base, r, ptr', size);
    DroppedHas(l, i);
  }

  lemma TakenGaps(base: nat, l: seq<nat>, ptr: map<nat, nat>, size: map<nat, nat>, i: nat)
    requires ListOk(base, l, ptr, size) && 0 < i < |l|
    ensures Gaps(Dropped(l, i), size) && Positive(Dropped(l, i), size)
  {
    hide Linked;
    var r := Dropped(l, i);
    forall x: nat | x < |r| ensures r[x] in size && (x > 0 ==> size[r[x]] > 0) {
      assert r[x] == l[if x < i then x else x + 1];
    }
    forall x: nat, y: nat | x < y < |r| ensures r[x] + size[r[x]] < r[y] {
      assert r[x] == l[if x < i then x else x + 1] && r[y] == l[if y < i then y else y + 1];
    }
  }

  function Carved(owner: map<nat, nat>, q: nat, n: nat): (r: map<nat, nat>)
    ensures r.Keys == owner.Keys
  {
    map u | u in owner :: if q <= u < q + n then q else owner[u]
  }

  /** Free blocks may get smaller. */
  lemma ListShrink(base: nat, l: seq<nat>, ptr: map<nat, nat>, size: map<nat, nat>, size': map<nat, nat>)
    requires ListOk(base, l, ptr, size)
    requires forall j :: 0 <= j < |l| ==> l[j] in size' && size'[l[j]] <= size[l[j]] && (j > 0 ==> size'[l[j]] > 0)
    ensures ListOk(base, l, ptr, size')
  {
  }

  /** The first unit of a block belongs to it. */
  lemma BlockStarts(base: nat, l: seq<nat>, ptr: map<nat, nat>, size: map<nat, nat>, alloc: map<nat, nat>, owner: map<nat, nat>, q: nat)
    requires HeapOk(base, l, ptr, size, alloc, owner) && base < q
    ensures q in alloc || q in l ==> q in owner && owner[q] == q
  {
    hide Linked;
    if q in alloc {
      assert Inside(size, q, q);
    } else if q in l {
      var j :| 0 <= j < |l| && l[j] == q;
      assert Inside(size, q, q);
    }
  }

  lemma TileCarve(base: nat, l: seq<nat>, size: map<nat, nat>, alloc: map<nat, nat>, owner: map<nat, nat>, p: nat, n: nat, q: nat, size': map<nat, nat>)
    requires TileOk(base, l, size, alloc, owner) && p in l && p in size && base < p && 0 < n < size[p] && q == p + (size[p] - n)
    requires q !in alloc && q !in l && size' == size[p := size[p] - n][q := n]
    ensures TileOk(base, l, size', alloc[q := n], Carved(owner, q, n))
  {
    var owner' := Carved(owner, q, n);
    forall u | u in owner' ensures Inside(size', owner'[u], u) && base < owner'[u] {
      assert Inside(size, owner[u], u);
      if q <= u < q + n {
        assert Inside(size, p, u);
      }
    }
    forall a: nat, u: nat | Inside(size', a, u) && (a in l || a in alloc[q := n]) ensures u in owner' && owner'[u] == a {
      if a == q {
        assert Inside(size, p, u);
      } else {
        assert Inside(size, a, u);
        if q <= u < q + n {
          assert Inside(size, p, u);
        }
      }
    }
  }

  /** The tail of a larger block is cut off. */
  lemma TakeTail(base: nat, l: seq<nat>, ptr: map<nat, nat>, size: map<nat, nat>, alloc: map<nat, nat>, owner: map<nat, nat>, i: nat, n: nat, q: nat, size': map<nat, nat>)
    requires HeapOk(base, l, ptr, size, alloc, owner) && i < |l| && 0 < n < size[l[i]] && q == l[i] + (size[l[i]] - n)
    requires size' == size[l[i] := size[l[i]] - n][q := n]
    ensures HeapOk(base, l, ptr, size', alloc[q := n], Carved(owner, q, n)) && q !in alloc && q !in l
  {
    var p := l[i];
    assert Inside(size, p, q);
    assert base < p;
    BlockStarts(base, l, ptr, size, alloc, owner, q);
    TileCarve(base, l, size, alloc, owner, p, n, q, size');
    hide TileOk, Linked;
    forall j | 0 <= j < |l| ensures l[j] in size' && size'[l[j]] <= size[l[j]] && (j > 0 ==> size'[l[j]] > 0) {
      assert l[j] in l;
    }
    ListShrink(base, l, ptr, size, size');
  }

  lemma TileExtend(base: nat, l: seq<nat>, size: map<nat, nat>, alloc: map<nat, nat>, owner: map<nat, nat>, hp: nat, n: nat)
    requires TileOk(base, l, size, alloc, owner) && base < hp && 0 < n && hp !in l && hp !in alloc
    requires forall u :: u in owner ==> u < hp
    ensures TileOk(base, l, size[hp := n], alloc[hp := n], owner + Region(hp, n))
  {
    hide Region;
    var size', owner' := size[hp := n], owner + Region(hp, n);
    forall u | u in owner' ensures Inside(size', owner'[u], u) && base < owner'[u] {
      if u in owner {
        assert Inside(size, owner[u], u);
      }
    }
    forall a: nat, u: nat | Inside(size', a, u) && (a in l || a in alloc[hp := n]) ensures u in owner' && owner'[u] == a {
      if a != hp {
        assert Inside(size, a, u);
      }
    }
  }

  /** New memory, as one allocated block. */
  lemma Extend(base: nat, l: seq<nat>, ptr: map<nat, nat>, size: map<nat, nat>, alloc: map<nat, nat>, owner: map<nat, nat>, hp: nat, n: nat)
    requires HeapOk(base, l, ptr, size, alloc, owner) && base < hp && 0 < n
    requires forall u :: u in owner ==> u < hp
    ensures HeapOk(base, l, ptr, size[hp := n], alloc[hp := n], owner + Region(hp, n)) && hp !in l && hp !in alloc
  {
    BlockStarts(base, l, ptr, size, alloc, owner, hp);
    TileExtend(base, l, size, alloc, owner, hp, n);
    hide TileOk, Linked;
    forall j | 0 <= j < |l| ensures l[j] in size[hp := n] && size[hp := n][l[j]] == size[l[j]] {
      assert l[j] in l;
    }
    ListShrink(base, l, ptr, size, size[hp := n]);
  }

  function Region(hp: nat, n: nat): (r: map<nat, nat>)
    ensures forall u :: u in r <==> hp <= u < hp + n
    ensures forall u :: u in r ==> r[u] == hp
  {
    if n == 0 then map[] else Region(hp, n - 1)[hp + (n - 1) := hp]
  }

  // ---------------------------------------------------------------- the allocator

  class Heap {
    /** the static header that starts the list; it lies below the heap */
    const base: nat
    /** the fields of the headers */
    var ptr: map<nat, nat>
    var size: map<nat, nat>
    /** where the last search ended; 0 before the first call */
    var freep: nat
    /** the break: sbrk hands out memory from here up */
    var brk: nat
    /** the list, the allocated blocks and the block of each unit obtained */
    ghost var l: seq<nat>
    ghost var alloc: map<nat, nat>
    ghost var owner: map<nat, nat>

    ghost predicate Valid()
      reads this
    {
      && 0 < base < brk && (forall u :: u in owner ==> u < brk)
      && if freep == 0 then alloc == map[] && owner == map[] else HeapOk(base, l, ptr, size, alloc, owner) && freep in l
    }

    constructor (base: nat, brk: nat)
      requires 0 < base < brk
      ensures Valid() && this.base == base && alloc == map[] && owner == map[]
    {
      this.base, this.brk, freep := base, brk, 0;
      ptr, size := map[], map[];
      l, alloc, owner := [], map[], map[];
    }

    /** The free block after which bp belongs. */
    method Search(bp: nat) returns (p: nat, ghost k: nat)
      requires Valid() && freep != 0 && base < bp && bp !in l
      ensures Position(l, bp, k) && p == l[k]
    {
      hide TileOk;
      k := PositionExists(l, bp);
      p := freep;
      ghost var i :| 0 <= i < |l| && l[i] == freep;
      while !(bp > p && bp < ptr[p])
        invariant 0 <= i < |l| && p == l[i] && p in ptr
        decreases Steps(i, k, |l|)
      {
        assert Linked(l, ptr, i);
        if p >= ptr[p] && (bp > p || bp < ptr[p]) {
          break;
        }
        p := ptr[p];
        i := Next(i, |l|);
      }
      assert Linked(l, ptr, i);
    }

    /** Give back the block whose memory starts at ap.  at: the free block that its
        units belong to then. */
    method Free(ap: nat) returns (ghost at: nat)
      requires Valid() && freep != 0 && ap > 0 && ap - 1 in alloc
      modifies this`ptr, this`size, this`freep, this`l, this`alloc, this`owner
      ensures Valid() && freep != 0 && alloc == old(alloc) - {ap - 1} && owner.Keys == old(owner.Keys)
      ensures at in l && forall u :: u in owner && old(owner)[u] == ap - 1 ==> owner[u] == at
    {
      var bp := ap - 1;
      BlockStarts(base, l, ptr, size, alloc, owner, bp);
      var p;
      ghost var k;
      p, k := Search(bp);
      at := Insert(bp, p, k);
      freep := p;
    }

    /** Link block bp into the list after p, joining it with its neighbours. */
    method Insert(bp: nat, p: nat, ghost k: nat) returns (ghost at: nat)
      requires Returning(base, l, ptr, size, alloc, owner, bp, k) && p == l[k]
      modifies this`ptr, this`size, this`l, this`alloc, this`owner
      ensures HeapOk(base, l, ptr, size, alloc, owner) && p in l && alloc == old(alloc) - {bp} && owner.Keys == old(owner.Keys)
      ensures at in l && forall u :: u in owner && old(owner)[u] == bp ==> owner[u] == at
    {
      Apart(base, l, ptr, size, alloc, owner, bp, k);
      assert Linked(l, ptr, k);
      hide TileOk, Linked;
      var next := ptr[p];
      ghost var up, down := bp + size[bp] == next, p + size[p] == bp;
      ghost var l0, ptr0, size0, alloc0, owner0 := l, ptr, size, alloc, owner;
      if bp + size[bp] == next {
        size := size[bp := size[bp] + size[next]];
        ptr := ptr[bp := ptr[next]];
      } else {
        ptr := ptr[bp := next];
      }
      if p + size[p] == bp {
        size := size[p := size[p] + size[bp]];
        ptr := ptr[p := ptr[bp]];
      } else {
        ptr := ptr[p := bp];
      }
      l, owner, at := InsertGhost(base, l0, ptr0, size0, alloc0, owner0, bp, k, ptr, size);
      alloc := alloc - {bp};
    }

    /** More memory from sbrk, given back as a free block.  fresh: what sbrk returns,
        at or above the break, or nothing. */
    method Morecore(nu: nat, more: Option<nat>) returns (ok: bool, ghost at: nat)
      requires Valid() && freep != 0 && 0 < nu && (more.Some? ==> more.value >= brk)
      modifies this
      ensures Valid() && freep != 0 && ok == more.Some? && alloc == old(alloc)
      ensures !ok ==> l == old(l) && size == old(size) && ptr == old(ptr) && freep == old(freep) && owner == old(owner)
      ensures ok ==> at in l && at in size && size[at] >= nu
      ensures ok ==> owner.Keys == old(owner.Keys) + Region(more.value, AtLeast(nu)).Keys
    {
      hide TileOk, ListOk, Region;
      at := 0;
      if more.None? {
        return false, at;
      }
      var n, hp := AtLeast(nu), more.value;
      Extend(base, l, ptr, size, alloc, owner, hp, n);
      brk := hp + n;
      size := size[hp := n];
      alloc := alloc[hp := n];
      owner := owner + Region(hp, n);
      at := Free(hp + 1);
      ok := true;
      assert alloc == old(alloc);
      HoldsRegion(base, l, ptr, size, alloc, owner, hp, n, at);
    }

    /** Allocate nbytes bytes: the memory after the header of the block at bp. */
    method Malloc(nbytes: nat, more: Option<nat>) returns (r: Option<nat>, ghost bp: nat)
      requires Valid() && (more.Some? ==> more.value >= brk) && AtLeast(Units(nbytes)) * UNIT <= MAXINT
      modifies this
      ensures Valid() && freep != 0
      ensures r.None? ==> more.None? && alloc == old(alloc) && owner == old(owner) && NoneFits(l, size, Units(nbytes))
      ensures r.Some? ==> r.value == bp + 1 && bp !in old(alloc) && alloc == old(alloc)[bp := Units(nbytes)]
      ensures owner.Keys == old(owner.Keys) || (more.Some? && owner.Keys == old(owner.Keys) + Region(more.value, AtLeast(Units(nbytes))).Keys)
      ensures owner.Keys != old(owner.Keys) && old(freep) != 0 ==> NoneFits(old(l), old(size), Units(nbytes))
    {
      hide TileOk, ListOk, Region, Carved, Dropped, Seen, NoneFits, Units;
      var n := Units(nbytes);
      if freep == 0 {
        Init();
      }
      ghost var f :| 0 <= f < |l| && l[f] == freep;
      var prevp := freep;
      var p := Follow(prevp, f);
      ghost var i, j, called := Next(f, |l|), f, false;
      SeenNone(l, size, n, f);
      while true
        invariant Valid() && freep != 0 && alloc == old(alloc) && 0 <= f < |l| && l[f] == freep && 0 <= i < |l| && 0 <= j < |l|
        invariant p == l[i] && prevp == l[j] && Next(j, |l|) == i && Seen(l, size, n, f, i)
        invariant if called then !NoneFits(l, size, n) && (old(freep) != 0 ==> NoneFits(old(l), old(size), n)) else old(freep) != 0 ==> l == old(l) && size == old(size)
        invariant if called then more.Some? && owner.Keys == old(owner.Keys) + Region(more.value, AtLeast(n)).Keys else owner == old(owner)
        invariant !called ==> (more.Some? ==> more.value >= brk)
        decreases !called, |l| - Steps(Next(f, |l|), i, |l|)
      {
        HasSize(base, l, ptr, size, i);
        if size[p] >= n {
          var q := Take(p, prevp, n, i, j);
          return Some(q + 1), q;
        }
        if p == freep {
          AllSeen(base, l, ptr, size, n, f, i);
          assert !called;
          var ok;
          ghost var at;
          ok, at := Morecore(n, more);
          if !ok {
            return None, 0;
          }
          called := true;
          p := freep;
          f :| 0 <= f < |l| && l[f] == freep;
          SomeFits(l, size, n, at);
          SeenNone(l, size, n, f);
          i := f;
        } else {
          SeenNext(l, size, n, f, i);
        }
        prevp, j := p, i;
        p := Follow(p, i);
        i := Next(i, |l|);
      }
    }

    /** The first call: base alone makes the circle. */
    method Init()
      requires Valid() && freep == 0
      modifies this`ptr, this`size, this`freep, this`l
      ensures Valid() && freep != 0 && freep == base
    {
      ptr, size, freep, l := ptr[base := base], size[base := 0], base, [base];
      assert Linked(l, ptr, 0);
    }

    method Follow(p: nat, ghost i: nat) returns (q: nat)
      requires ListOk(base, l, ptr, size) && i < |l| && p == l[i]
      ensures q == l[Next(i, |l|)]
    {
      assert Linked(l, ptr, i);
      q := ptr[p];
    }

    /** Take n units from the block at p, which follows prevp in the list. */
    method Take(p: nat, prevp: nat, n: nat, ghost i: nat, ghost j: nat) returns (q: nat)
      requires Valid() && freep != 0 && 0 < n && i < |l| && j < |l| && p == l[i] && prevp == l[j] && Next(j, |l|) == i
      requires p in size && size[p] >= n
      modifies this`ptr, this`size, this`freep, this`l, this`alloc, this`owner
      ensures Valid() && freep != 0 && owner.Keys == old(owner.Keys)
      ensures q !in old(alloc) && alloc == old(alloc)[q := n]
    {
      hide TileOk, ListOk, Dropped, Carved;
      TakeFacts(base, l, ptr, size, alloc, owner, n, i, j);
      q := p;
      if size[p] == n {
        TakeWhole(base, l, ptr, size, alloc, owner, i);
        ptr := ptr[prevp := ptr[p]];
        assert Dropped(l, i)[j] == prevp;
        l, alloc := Dropped(l, i), alloc[p := n];
      } else {
        q := p + (size[p] - n);
        var size' := size[p := size[p] - n][q := n];
        TakeTail(base, l, ptr, size, alloc, owner, i, n, q, size');
        size := size';
        alloc, owner := alloc[q := n], Carved(owner, q, n);
      }
      freep := prevp;
    }
  }

  lemma TakeFacts(base: nat, l: seq<nat>, ptr: map<nat, nat>, size: map<nat, nat>, alloc: map<nat, nat>, owner: map<nat, nat>, n: nat, i: nat, j: nat)
    requires HeapOk(base, l, ptr, size, alloc, owner) && i < |l| && j < |l| && Next(j, |l|) == i && l[i] in size && 0 < n <= size[l[i]]
    ensures i > 0 && j == i - 1 && l[i] !in alloc && l[i] in ptr && base <= l[j] < l[i]
  {
    hide Linked;
    assert l[i] in l;
  }

  /** Header units for nbytes bytes and their header. */
  function Units(nbytes: nat): (n: nat)
    ensures n > 0 && (n - 1) * UNIT >= nbytes && (n - 2) * UNIT < nbytes
  {
    (nbytes + UNIT - 1) / UNIT + 1
  }

  ghost predicate NoneFits(l: seq<nat>, size: map<nat, nat>, n: nat) {
    forall x :: 0 <= x < |l| ==> l[x] in size && size[l[x]] < n
  }

  /** The search that started after element f has found the elements before i too
      small. */
  ghost predicate Seen(l: seq<nat>, size: map<nat, nat>, n: nat, f: nat, i: nat)
    requires f < |l| && i < |l|
  {
    forall x :: 0 <= x < |l| && Steps(Next(f, |l|), x, |l|) < Steps(Next(f, |l|), i, |l|) ==> l[x] in size && size[l[x]] < n
  }

  lemma HasSize(base: nat, l: seq<nat>, ptr: map<nat, nat>, size: map<nat, nat>, i: nat)
    requires ListOk(base, l, ptr, size) && i < |l|
    ensures l[i] in size
  {
  }

  lemma SeenNone(l: seq<nat>, size: map<nat, nat>, n: nat, f: nat)
    requires f < |l|
    ensures Seen(l, size, n, f, Next(f, |l|))
  {
  }

  lemma SeenNext(l: seq<nat>, size: map<nat, nat>, n: nat, f: nat, i: nat)
    requires f < |l| && i < |l| && i != f && Seen(l, size, n, f, i) && l[i] in size && size[l[i]] < n
    ensures Seen(l, size, n, f, Next(i, |l|)) && Steps(Next(f, |l|), Next(i, |l|), |l|) == Steps(Next(f, |l|), i, |l|) + 1
  {
  }

  lemma AllSeen(base: nat, l: seq<nat>, ptr: map<nat, nat>, size: map<nat, nat>, n: nat, f: nat, i: nat)
    requires ListOk(base, l, ptr, size) && f < |l| && i < |l| && l[i] == l[f] && Seen(l, size, n, f, i) && l[i] in size && size[l[i]] < n
    ensures i == f && NoneFits(l, size, n)
  {
    hide Linked;
    assert i == f;
    forall x | 0 <= x < |l| ensures l[x] in size && size[l[x]] < n {
      assert x != f ==> Steps(Next(f, |l|), x, |l|) < Steps(Next(f, |l|), f, |l|);
    }
  }

  lemma SomeFits(l: seq<nat>, size: map<nat, nat>, n: nat, at: nat)
    requires at in l && at in size && size[at] >= n
    ensures !NoneFits(l, size, n)
  {
    var x :| 0 <= x < |l| && l[x] == at;
  }

  /** morecore never asks for less than CHUNK units. */
  function AtLeast(nu: nat): nat {
    if nu < CHUNK then CHUNK else nu
  }

  lemma HoldsRegion(base: nat, l: seq<nat>, ptr: map<nat, nat>, size: map<nat, nat>, alloc: map<nat, nat>, owner: map<nat, nat>, hp: nat, n: nat, at: nat)
    requires HeapOk(base, l, ptr, size, alloc, owner) && 0 < n && at in l
    requires forall u :: hp <= u < hp + n ==> u in owner && owner[u] == at
    ensures at in size && size[at] >= n
  {
    assert Inside(size, owner[hp], hp);
    assert Inside(size, owner[hp + (n - 1)], hp + (n - 1));
  }

  lemma Relabels(owner: map<nat, nat>, x: nat, y: nat)
    ensures forall u :: u in owner ==> Relabel(owner, x, y)[u] == if owner[u] == x then y else owner[u]
  {
  }

  lemma RelabelTwice(owner: map<nat, nat>, x: nat, y: nat, z: nat)
    ensures forall u :: u in owner && (owner[u] == x || owner[u] == y) ==> Relabel(Relabel(owner, x, y), y, z)[u] == z
  {
  }

  lemma Neighbours(base: nat, l: seq<nat>, ptr: map<nat, nat>, size: map<nat, nat>, alloc: map<nat, nat>, owner: map<nat, nat>, bp: nat, k: nat)
    requires Returning(base, l, ptr, size, alloc, owner, bp, k)
    ensures k < |l| && bp in size && l[k] in size && l[k] !in alloc && l[Next(k, |l|)] !in alloc
    ensures k + 1 == |l| ==> bp + size[bp] != l[Next(k, |l|)]
  {
    hide Linked;
    assert l[k] in l && l[Next(k, |l|)] in l;
  }

  lemma InsertGhost(base: nat, l: seq<nat>, ptr: map<nat, nat>, size: map<nat, nat>, alloc: map<nat, nat>, owner: map<nat, nat>, bp: nat, k: nat,
                    ptr': map<nat, nat>, size': map<nat, nat>)
    returns (r: seq<nat>, owner': map<nat, nat>, at: nat)
    requires Returning(base, l, ptr, size, alloc, owner, bp, k) && bp in size && l[Next(k, |l|)] in ptr && l[Next(k, |l|)] in size
    requires var p, next := l[k], l[Next(k, |l|)];
             var up, down := bp + size[bp] == next, p + size[p] == bp;
             var size1 := if up then size[bp := size[bp] + size[next]] else size;
             var link := if up then ptr[next] else next;
             size' == (if down then size1[p := size1[p] + size1[bp]] else size1) && ptr' == ptr[bp := link][p := if down then link else bp]
    ensures HeapOk(base, r, ptr', size', alloc - {bp}, owner') && l[k] in r && owner'.Keys == owner.Keys
    ensures at in r && forall u :: u in owner && owner[u] == bp ==> owner'[u] == at
  {
    hide Returning, HeapOk, Relabel;
    Neighbours(base, l, ptr, size, alloc, owner, bp, k);
    var p, next := l[k], l[Next(k, |l|)];
    var up, down := k + 1 < |l| && bp + size[bp] == l[k + 1], p + size[p] == bp;
    assert up <==> bp + size[bp] == next;
    if up && down {
      FreeBoth(base, l, ptr, size, alloc, owner, bp, k, size');
      r, owner', at := Dropped(l, k + 1), Relabel(Relabel(owner, next, bp), bp, p), p;
      RelabelTwice(owner, next, bp, p);
      assert r[k] == p;
      assert alloc - {bp, next} - {p, bp} == alloc - {bp};
    } else if up {
      FreeUp(base, l, ptr, size, alloc, owner, bp, k);
      r, owner', at := l[k + 1 := bp], Relabel(owner, next, bp), bp;
      Relabels(owner, next, bp);
      assert r[k] == p && r[k + 1] == bp;
      assert alloc - {bp, next} == alloc - {bp};
    } else if down {
      FreeDown(base, l, ptr, size, alloc, owner, bp, k);
      r, owner', at := l, Relabel(owner, bp, p), p;
      Relabels(owner, bp, p);
      assert alloc - {p, bp} == alloc - {bp};
    } else {
      FreeAlone(base, l, ptr, size, alloc, owner, bp, k);
      r, owner', at := Inserted(l, k, bp), owner, bp;
      assert r[k] == p && r[k + 1] == bp;
    }
  }
}
