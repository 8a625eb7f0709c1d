/** The buffer cache of kernel/bio.c: the least-recently-used list, and the promise that
    cache and disk together behave as one disk.  Each method below is one atomic step of a
    process, so any interleaving of processes is a sequence of calls. */
module Bio {

  datatype Option<T> = None | Some(value: T)

  /** The contents of a block. */
  type Block = int

  datatype Key = Key(dev: nat, blockno: nat)

  datatype Buf = Buf(dev: nat, blockno: nat, valid: bool, refcnt: nat, data: Block)

  function KeyOf(b: Buf): Key {
    Key(b.dev, b.blockno)
  }

  // ---------------------------------------------------------------- the list

  /** The position after i in a ring of n. */
  function Succ(i: nat, n: nat): nat {
    if i + 1 == n then 0 else i + 1
  }

  /** Element i of l and the one after it are neighbours. */
  predicate Linked(next: seq<nat>, prev: seq<nat>, l: seq<nat>, i: nat)
    requires i < |l|
  {
    var a, b := l[i], l[Succ(i, |l|)];
    a < |next| && b < |prev| && next[a] == b && prev[b] == a
  }

  /** l is the list head followed by the buffers of a cache of n, most recent first; some
      may be missing. */
  ghost predicate Ring(n: nat, next: seq<nat>, prev: seq<nat>, l: seq<nat>) {
    && |next| == |prev| == n + 1 && |l| > 0 && l[0] == n
    && (forall i :: 0 <= i < |l| ==> l[i] <= n)
    && (forall i, j :: 0 <= i < j < |l| ==> l[i] != l[j])
    && (forall i: nat :: i < |l| ==> Linked(next, prev, l, i))
  }

  ghost predicate Full(n: nat, l: seq<nat>) {
    forall b: nat :: b <= n ==> b in l
  }

  function Without(l: seq<nat>, k: nat): (r: seq<nat>)
    requires k < |l|
    ensures |r| == |l| - 1 && forall i :: 0 <= i < |r| ==> r[i] == if i < k then l[i] else l[i + 1]
  {
    l[..k] + l[k + 1..]
  }

  function InFront(l: seq<nat>, b: nat): (r: seq<nat>)
    requires |l| > 0
    ensures |r| == |l| + 1 && r[0] == l[0] && r[1] == b && forall i :: 2 <= i < |r| ==> r[i] == l[i - 1]
  {
    [l[0], b] + l[1..]
  }

  lemma InFrontIn(l: seq<nat>, b: nat)
    requires |l| > 0
    ensures forall x :: x in InFront(l, b) <==> x in l || x == b
  {
    var r := InFront(l, b);
    forall x | x in l ensures x in r {
      var i :| 0 <= i < |l| && l[i] == x;
      assert r[if i == 0 then 0 else i + 1] == x;
    }
    assert r[1] == b;
  }

  /** Taking element k out of the list. */
  lemma Unlinked(n: nat, next: seq<nat>, prev: seq<nat>, l: seq<nat>, k: nat, b: nat)
    requires Ring(n, next, prev, l) && 0 < k < |l| && l[k] == b && next[b] <= n && prev[b] <= n
    ensures Ring(n, next[prev[b] := next[b]], prev[next[b] := prev[b]], Without(l, k))
  {
    var next', prev', r := next[prev[b] := next[b]], prev[next[b] := prev[b]], Without(l, k);
    assert Linked(next, prev, l, k) && Linked(next, prev, l, k - 1);
    forall i: nat | i < |r| ensures Linked(next', prev', r, i) {
      UnlinkedAt(n, next, prev, l, k, b, i);
    }
  }

  lemma UnlinkedAt(n: nat, next: seq<nat>, prev: seq<nat>, l: seq<nat>, k: nat, b: nat, i: nat)
    requires Ring(n, next, prev, l) && 0 < k < |l| && l[k] == b && next[b] <= n && prev[b] <= n && i < |l| - 1
    ensures Linked(next[prev[b] := next[b]], prev[next[b] := prev[b]], Without(l, k), i)
  {
    assert Linked(next, prev, l, k) && Linked(next, prev, l, k - 1);
    var m := if i < k then i else i + 1;
    assert Linked(next, prev, l, m);
    if i == k - 1 {
      assert Succ(k - 1, |l|) == k;
    } else {
      assert Succ(m, |l|) != k;
    }
  }

  /** Putting b behind the head. */
  lemma Inserted(n: nat, next: seq<nat>, prev: seq<nat>, l: seq<nat>, b: nat)
    requires Ring(n, next, prev, l) && b < n && b !in l && next[n] <= n
    ensures Ring(n, next[b := next[n]][n := b], prev[b := n][next[n] := b], InFront(l, b))
  {
    var next', prev', r := next[b := next[n]][n := b], prev[b := n][next[n] := b], InFront(l, b);
    assert Linked(next, prev, l, 0);
    forall i: nat | i < |r| ensures Linked(next', prev', r, i) {
      InsertedAt(n, next, prev, l, b, i);
    }
  }

  lemma InsertedAt(n: nat, next: seq<nat>, prev: seq<nat>, l: seq<nat>, b: nat, i: nat)
    requires Ring(n, next, prev, l) && b < n && b !in l && next[n] <= n && i < |l| + 1
    ensures Linked(next[b := next[n]][n := b], prev[b := n][next[n] := b], InFront(l, b), i)
  {
    assert Linked(next, prev, l, 0);
    if i > 1 {
      assert Linked(next, prev, l, i - 1);
    }
  }

  lemma FullAgain(n: nat, l: seq<nat>, k: nat)
    requires Full(n, l) && 0 < k < |l|
    ensures Full(n, InFront(Without(l, k), l[k]))
  {
    var r := Without(l, k);
    var f := InFront(r, l[k]);
    forall b: nat | b <= n ensures b in f {
      assert b in l;
      var i :| 0 <= i < |l| && l[i] == b;
      if i == k {
        assert f[1] == b;
      } else {
        var j := if i < k then i else i - 1;
        assert r[j] == b;
        assert f[if j == 0 then 0 else j + 1] == b;
      }
    }
  }

  // ---------------------------------------------------------------- the contents

  /** What the processes are doing with the buffers: references without the lock, locks,
      pins of the log, buffers changed since they were last written, and the latest
      contents of every block. */
  datatype Use = Use(waiting: seq<nat>, locked: set<nat>, pinned: set<nat>, dirty: set<nat>, latest: map<Key, Block>)

  function One(b: bool): nat {
    if b then 1 else 0
  }

  /** Every reference is accounted for, and a changed buffer is locked or pinned. */
  ghost predicate Counted(bufs: seq<Buf>, u: Use) {
    && |u.waiting| == |bufs|
    && (forall i: nat :: i < |bufs| ==> bufs[i].refcnt == u.waiting[i] + One(i in u.locked) + One(i in u.pinned))
    && (forall i :: i in u.locked ==> i < |bufs|)
    && (forall i :: i in u.pinned ==> i < |bufs|)
    && (forall i :: i in u.dirty ==> i < |bufs| && bufs[i].valid && (i in u.locked || i in u.pinned))
  }

  /** No block is in two buffers.  Device 0 marks a buffer that was never used. */
  ghost predicate Unique(bufs: seq<Buf>) {
    forall i, j :: 0 <= i < j < |bufs| && bufs[i].dev != 0 ==> KeyOf(bufs[i]) != KeyOf(bufs[j])
  }

  predicate HoldsDirty(bufs: seq<Buf>, u: Use, k: Key) {
    exists i :: i in u.dirty && i < |bufs| && KeyOf(bufs[i]) == k
  }

  /** A valid buffer has the latest contents of its block, and so has the disk unless a
      buffer holding the block was changed. */
  ghost predicate Coherent(bufs: seq<Buf>, disk: map<Key, Block>, u: Use) {
    && disk.Keys == u.latest.Keys
    && (forall i :: 0 <= i < |bufs| && bufs[i].dev != 0 && bufs[i].valid ==> KeyOf(bufs[i]) in u.latest && bufs[i].data == u.latest[KeyOf(bufs[i])])
    && (forall k :: k in disk && k.dev != 0 && !HoldsDirty(bufs, u, k) ==> disk[k] == u.latest[k])
  }

  ghost predicate CacheOk(bufs: seq<Buf>, disk: map<Key, Block>, u: Use) {
    Counted(bufs, u) && Unique(bufs) && Coherent(bufs, disk, u)
  }

  /** An unused buffer holds nothing that is not on the disk. */
  lemma UnusedIsClean(bufs: seq<Buf>, disk: map<Key, Block>, u: Use, b: nat)
    requires CacheOk(bufs, disk, u) && b < |bufs| && bufs[b].refcnt == 0
    ensures b !in u.dirty && b !in u.locked && b !in u.pinned
    ensures bufs[b].valid && bufs[b].dev != 0 ==> KeyOf(bufs[b]) in disk && bufs[b].data == disk[KeyOf(bufs[b])]
  {
    if bufs[b].valid && bufs[b].dev != 0 {
      forall i | i in u.dirty && i < |bufs| ensures KeyOf(bufs[i]) != KeyOf(bufs[b]) {
        assert bufs[i].refcnt > 0;
      }
    }
  }

  function Retain(bufs: seq<Buf>, b: nat): seq<Buf>
    requires b < |bufs|
  {
    bufs[b := bufs[b].(refcnt := bufs[b].refcnt + 1)]
  }

  function Recycle(bufs: seq<Buf>, b: nat, k: Key): seq<Buf>
    requires b < |bufs|
  {
    bufs[b := Buf(k.dev, k.blockno, false, 1, bufs[b].data)]
  }

  lemma Retained(bufs: seq<Buf>, disk: map<Key, Block>, u: Use, b: nat)
    requires CacheOk(bufs, disk, u) && b < |bufs| && b < |u.waiting|
    ensures CacheOk(Retain(bufs, b), disk, u.(waiting := u.waiting[b := u.waiting[b] + 1]))
  {
    var bufs', u' := Retain(bufs, b), u.(waiting := u.waiting[b := u.waiting[b] + 1]);
    SameKeys(bufs, disk, u, bufs', u');
  }

  /** Contents and identities are the same; only reference counts differ. */
  lemma SameKeys(bufs: seq<Buf>, disk: map<Key, Block>, u: Use, bufs': seq<Buf>, u': Use)
    requires Unique(bufs) && Coherent(bufs, disk, u) && |bufs'| == |bufs| && u'.dirty == u.dirty && u'.latest == u.latest
    requires forall i :: 0 <= i < |bufs| ==> bufs'[i] == bufs[i].(refcnt := bufs'[i].refcnt)
    ensures Unique(bufs') && Coherent(bufs', disk, u')
  {
    forall i, j | 0 <= i < j < |bufs'| && bufs'[i].dev != 0 ensures KeyOf(bufs'[i]) != KeyOf(bufs'[j]) {
      assert bufs[i].dev != 0 && KeyOf(bufs[i]) != KeyOf(bufs[j]);
    }
    forall k | k in disk && k.dev != 0 && !HoldsDirty(bufs', u', k) ensures disk[k] == u'.latest[k] {
      forall i | i in u.dirty && i < |bufs| ensures KeyOf(bufs[i]) != k {
        assert KeyOf(bufs'[i]) != k;
      }
    }
  }

  lemma Recycled(bufs: seq<Buf>, disk: map<Key, Block>, u: Use, b: nat, k: Key)
    requires CacheOk(bufs, disk, u) && b < |bufs| && b < |u.waiting| && bufs[b].refcnt == 0 && forall i :: 0 <= i < |bufs| ==> KeyOf(bufs[i]) != k
    ensures CacheOk(Recycle(bufs, b, k), disk, u.(waiting := u.waiting[b := u.waiting[b] + 1]))
  {
    UnusedIsClean(bufs, disk, u, b);
    var bufs', u' := Recycle(bufs, b, k), u.(waiting := u.waiting[b := u.waiting[b] + 1]);
    forall i, j | 0 <= i < j < |bufs'| && bufs'[i].dev != 0 ensures KeyOf(bufs'[i]) != KeyOf(bufs'[j]) {
      assert KeyOf(bufs[i]) != k && KeyOf(bufs[j]) != k;
    }
    forall x | x in disk && x.dev != 0 && !HoldsDirty(bufs', u', x) ensures disk[x] == u'.latest[x] {
      forall i | i in u.dirty && i < |bufs| ensures KeyOf(bufs[i]) != x {
        assert KeyOf(bufs'[i]) != x;
      }
    }
  }

  /** Steps that leave identities alone: only buffer b and its block are affected. */
  ghost predicate OnlyBuffer(bufs: seq<Buf>, bufs': seq<Buf>, b: nat) {
    && |bufs'| == |bufs| && b < |bufs| && KeyOf(bufs'[b]) == KeyOf(bufs[b])
    && forall i :: 0 <= i < |bufs| && i != b ==> bufs'[i] == bufs[i]
  }

  lemma StillUnique(bufs: seq<Buf>, bufs': seq<Buf>, b: nat)
    requires Unique(bufs) && OnlyBuffer(bufs, bufs', b)
    ensures Unique(bufs')
  {
    forall i, j | 0 <= i < j < |bufs'| && bufs'[i].dev != 0 ensures KeyOf(bufs'[i]) != KeyOf(bufs'[j]) {
      assert bufs[i].dev != 0 && KeyOf(bufs[i]) != KeyOf(bufs[j]);
    }
  }

  lemma Apart(bufs: seq<Buf>, i: nat, j: nat)
    requires Unique(bufs) && i < |bufs| && j < |bufs| && i != j && bufs[i].dev != 0
    ensures KeyOf(bufs[i]) != KeyOf(bufs[j])
  {
    if j < i && bufs[j].dev != 0 {
      assert KeyOf(bufs[j]) != KeyOf(bufs[i]);
    }
  }

  /** A changed buffer is valid, so what it holds is the latest. */
  lemma Filled(bufs: seq<Buf>, disk: map<Key, Block>, u: Use, b: nat, bufs': seq<Buf>)
    requires CacheOk(bufs, disk, u) && b < |bufs| && !bufs[b].valid && KeyOf(bufs[b]) in disk
    requires bufs' == bufs[b := bufs[b].(valid := true, data := disk[KeyOf(bufs[b])])]
    ensures CacheOk(bufs', disk, u)
  {
    StillUnique(bufs, bufs', b);
    var k := KeyOf(bufs[b]);
    if k.dev != 0 {
      forall i | i in u.dirty && i < |bufs| ensures KeyOf(bufs[i]) != k {
        Apart(bufs, b, i);
      }
      assert disk[k] == u.latest[k];
    }
    SameDirtyKeys(bufs, disk, u, bufs', u);
  }

  lemma SameDirtyKeys(bufs: seq<Buf>, disk: map<Key, Block>, u: Use, bufs': seq<Buf>, u': Use)
    requires Coherent(bufs, disk, u) && |bufs'| == |bufs| && u.dirty <= u'.dirty && u'.latest == u.latest
    requires forall i :: 0 <= i < |bufs| ==> KeyOf(bufs'[i]) == KeyOf(bufs[i])
    ensures forall k :: k in disk && k.dev != 0 && !HoldsDirty(bufs', u', k) ==> disk[k] == u'.latest[k]
  {
    forall k | k in disk && k.dev != 0 && !HoldsDirty(bufs', u', k) ensures disk[k] == u'.latest[k] {
      forall i | i in u.dirty && i < |bufs| ensures KeyOf(bufs[i]) != k {
        assert KeyOf(bufs'[i]) != k;
      }
    }
  }

  /** The holder changes the contents of its buffer. */
  lemma Changed(bufs: seq<Buf>, disk: map<Key, Block>, u: Use, b: nat, v: Block, bufs': seq<Buf>, u': Use)
    requires CacheOk(bufs, disk, u) && b in u.locked && b < |bufs| && bufs[b].valid && KeyOf(bufs[b]) in disk
    requires bufs' == bufs[b := bufs[b].(data := v)]
    requires u' == u.(dirty := u.dirty + {b}, latest := u.latest[KeyOf(bufs[b]) := v])
    ensures CacheOk(bufs', disk, u')
  {
    StillUnique(bufs, bufs', b);
    var k := KeyOf(bufs[b]);
    forall i | 0 <= i < |bufs'| && bufs'[i].dev != 0 && bufs'[i].valid
      ensures KeyOf(bufs'[i]) in u'.latest && bufs'[i].data == u'.latest[KeyOf(bufs'[i])]
    {
      if i != b {
        Apart(bufs, i, b);
      }
    }
    forall x | x in disk && x.dev != 0 && !HoldsDirty(bufs', u', x) ensures disk[x] == u'.latest[x] {
      assert b in u'.dirty;
      assert x != k;
      forall i | i in u.dirty && i < |bufs| ensures KeyOf(bufs[i]) != x {
        assert KeyOf(bufs'[i]) != x;
      }
    }
  }

  /** The contents of a buffer go to the disk. */
  lemma Written(bufs: seq<Buf>, disk: map<Key, Block>, u: Use, b: nat, disk': map<Key, Block>, u': Use)
    requires CacheOk(bufs, disk, u) && b < |bufs| && bufs[b].valid && KeyOf(bufs[b]) in disk && bufs[b].dev != 0
    requires disk' == disk[KeyOf(bufs[b]) := bufs[b].data] && u' == u.(dirty := u.dirty - {b})
    ensures CacheOk(bufs, disk', u')
  {
    forall x | x in disk' && x.dev != 0 && !HoldsDirty(bufs, u', x) ensures disk'[x] == u'.latest[x] {
      if x != KeyOf(bufs[b]) {
        forall i | i in u.dirty && i < |bufs| ensures KeyOf(bufs[i]) != x {
          assert i != b ==> i in u'.dirty;
        }
      }
    }
  }

  // ---------------------------------------------------------------- the cache

  class BufferCache {
    /** the number of buffers; n is also the index of the list head */
    const n: nat
    var next: seq<nat>
    var prev: seq<nat>
    var bufs: seq<Buf>
    var disk: map<Key, Block>
    ghost var l: seq<nat>
    ghost var u: Use

    ghost predicate Valid()
      reads this
    {
      && |bufs| == n && Ring(n, next, prev, l) && Full(n, l)
      && CacheOk(bufs, disk, u)
    }

    /** binit */
    constructor (n: nat, disk: map<Key, Block>)
      ensures Valid() && this.n == n && this.disk == disk && u.latest == disk && forall b :: 0 <= b < n ==> bufs[b].refcnt == 0
    {
      this.n, this.disk := n, disk;
      next, prev := seq(n + 1, _ => n), seq(n + 1, _ => n);
      bufs := seq(n, _ => Buf(0, 0, false, 0, 0));
      l, u := [n], Use(seq(n, _ => 0), {}, {}, {}, disk);
      new;
      var b := 0;
      while b < n
        invariant b <= n && Ring(n, next, prev, l) && (forall i: nat :: i < b || i == n ==> i in l) && (forall i: nat :: b <= i < n ==> i !in l)
        invariant bufs == seq(n, _ => Buf(0, 0, false, 0, 0)) && u == Use(seq(n, _ => 0), {}, {}, {}, disk) && this.disk == disk
      {
        ghost var l0 := l;
        Front(b);
        InFrontIn(l0, b);
        b := b + 1;
      }
    }

    /** Put b behind the list head. */
    method Front(b: nat)
      requires Ring(n, next, prev, l) && b < n && b !in l
      modifies this`next, this`prev, this`l
      ensures Ring(n, next, prev, l) && l == InFront(old(l), b)
    {
      assert Linked(next, prev, l, 0);
      Inserted(n, next, prev, l, b);
      var first := next[n];
      next := next[b := first];
      prev := prev[b := n];
      prev := prev[first := b];
      next := next[n := b];
      l := InFront(l, b);
    }

    /** The critical section of bget: the buffer of the block, with one more reference; if
        there is none, the unused buffer that was released longest ago. */
    method Get(dev: nat, blockno: nat) returns (r: Option<nat>)
      requires Valid()
      modifies this`bufs, this`u
      ensures Valid() && u == old(u).(waiting := u.waiting)
      ensures r.None? ==> bufs == old(bufs) && u == old(u) && forall i :: 0 <= i < n ==> bufs[i].refcnt > 0 && KeyOf(bufs[i]) != Key(dev, blockno)
      ensures r.Some? ==> r.value < n && KeyOf(bufs[r.value]) == Key(dev, blockno)
      ensures r.Some? ==> |old(u).waiting| == n && u.waiting == old(u).waiting[r.value := old(u).waiting[r.value] + 1]
      ensures r.Some? && KeyOf(old(bufs)[r.value]) == Key(dev, blockno) ==> bufs == Retain(old(bufs), r.value)
      ensures r.Some? && KeyOf(old(bufs)[r.value]) != Key(dev, blockno) ==>
                && bufs == Recycle(old(bufs), r.value, Key(dev, blockno)) && old(bufs)[r.value].refcnt == 0
                && (forall i :: 0 <= i < n ==> KeyOf(old(bufs)[i]) != Key(dev, blockno))
                && exists p :: 0 < p < |l| && l[p] == r.value && forall q :: p < q < |l| ==> old(bufs)[l[q]].refcnt > 0
    {
      var hit := Lookup(dev, blockno);
      if hit.Some? {
        var b := hit.value;
        Retained(bufs, disk, u, b);
        bufs := Retain(bufs, b);
        u := u.(waiting := u.waiting[b := u.waiting[b] + 1]);
        return Some(b);
      }
      var free := LeastRecent();
      if free.Some? {
        var b := free.value;
        Recycled(bufs, disk, u, b, Key(dev, blockno));
        bufs := Recycle(bufs, b, Key(dev, blockno));
        u := u.(waiting := u.waiting[b := u.waiting[b] + 1]);
        return Some(b);
      }
      r := None;
    }

    method Lookup(dev: nat, blockno: nat) returns (r: Option<nat>)
      requires Valid()
      ensures r.Some? ==> r.value < n && KeyOf(bufs[r.value]) == Key(dev, blockno)
      ensures r.None? ==> forall i :: 0 <= i < n ==> KeyOf(bufs[i]) != Key(dev, blockno)
    {
      hide CacheOk;
      assert Linked(next, prev, l, 0);
      var b := next[n];
      ghost var p := Succ(0, |l|);
      while b != n
        invariant p < |l| && b == l[p]
        invariant forall q :: 0 < q < (if p == 0 then |l| else p) ==> KeyOf(bufs[l[q]]) != Key(dev, blockno)
        decreases if p == 0 then 0 else |l| - p
      {
        if KeyOf(bufs[b]) == Key(dev, blockno) {
          return Some(b);
        }
        assert Linked(next, prev, l, p);
        b := next[b];
        p := Succ(p, |l|);
      }
      forall i | 0 <= i < n ensures KeyOf(bufs[i]) != Key(dev, blockno) {
        assert i in l;
      }
      r := None;
    }

    /** The unused buffer nearest to the end of the list. */
    method LeastRecent() returns (r: Option<nat>)
      requires Valid()
      ensures r.Some? ==> r.value < n && bufs[r.value].refcnt == 0
      ensures r.Some? ==> exists p :: 0 < p < |l| && l[p] == r.value && forall q :: p < q < |l| ==> bufs[l[q]].refcnt > 0
      ensures r.None? ==> forall i :: 0 <= i < n ==> bufs[i].refcnt > 0
    {
      hide CacheOk;
      ghost var p := |l| - 1;
      assert Linked(next, prev, l, p);
      var b := prev[n];
      while b != n
        invariant 0 <= p < |l| && b == l[p] && forall q :: p < q < |l| ==> bufs[l[q]].refcnt > 0
        decreases p
      {
        if bufs[b].refcnt == 0 {
          return Some(b);
        }
        assert Linked(next, prev, l, p - 1);
        b := prev[b];
        p := p - 1;
      }
      forall i | 0 <= i < n ensures bufs[i].refcnt > 0 {
        assert i in l;
      }
      r := None;
    }

    /** acquiresleep, by a process that has a reference; it returns when nobody else has
        the lock. */
    method Lock(b: nat)
      requires Valid() && b < n && u.waiting[b] > 0 && b !in u.locked
      modifies this`u
      ensures Valid() && |u.waiting| == n && u == old(u).(waiting := old(u).waiting[b := old(u).waiting[b] - 1], locked := old(u).locked + {b})
    {
      u := u.(waiting := u.waiting[b := u.waiting[b] - 1], locked := u.locked + {b});
      SameKeys(bufs, disk, old(u), bufs, u);
    }

    /** bread: the buffer, locked, holds the latest contents of the block. */
    method Bread(dev: nat, blockno: nat) returns (r: Option<nat>)
      requires Valid() && Key(dev, blockno) in disk
      requires forall i :: 0 <= i < n && KeyOf(bufs[i]) == Key(dev, blockno) ==> i !in u.locked
      modifies this`bufs, this`u
      ensures Valid() && u.latest == old(u).latest && u.dirty == old(u).dirty && u.pinned == old(u).pinned
      ensures r.None? ==> bufs == old(bufs) && u == old(u) && forall i :: 0 <= i < n ==> bufs[i].refcnt > 0 && KeyOf(bufs[i]) != Key(dev, blockno)
      ensures r.Some? ==> r.value < n && r.value in u.locked && bufs[r.value].valid && KeyOf(bufs[r.value]) == Key(dev, blockno)
      ensures r.Some? && dev != 0 ==> Key(dev, blockno) in u.latest && bufs[r.value].data == u.latest[Key(dev, blockno)]
      ensures forall i :: 0 <= i < n && old(bufs)[i].refcnt > 0 ==> KeyOf(bufs[i]) == KeyOf(old(bufs)[i])
    {
      r := Get(dev, blockno);
      if r.Some? {
        UnlockedYet(old(bufs), disk, old(u), r.value, Key(dev, blockno));
        Lock(r.value);
        Fill(r.value);
      }
    }

    /** The end of bread: the holder of the lock reads the block if that was not done. */
    method Fill(b: nat)
      requires Valid() && b in u.locked && b < n && KeyOf(bufs[b]) in disk
      modifies this`bufs
      ensures Valid() && OnlyBuffer(old(bufs), bufs, b) && bufs[b].valid && bufs[b].refcnt == old(bufs)[b].refcnt
      ensures old(bufs)[b].valid ==> bufs == old(bufs)
      ensures bufs[b].dev != 0 ==> KeyOf(bufs[b]) in u.latest && bufs[b].data == u.latest[KeyOf(bufs[b])]
    {
      if !bufs[b].valid {
        ghost var bufs' := bufs[b := bufs[b].(valid := true, data := disk[KeyOf(bufs[b])])];
        Filled(bufs, disk, u, b, bufs');
        bufs := bufs[b := bufs[b].(data := disk[KeyOf(bufs[b])])];
        bufs := bufs[b := bufs[b].(valid := true)];
      }
    }

    /** The holder of the lock changes the contents. */
    method Change(b: nat, v: Block)
      requires Valid() && b in u.locked && b < n && bufs[b].valid && KeyOf(bufs[b]) in disk
      modifies this`bufs, this`u
      ensures Valid() && bufs == old(bufs)[b := old(bufs)[b].(data := v)]
      ensures u == old(u).(dirty := old(u).dirty + {b}, latest := old(u).latest[KeyOf(bufs[b]) := v])
    {
      ghost var u' := u.(dirty := u.dirty + {b}, latest := u.latest[KeyOf(bufs[b]) := v]);
      Changed(bufs, disk, u, b, v, bufs[b := bufs[b].(data := v)], u');
      bufs := bufs[b := bufs[b].(data := v)];
      u := u';
    }

    /** bwrite: the holder of the lock writes the contents to the disk. */
    method Bwrite(b: nat)
      requires Valid() && b in u.locked && b < n && bufs[b].valid && KeyOf(bufs[b]) in disk && bufs[b].dev != 0
      modifies this`disk, this`u
      ensures Valid() && disk == old(disk)[KeyOf(bufs[b]) := bufs[b].data] && u == old(u).(dirty := old(u).dirty - {b})
    {
      ghost var u' := u.(dirty := u.dirty - {b});
      Written(bufs, disk, u, b, disk[KeyOf(bufs[b]) := bufs[b].data], u');
      disk := disk[KeyOf(bufs[b]) := bufs[b].data];
      u := u';
    }

    /** bpin, by the holder of the lock. */
    method Pin(b: nat)
      requires Valid() && b in u.locked && b !in u.pinned && b < n
      modifies this`bufs, this`u
      ensures Valid() && bufs == Retain(old(bufs), b) && u == old(u).(pinned := old(u).pinned + {b})
    {
      bufs := bufs[b := bufs[b].(refcnt := bufs[b].refcnt + 1)];
      u := u.(pinned := u.pinned + {b});
      SameKeys(old(bufs), disk, old(u), bufs, u);
    }

    /** bunpin, by the holder of the lock. */
    method Unpin(b: nat)
      requires Valid() && b in u.locked && b in u.pinned && b < n
      modifies this`bufs, this`u
      ensures Valid() && old(bufs) == Retain(bufs, b) && u == old(u).(pinned := old(u).pinned - {b})
    {
      bufs := bufs[b := bufs[b].(refcnt := bufs[b].refcnt - 1)];
      u := u.(pinned := u.pinned - {b});
      SameKeys(old(bufs), disk, old(u), bufs, u);
    }

    /** brelse: what was changed is on the disk or pinned by the log. */
    method Brelse(b: nat)
      requires Valid() && b in u.locked && b < n && (b in u.dirty ==> b in u.pinned)
      modifies this`bufs, this`u, this`next, this`prev, this`l
      ensures Valid() && old(bufs) == Retain(bufs, b) && u == old(u).(locked := old(u).locked - {b})
      ensures bufs[b].refcnt > 0 ==> l == old(l)
      ensures bufs[b].refcnt == 0 ==> exists k :: 0 < k < |old(l)| && old(l)[k] == b && l == InFront(Without(old(l), k), b)
    {
      Unlock(b);
      Drop(b);
      assert u.waiting == old(u).waiting;
    }

    /** releasesleep */
    method Unlock(b: nat)
      requires Valid() && b in u.locked && b < n && (b in u.dirty ==> b in u.pinned)
      modifies this`u
      ensures Valid() && |u.waiting| == n && u == old(u).(waiting := old(u).waiting[b := old(u).waiting[b] + 1], locked := old(u).locked - {b})
    {
      u := u.(waiting := u.waiting[b := u.waiting[b] + 1], locked := u.locked - {b});
      SameKeys(bufs, disk, old(u), bufs, u);
    }

    /** The critical section of brelse: an unused buffer becomes the most recent one. */
    method Drop(b: nat)
      requires Valid() && b < n && u.waiting[b] > 0
      modifies this`bufs, this`u, this`next, this`prev, this`l
      ensures Valid() && old(bufs) == Retain(bufs, b) && |u.waiting| == n && u == old(u).(waiting := old(u).waiting[b := old(u).waiting[b] - 1])
      ensures bufs[b].refcnt > 0 ==> l == old(l)
      ensures bufs[b].refcnt == 0 ==> exists k :: 0 < k < |old(l)| && old(l)[k] == b && l == InFront(Without(old(l), k), b)
    {
      bufs := bufs[b := bufs[b].(refcnt := bufs[b].refcnt - 1)];
      u := u.(waiting := u.waiting[b := u.waiting[b] - 1]);
      SameKeys(old(bufs), disk, old(u), bufs, u);
      if bufs[b].refcnt == 0 {
        hide CacheOk;
        MoveToFront(b);
      }
    }

    method MoveToFront(b: nat)
      requires Ring(n, next, prev, l) && Full(n, l) && b < n
      modifies this`next, this`prev, this`l
      ensures Ring(n, next, prev, l) && Full(n, l) && exists k :: 0 < k < |old(l)| && old(l)[k] == b && l == InFront(Without(old(l), k), b)
    {
      assert b in l;
      ghost var k: nat :| k < |l| && l[k] == b;
      assert Linked(next, prev, l, k) && Linked(next, prev, l, k - 1);
      Unlinked(n, next, prev, l, k, b);
      FullAgain(n, l, k);
      prev := prev[next[b] := prev[b]];
      next := next[prev[b] := next[b]];
      l := Without(l, k);
      Front(b);
    }
  }

  /** A buffer found for a block whose buffer is not locked is not locked. */
  lemma UnlockedYet(bufs: seq<Buf>, disk: map<Key, Block>, u: Use, b: nat, k: Key)
    requires CacheOk(bufs, disk, u) && b < |bufs| && (KeyOf(bufs[b]) == k || bufs[b].refcnt == 0)
    requires forall i :: 0 <= i < |bufs| && KeyOf(bufs[i]) == k ==> i !in u.locked
    ensures b !in u.locked
  {
  }
}
