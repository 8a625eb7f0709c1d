/** The block allocator and the inode operations of kernel/fs.c, and the chunked
    write of kernel/file.c, updating the disk in place. */
module Fs {
  import opened FsDisk
  import opened FsChanges

  datatype Option<T> = None | Some(value: T)

  /** bmap's outcome; the last two stop the machine. */
  datatype Mapped = Block(a: nat) | OutOfBlocks | OutOfRange

  datatype ReadResult = Read(bytes: Bytes) | CopyFailed | ReadPanic

  datatype WriteResult = Wrote(n: nat) | Refused | WritePanic

  /** The number of blocks that n bytes from offset off touch. */
  function Chunks(off: nat, n: nat): (t: nat) {
    if n == 0 then 0 else (off + n - 1) / BSIZE - off / BSIZE + 1
  }

  /** The number of bytes in the first t of those blocks. */
  function Upto(off: nat, n: nat, t: nat): (m: nat)
    ensures m <= n
  {
    if t == 0 then 0
    else
      var end := (off / BSIZE + t) * BSIZE - off;
      if end <= n then end else n
  }

  lemma UptoAll(off: nat, n: nat, t: nat)
    ensures Upto(off, n, t) == n <==> t >= Chunks(off, n)
  {
  }

  lemma SpliceSplice(c: Bytes, off: nat, x: Bytes, y: Bytes)
    requires off + |x| + |y| <= |c|
    ensures Splice(Splice(c, off, x), off + |x|, y) == Splice(c, off, x + y)
  {
    var l, r := Splice(Splice(c, off, x), off + |x|, y), Splice(c, off, x + y);
    assert |l| == |r| == |c|;
    assert forall o :: 0 <= o < |c| ==> l[o] == r[o];
  }

  lemma ContentsSpliced(was: Bytes, size: nat, off: nat, w: Bytes)
    requires off <= size <= |was| && off + |w| <= |was|
    ensures Splice(was, off, w)[..if off + |w| > size then off + |w| else size] == Splice(was[..size], off, w)
  {
  }

  /** Everything that changed is in the transaction: each data block with other contents,
      and the bitmap block of each changed bit. */
  ghost predicate Logs(sb: Super, data0: seq<Bytes>, bitmap0: Bitmap, logged0: set<nat>, data: seq<Bytes>, bitmap: Bitmap, logged: set<nat>) {
    && logged0 <= logged && |data| == |data0|
    && (forall b: nat :: b < |data| && data[b] != data0[b] ==> b in logged)
    && (forall b: nat :: Used(bitmap, b) != Used(bitmap0, b) ==> sb.BBlock(b) in logged)
  }

  lemma LogsNone(sb: Super, data: seq<Bytes>, bitmap: Bitmap, logged: set<nat>)
    ensures Logs(sb, data, bitmap, logged, data, bitmap, logged)
  {
  }

  lemma LogsTwice(sb: Super, d0: seq<Bytes>, m0: Bitmap, l0: set<nat>, d1: seq<Bytes>, m1: Bitmap, l1: set<nat>, d2: seq<Bytes>, m2: Bitmap, l2: set<nat>)
    requires Logs(sb, d0, m0, l0, d1, m1, l1) && Logs(sb, d1, m1, l1, d2, m2, l2)
    ensures Logs(sb, d0, m0, l0, d2, m2, l2)
  {
    hide Used;
  }

  lemma LogsMore(sb: Super, d0: seq<Bytes>, m0: Bitmap, l0: set<nat>, d: seq<Bytes>, m: Bitmap, l: set<nat>, l': set<nat>)
    requires Logs(sb, d0, m0, l0, d, m, l) && l <= l'
    ensures Logs(sb, d0, m0, l0, d, m, l')
  {
    hide Used;
  }

  lemma LogsBlock(sb: Super, d0: seq<Bytes>, m: Bitmap, l0: set<nat>, d: seq<Bytes>, l: set<nat>, b: nat)
    requires |d| == |d0| && (forall x: nat :: x < |d| && x != b ==> d[x] == d0[x]) && l == l0 + {b}
    ensures Logs(sb, d0, m, l0, d, m, l)
  {
    hide Used;
  }

  lemma LogsAlloc(sb: Super, d0: seq<Bytes>, m0: Bitmap, l0: set<nat>, m: Bitmap, l: set<nat>, b: nat)
    requires b < |d0| && (forall c: nat :: Used(m, c) == (c == b || Used(m0, c))) && l == l0 + {sb.BBlock(b), b}
    ensures Logs(sb, d0, m0, l0, d0[b := Zeros()], m, l)
  {
    hide Used;
  }

  lemma LogsFree(sb: Super, d: seq<Bytes>, m0: Bitmap, l0: set<nat>, m: Bitmap, l: set<nat>, b: nat)
    requires (forall c: nat :: Used(m, c) == (c != b && Used(m0, c))) && l == l0 + {sb.BBlock(b)}
    ensures Logs(sb, d, m0, l0, d, m, l)
  {
    hide Used;
  }

  class FileSystem {
    const sb: Super
    var bitmap: Bitmap
    var data: seq<Bytes>
    /** the inodes in memory, and on disk */
    var inodes: seq<Inode>
    var dinodes: seq<Inode>
    /** the blocks the current operation has passed to log_write */
    var logged: set<nat>
    ghost var tree: Tree
    /** the most blocks that one operation has logged */
    ghost var worst: nat

    constructor (sb: Super, bitmap: Bitmap, data: seq<Bytes>, inodes: seq<Inode>, ghost owner: map<nat, Slot>)
      ensures this.sb == sb && this.bitmap == bitmap && this.data == data && this.inodes == inodes == dinodes
      ensures tree == Tree(data, inodes, owner) && logged == {}
    {
      this.sb, this.bitmap, this.data, this.inodes, this.dinodes := sb, bitmap, data, inodes, inodes;
      this.tree, this.logged := Tree(data, inodes, owner), {};
    }

    ghost predicate Valid()
      reads this
    {
      && tree.data == data && tree.inodes == inodes && Owns(sb, tree)
      && BitsOk(sb, bitmap, tree.owner.Keys) && |dinodes| == |inodes| && SizesOk(inodes)
    }

    method BeginOp()
      modifies this`logged
      ensures logged == {}
    {
      logged := {};
    }

    method EndOp()
      modifies this`worst
      ensures worst == Max(old(worst), |logged|)
    {
      worst := Max(worst, |logged|);
    }

    /** Allocate a zeroed block: the first one whose bit is clear. */
    method Balloc() returns (r: Option<nat>)
      requires sb.Ok() && MapOk(sb, bitmap) && |data| == sb.size
      modifies this`bitmap, this`data, this`logged
      ensures MapOk(sb, bitmap)
      ensures r.None? ==> bitmap == old(bitmap) && data == old(data) && logged == old(logged)
      ensures r.None? <==> forall b :: 0 <= b < sb.size ==> Used(old(bitmap), b)
      ensures r.Some? ==> r.value < sb.size && !Used(old(bitmap), r.value)
      ensures r.Some? ==> forall b :: 0 <= b < r.value ==> Used(old(bitmap), b)
      ensures r.Some? ==> forall c: nat :: Used(bitmap, c) == (c == r.value || Used(old(bitmap), c))
      ensures r.Some? ==> data == old(data)[r.value := Zeros()]
      ensures r.Some? ==> logged == old(logged) + {sb.BBlock(r.value), r.value}
      ensures Logs(sb, old(data), old(bitmap), old(logged), data, bitmap, logged)
    {
      hide Used, Marked, Logs;
      LogsNone(sb, data, bitmap, logged);
      var b := 0;
      while b < sb.size
        invariant b % BPB == 0
        invariant bitmap == old(bitmap) && data == old(data) && logged == old(logged)
        invariant forall c :: 0 <= c < b && c < sb.size ==> Used(bitmap, c)
      {
        var bi := FirstClear(b);
        var x := b + bi;
        if bi < BPB && x < sb.size {
          MarkedOk(sb, bitmap, x);
          bitmap := Marked(bitmap, x);
          logged := logged + {sb.BBlock(x)};
          Bzero(x);
          LogsAlloc(sb, old(data), old(bitmap), old(logged), bitmap, logged, x);
          return Some(x);
        }
        b := b + BPB;
      }
      r := None;
    }

    /** The first clear bit of the bitmap block for the blocks from b on. */
    method FirstClear(b: nat) returns (bi: nat)
      requires sb.Ok() && MapOk(sb, bitmap) && b % BPB == 0 && b < sb.size
      ensures bi <= BPB && forall c :: b <= c < b + bi && c < sb.size ==> Used(bitmap, c)
      ensures bi < BPB && b + bi < sb.size ==> !Used(bitmap, b + bi)
    {
      bi := 0;
      while bi < BPB && b + bi < sb.size
        invariant bi <= BPB
        invariant forall c :: b <= c < b + bi && c < sb.size ==> Used(bitmap, c)
      {
        UsedHere(sb, bitmap, b, bi);
        if bitmap[b / BPB][bi / 8] & Mask(bi % 8) == 0 {
          return;
        }
        bi := bi + 1;
      }
    }

    method Bzero(b: nat)
      requires b < |data|
      modifies this`data, this`logged
      ensures data == old(data)[b := Zeros()] && logged == old(logged) + {b}
    {
      data := data[b := Zeros()];
      logged := logged + {b};
    }

    /** Free a block; freeing a free block stops the machine. */
    method Bfree(b: nat) returns (ok: bool)
      requires sb.Ok() && MapOk(sb, bitmap) && b < sb.size
      modifies this`bitmap, this`logged
      ensures MapOk(sb, bitmap) && ok == Used(old(bitmap), b)
      ensures !ok ==> bitmap == old(bitmap) && logged == old(logged)
      ensures ok ==> forall c: nat :: Used(bitmap, c) == (c != b && Used(old(bitmap), c))
      ensures ok ==> logged == old(logged) + {sb.BBlock(b)}
      ensures Logs(sb, old(data), old(bitmap), old(logged), data, bitmap, logged)
    {
      var bi := b % BPB;
      LogsNone(sb, data, bitmap, logged);
      if bitmap[b / BPB][bi / 8] & Mask(bi % 8) == 0 {
        return false;
      }
      ClearedOk(sb, bitmap, b);
      bitmap := Cleared(bitmap, b);
      logged := logged + {sb.BBlock(b)};
      LogsFree(sb, data, old(bitmap), old(logged), bitmap, logged, b);
      ok := true;
    }

    /** balloc as the inode operations see it: an unowned block, still without a
        slot. */
    method BallocUnowned() returns (r: Option<nat>)
      requires Valid()
      modifies this`bitmap, this`data, this`logged, this`tree
      ensures tree.data == data && tree.inodes == inodes && Owns(sb, tree) && tree.owner == old(tree.owner)
      ensures SameImages(old(tree), tree) && KeptAddrs(old(tree), tree)
      ensures r.None? ==> Valid() && Full(sb, bitmap) && data == old(data) && logged == old(logged)
      ensures r.Some? ==> sb.meta <= r.value < sb.size && r.value !in tree.owner && data[r.value] == Zeros()
      ensures r.Some? ==> BitsOk(sb, bitmap, tree.owner.Keys + {r.value})
      ensures r.Some? ==> logged == old(logged) + {sb.BBlock(r.value), r.value}
      ensures Logs(sb, old(data), old(bitmap), old(logged), data, bitmap, logged)
      ensures forall i, bn :: 0 <= i < |inodes| && 0 <= bn < MAXFILE ==> AddrOf(data, inodes[i], bn) == old(AddrOf(data, inodes[i], bn))
    {
      r := Balloc();
      if r.Some? {
        Zeroed(sb, tree, r.value);
        tree := tree.(data := tree.data[r.value := Zeros()]);
      }
    }

    /** The block number of block bn of file i, allocating what is missing.
        maps: the bitmap blocks logged on the way. */
    method Bmap(i: nat, bn: nat) returns (r: Mapped, ghost maps: set<nat>)
      requires Valid() && i < |inodes|
      modifies this`bitmap, this`data, this`inodes, this`tree, this`logged
      ensures Valid() && SameImages(old(tree), tree) && KeptAddrs(old(tree), tree)
      ensures Logs(sb, old(data), old(bitmap), old(logged), data, bitmap, logged)
      ensures r.OutOfRange? <==> bn >= MAXFILE
      ensures r.OutOfBlocks? ==> Full(sb, bitmap)
      ensures r.Block? ==> bn < MAXFILE && r.a == AddrOf(data, inodes[i], bn) != 0
      ensures bn >= MAXFILE || old(AddrOf(data, inodes[i], bn)) != 0 ==>
                tree == old(tree) && bitmap == old(bitmap) && logged == old(logged) && maps == {} && !r.OutOfBlocks?
      ensures forall j :: 0 <= j < |inodes| && j != i ==> inodes[j] == old(inodes[j])
      ensures old(inodes[i].addrs[NDIRECT]) != 0 ==> inodes[i].addrs[NDIRECT] == old(inodes[i].addrs[NDIRECT])
      ensures r.Block? ==> logged <= old(logged) + maps + {r.a} + IndirectOf(inodes[i])
      ensures r.Block? ==> |maps| <= (if old(AddrOf(data, inodes[i], bn)) == 0 then 1 else 0) + (if inodes[i].addrs[NDIRECT] != old(inodes[i].addrs[NDIRECT]) then 1 else 0)
      ensures forall m :: m in maps ==> MapBlock(sb, m)
    {
      hide Logs;
      LogsNone(sb, data, bitmap, logged);
      maps := {};
      if bn < NDIRECT {
        var addr := inodes[i].addrs[bn];
        if addr == 0 {
          r, maps := AllocDirect(i, bn);
          return r, maps;
        }
        return Block(addr), maps;
      }
      if bn >= MAXFILE { return OutOfRange, maps; }
      r, maps := BmapIndirect(i, bn);
    }

    method BmapIndirect(i: nat, bn: nat) returns (r: Mapped, ghost maps: set<nat>)
      requires Valid() && i < |inodes| && NDIRECT <= bn < MAXFILE
      modifies this`bitmap, this`data, this`inodes, this`tree, this`logged
      ensures Valid() && SameImages(old(tree), tree) && KeptAddrs(old(tree), tree) && !r.OutOfRange?
      ensures Logs(sb, old(data), old(bitmap), old(logged), data, bitmap, logged)
      ensures r.OutOfBlocks? ==> Full(sb, bitmap)
      ensures r.Block? ==> r.a == AddrOf(data, inodes[i], bn) != 0
      ensures old(AddrOf(data, inodes[i], bn)) != 0 ==>
                tree == old(tree) && bitmap == old(bitmap) && logged == old(logged) && maps == {} && !r.OutOfBlocks?
      ensures forall j :: 0 <= j < |inodes| && j != i ==> inodes[j] == old(inodes[j])
      ensures old(inodes[i].addrs[NDIRECT]) != 0 ==> inodes[i].addrs[NDIRECT] == old(inodes[i].addrs[NDIRECT])
      ensures r.Block? ==> logged <= old(logged) + maps + {r.a} + IndirectOf(inodes[i])
      ensures r.Block? ==> |maps| <= (if old(AddrOf(data, inodes[i], bn)) == 0 then 1 else 0) + (if inodes[i].addrs[NDIRECT] != old(inodes[i].addrs[NDIRECT]) then 1 else 0)
      ensures forall m :: m in maps ==> MapBlock(sb, m)
    {
      hide BitsOk, Logs;
      LogsNone(sb, data, bitmap, logged);
      maps := {};
      var ok := true;
      if inodes[i].addrs[NDIRECT] == 0 {
        ok, maps := AllocIndirect(i);
        if !ok { return OutOfBlocks, {}; }
      }
      var addr := Word(data[inodes[i].addrs[NDIRECT]], bn - NDIRECT);
      if addr == 0 {
        ghost var more;
        ghost var d, m, l := data, bitmap, logged;
        r, more := AllocEntry(i, bn);
        LogsTwice(sb, old(data), old(bitmap), old(logged), d, m, l, data, bitmap, logged);
        maps := maps + more;
      } else {
        r := Block(addr);
      }
    }

    method AllocDirect(i: nat, bn: nat) returns (r: Mapped, ghost maps: set<nat>)
      requires Valid() && i < |inodes| && bn < NDIRECT && inodes[i].addrs[bn] == 0
      modifies this`bitmap, this`data, this`inodes, this`tree, this`logged
      ensures Valid() && SameImages(old(tree), tree) && KeptAddrs(old(tree), tree) && !r.OutOfRange?
      ensures Logs(sb, old(data), old(bitmap), old(logged), data, bitmap, logged)
      ensures r.OutOfBlocks? ==> Full(sb, bitmap)
      ensures r.Block? ==> r.a == AddrOf(data, inodes[i], bn) != 0
      ensures forall j :: 0 <= j < |inodes| && j != i ==> inodes[j] == old(inodes[j])
      ensures inodes[i].addrs[NDIRECT] == old(inodes[i].addrs[NDIRECT])
      ensures r.Block? ==> logged == old(logged) + maps + {r.a} && |maps| == 1
      ensures forall m :: m in maps ==> MapBlock(sb, m)
    {
      hide SlotsOwned, OwnersRecord, SameImages, KeptAddrs, Used, Logs;
      maps := {};
      var f := BallocUnowned();
      if f.None? { return OutOfBlocks, maps; }
      PlacedDirect(sb, tree, i, bn, f.value);
      inodes := inodes[i := inodes[i].(addrs := inodes[i].addrs[bn := f.value])];
      ghost var t := tree;
      tree := Tree(t.data, t.inodes[i := t.inodes[i].(addrs := t.inodes[i].addrs[bn := f.value])], t.owner[f.value := Data(i, bn)]);
      KeptTwice(old(tree), t, tree);
      assert tree.owner.Keys == t.owner.Keys + {f.value};
      r, maps := Block(f.value), {sb.BBlock(f.value)};
    }

    method AllocIndirect(i: nat) returns (ok: bool, ghost maps: set<nat>)
      requires Valid() && i < |inodes| && inodes[i].addrs[NDIRECT] == 0
      modifies this`bitmap, this`data, this`inodes, this`tree, this`logged
      ensures Valid() && SameImages(old(tree), tree) && KeptAddrs(old(tree), tree)
      ensures Logs(sb, old(data), old(bitmap), old(logged), data, bitmap, logged)
      ensures !ok ==> Full(sb, bitmap)
      ensures ok ==> inodes[i].addrs[NDIRECT] != 0
      ensures forall j :: 0 <= j < |inodes| && j != i ==> inodes[j] == old(inodes[j])
      ensures forall bn: nat :: bn < MAXFILE ==> AddrOf(data, inodes[i], bn) == old(AddrOf(data, inodes[i], bn))
      ensures ok ==> logged <= old(logged) + maps + IndirectOf(inodes[i]) && |maps| == 1
      ensures forall m :: m in maps ==> MapBlock(sb, m)
    {
      hide SlotsOwned, OwnersRecord, SameImages, KeptAddrs, Used, Logs;
      maps := {};
      var f := BallocUnowned();
      if f.None? { return false, maps; }
      PlacedIndirect(sb, tree, i, f.value);
      inodes := inodes[i := inodes[i].(addrs := inodes[i].addrs[NDIRECT := f.value])];
      ghost var t := tree;
      tree := Tree(t.data, t.inodes[i := t.inodes[i].(addrs := t.inodes[i].addrs[NDIRECT := f.value])], t.owner[f.value := Ind(i)]);
      KeptTwice(old(tree), t, tree);
      assert tree.owner.Keys == t.owner.Keys + {f.value};
      ok, maps := true, {sb.BBlock(f.value)};
    }

    method AllocEntry(i: nat, bn: nat) returns (r: Mapped, ghost maps: set<nat>)
      requires Valid() && i < |inodes| && NDIRECT <= bn < MAXFILE
      requires inodes[i].addrs[NDIRECT] != 0 && AddrOf(data, inodes[i], bn) == 0
      modifies this`bitmap, this`data, this`tree, this`logged
      ensures Valid() && SameImages(old(tree), tree) && KeptAddrs(old(tree), tree) && !r.OutOfRange?
      ensures Logs(sb, old(data), old(bitmap), old(logged), data, bitmap, logged)
      ensures r.OutOfBlocks? ==> Full(sb, bitmap) && maps == {}
      ensures r.Block? ==> r.a == AddrOf(data, inodes[i], bn) != 0
      ensures r.Block? ==> logged <= old(logged) + maps + {r.a} + IndirectOf(inodes[i]) && |maps| == 1
      ensures forall m :: m in maps ==> MapBlock(sb, m)
    {
      hide SlotsOwned, OwnersRecord, SameImages, KeptAddrs, Used, Logs;
      maps := {};
      var f := BallocUnowned();
      if f.None? { return OutOfBlocks, maps; }
      ghost var t := tree;
      ghost var d, m, l := data, bitmap, logged;
      PutInIndirect(i, bn, f.value);
      LogsTwice(sb, old(data), old(bitmap), old(logged), d, m, l, data, bitmap, logged);
      KeptTwice(old(tree), t, tree);
      assert tree.owner.Keys == t.owner.Keys + {f.value};
      r, maps := Block(f.value), {sb.BBlock(f.value)};
    }

    method PutInIndirect(i: nat, bn: nat, a: nat)
      requires tree.data == data && tree.inodes == inodes && Owns(sb, tree)
      requires sb.meta <= a < sb.size && a !in tree.owner && data[a] == Zeros() && i < |inodes| && NDIRECT <= bn < MAXFILE
      requires inodes[i].addrs[NDIRECT] != 0 && AddrOf(data, inodes[i], bn) == 0
      modifies this`data, this`logged, this`tree
      ensures tree.data == data && tree.inodes == inodes && tree.owner == old(tree.owner)[a := Data(i, bn)]
      ensures Owns(sb, tree) && SameImages(old(tree), tree) && KeptAddrs(old(tree), tree)
      ensures AddrOf(data, inodes[i], bn) == a && logged == old(logged) + {inodes[i].addrs[NDIRECT]}
      ensures Logs(sb, old(data), old(bitmap), old(logged), data, bitmap, logged)
    {
      PlacedEntry(sb, tree, i, bn, a);
      var ind := inodes[i].addrs[NDIRECT];
      data := PutEntry(data, ind, bn - NDIRECT, a);
      logged := logged + {ind};
      LogsBlock(sb, old(data), bitmap, old(logged), data, logged, ind);
      tree := WithEntry(tree, i, bn, a);
    }

    /** Copy the in-memory inode to the disk. */
    method Iupdate(i: nat)
      requires i < |inodes| == |dinodes|
      modifies this`dinodes, this`logged
      ensures dinodes == old(dinodes)[i := inodes[i]] && logged == old(logged) + {sb.IBlock(i)}
    {
      dinodes := dinodes[i := inodes[i]];
      logged := logged + {sb.IBlock(i)};
    }

    /** One round of writei: find the block and copy w into it from offset o on,
        unless the copy from the user fails. */
    method WriteChunk(i: nat, bn: nat, k: nat, w: Bytes, copied: bool) returns (r: Mapped, ghost maps: set<nat>)
      requires Valid() && i < |inodes| && bn < MAXFILE && k + |w| <= BSIZE
      modifies this`bitmap, this`data, this`inodes, this`tree, this`logged
      ensures Valid() && |inodes| == old(|inodes|) && !r.OutOfRange?
      ensures r.OutOfBlocks? ==> Full(sb, bitmap)
      ensures Logs(sb, old(data), old(bitmap), old(logged), data, bitmap, logged)
      ensures r.Block? ==> RoundOk(sb, i, old(tree), old(logged), tree, logged, bn, k, if copied then w else [], r.a, maps)
    {
      hide Owns, BitsOk, Logs, Image, Splice, Full, AddrOf, RoundOk, KeptAddrs;
      r, maps := FindBlock(i, bn, k);
      if r.Block? && copied {
        ghost var t, l, m := tree, logged, bitmap;
        Overwrite(i, bn, k, w, r.a);
        LogsTwice(sb, old(data), old(bitmap), old(logged), t.data, m, l, data, bitmap, logged);
        RoundWritten(sb, i, old(tree), old(logged), t, l, tree, logged, bn, k, w, r.a, maps);
      }
    }

    method FindBlock(i: nat, bn: nat, ghost k: nat) returns (r: Mapped, ghost maps: set<nat>)
      requires Valid() && i < |inodes| && bn < MAXFILE && k <= BSIZE
      modifies this`bitmap, this`data, this`inodes, this`tree, this`logged
      ensures Valid() && |inodes| == old(|inodes|) && !r.OutOfRange?
      ensures r.OutOfBlocks? ==> Full(sb, bitmap)
      ensures Logs(sb, old(data), old(bitmap), old(logged), data, bitmap, logged)
      ensures r.Block? ==> r.a == AddrOf(data, inodes[i], bn) != 0
      ensures r.Block? ==> RoundOk(sb, i, old(tree), old(logged), tree, logged, bn, k, [], r.a, maps)
    {
      hide SlotsOwned, OwnersRecord, BitsOk, Logs, Image, Splice, Full, MapBlock, AddrOf, RoundOk, KeptAddrs;
      r, maps := Bmap(i, bn);
      if r.Block? {
        RoundFound(sb, i, old(tree), old(logged), tree, logged, bn, k, r.a, maps);
      }
    }

    method Overwrite(i: nat, bn: nat, k: nat, w: Bytes, a: nat)
      requires Valid() && i < |inodes| && bn < MAXFILE && k + |w| <= BSIZE && a == AddrOf(data, inodes[i], bn) != 0
      modifies this`data, this`tree, this`logged
      ensures Valid() && KeptAddrs(old(tree), tree) && logged == old(logged) + {a} && tree.owner == old(tree.owner)
      ensures Logs(sb, old(data), old(bitmap), old(logged), data, bitmap, logged)
      ensures Image(data, inodes[i]) == Splice(old(Image(data, inodes[i])), bn * BSIZE + k, w)
      ensures forall j :: 0 <= j < |inodes| && j != i ==> Image(data, inodes[j]) == old(Image(data, inodes[j]))
    {
      assert OwnedBy(tree, a, Data(i, bn));
      ghost var t := tree;
      data := data[a := Overlay(data[a], k, w)];
      tree := tree.(data := tree.data[a := Overlay(tree.data[a], k, w)]);
      Overwritten(sb, t, tree, i, bn, k, w);
      logged := logged + {a};
      LogsBlock(sb, old(data), bitmap, old(logged), data, logged, a);
    }

    /** WriteChunk as the next of a series of rounds. */
    method WriteRound(i: nat, off: nat, src: Bytes, tot: nat, copied: bool, ghost rs: Rounds)
      returns (tot': nat, full: bool, ghost rs': Rounds)
      requires Valid() && i < |inodes| && off + |src| <= MAXFILE * BSIZE && tot < |src|
      requires RoundsOk(sb, i, off, src, rs) && Going(rs) && rs.t == tree && rs.logged == logged && Size(rs) == tot
      modifies this`bitmap, this`data, this`inodes, this`tree, this`logged
      ensures Valid() && |inodes| == old(|inodes|) && tot <= tot' <= |src|
      ensures full ==> Full(sb, bitmap)
      ensures Logs(sb, old(data), old(bitmap), old(logged), data, bitmap, logged)
      ensures !full ==> RoundsOk(sb, i, off, src, rs') && rs'.t == tree && rs'.logged == logged && Size(rs') == tot'
      ensures !full ==> FirstOf(rs') == FirstOf(rs) && Count(rs') == Count(rs) + 1
      ensures !full ==> Going(rs') == (tot' > tot) == copied
    {
      hide Owns, BitsOk, RoundsOk, RoundOk, Logs;
      var o := off + tot;
      var m := if |src| - tot <= BSIZE - o % BSIZE then |src| - tot else BSIZE - o % BSIZE;
      var w := src[tot..tot + m];
      var r;
      ghost var maps;
      r, maps := WriteChunk(i, o / BSIZE, o % BSIZE, w, copied);
      full, rs', tot' := r.OutOfBlocks?, rs, tot;
      if r.Block? {
        rs' := Extend(sb, i, off, src, rs, tot, m, o / BSIZE, o % BSIZE, if copied then w else [], r.a, maps, tree, logged);
        tot' := if copied then tot + m else tot;
      }
    }

    /** The loop of writei.  copies: how many copies from the user succeed. */
    method WriteLoop(i: nat, off: nat, src: Bytes, copies: nat) returns (tot: nat, full: bool, ghost rs: Rounds)
      requires Valid() && i < |inodes| && off + |src| <= MAXFILE * BSIZE
      modifies this`bitmap, this`data, this`inodes, this`tree, this`logged
      ensures Valid() && |inodes| == old(|inodes|)
      ensures full ==> Full(sb, bitmap)
      ensures Logs(sb, old(data), old(bitmap), old(logged), data, bitmap, logged)
      ensures !full ==> RoundsOk(sb, i, off, src, rs) && rs.t == tree && rs.logged == logged && Size(rs) == tot
      ensures !full ==> FirstOf(rs) == Begin(old(tree), old(logged)) && (tot == |src| || !Going(rs))
      ensures !full ==> if Going(rs) then Count(rs) <= copies else Count(rs) == copies + 1
    {
      hide Owns, BitsOk, Logs;
      LogsNone(sb, data, bitmap, logged);
      tot, full, rs := 0, false, Begin(tree, logged);
      var t := 0;
      while tot < |src|
        invariant Valid() && i < |inodes| == old(|inodes|) && !full && tot <= |src|
        invariant RoundsOk(sb, i, off, src, rs) && Going(rs) && rs.t == tree && rs.logged == logged && Size(rs) == tot
        invariant FirstOf(rs) == Begin(old(tree), old(logged)) && Count(rs) == t <= copies
        invariant Logs(sb, old(data), old(bitmap), old(logged), data, bitmap, logged)
        decreases |src| - tot
      {
        var copied := t < copies;
        ghost var d, m, l := data, bitmap, logged;
        tot, full, rs := WriteRound(i, off, src, tot, copied, rs);
        LogsTwice(sb, old(data), old(bitmap), old(logged), d, m, l, data, bitmap, logged);
        if full || !copied {
          break;
        }
        t := t + 1;
      }
    }

    /** Write src to file i from offset off on. */
    method Writei(i: nat, off: nat, src: Bytes, copies: nat) returns (r: WriteResult)
      requires Valid() && i < |inodes|
      modifies this`bitmap, this`data, this`inodes, this`dinodes, this`tree, this`logged
      ensures Valid() && |inodes| == old(|inodes|)
      ensures r.Refused? <==> off > old(inodes[i].size) || off + |src| >= U32 || off + |src| > MAXFILE * BSIZE
      ensures r.Refused? ==> unchanged(this)
      ensures r.WritePanic? ==> Full(sb, bitmap)
      ensures r.Wrote? ==> r.n == Upto(off, |src|, copies)
      ensures r.Wrote? ==> SplicedInto(i, off, src[..r.n], old(data), old(inodes), data, inodes)
      ensures r.Wrote? ==> dinodes == old(dinodes)[i := inodes[i]]
      ensures Logs(sb, old(data), old(bitmap), old(logged), data, bitmap, logged)
      ensures r.Wrote? ==> sb.IBlock(i) in logged
      ensures r.Wrote? ==> forall j :: 0 <= j < |inodes| && old(HoleFree(data, inodes[j])) ==> HoleFree(data, inodes[j])
      ensures r.Wrote? && old(logged) == {} && old(HoleFree(data, inodes[i])) ==> |logged| <= TxBlocks(off, |src|)
      ensures r.Wrote? && old(logged) == {} && sb.size < BPB ==> |logged| <= Chunks(off, |src|) + 3
    {
      hide Logs;
      LogsNone(sb, data, bitmap, logged);
      if off > inodes[i].size || off + |src| >= U32 || off + |src| > MAXFILE * BSIZE {
        return Refused;
      }
      var tot, full;
      ghost var rs;
      tot, full, rs := WriteLoop(i, off, src, copies);
      if full {
        return WritePanic;
      }
      ghost var l := logged;
      FinishWrite(i, off, src, copies, tot, rs, old(tree));
      LogsMore(sb, old(data), old(bitmap), old(logged), data, bitmap, l, logged);
      r := Wrote(tot);
    }

    /** The end of writei: the new size, and the inode to the disk. */
    method FinishWrite(i: nat, off: nat, src: Bytes, ghost copies: nat, tot: nat, ghost rs: Rounds, ghost t: Tree)
      requires Valid() && i < |inodes| == |t.inodes| && RoundsOk(sb, i, off, src, rs) && rs.t == tree && rs.logged == logged
      requires FirstOf(rs).t == t && Size(rs) == tot
      requires (tot == |src| || !Going(rs)) && if Going(rs) then Count(rs) <= copies else Count(rs) == copies + 1
      requires SizesOk(t.inodes) && off <= t.inodes[i].size && off + |src| <= MAXFILE * BSIZE
      modifies this`inodes, this`tree, this`dinodes, this`logged
      ensures Valid() && tot == Upto(off, |src|, copies) && SplicedInto(i, off, src[..tot], t.data, t.inodes, data, inodes)
      ensures dinodes == old(dinodes)[i := inodes[i]] && logged == old(logged) + {sb.IBlock(i)}
      ensures forall j :: 0 <= j < |inodes| && HoleFree(t.data, t.inodes[j]) ==> HoleFree(data, inodes[j])
      ensures FirstOf(rs).logged == {} && HoleFree(t.data, t.inodes[i]) ==> |logged| <= TxBlocks(off, |src|)
      ensures FirstOf(rs).logged == {} && sb.size < BPB ==> |logged| <= Chunks(off, |src|) + 3
    {
      hide SlotsOwned, OwnersRecord, BitsOk, RoundsOk;
      RoundsImages(sb, i, off, src, rs);
      if FirstOf(rs).logged == {} {
        WriteLogged(sb, i, off, src, rs, t);
      }
      var size := Max(off + tot, inodes[i].size);
      WriteSummary(sb, i, off, src, copies, tot, rs, t, size);
      Grow(i, size);
      Iupdate(i);
    }

    /** Set the size of file i. */
    method Grow(i: nat, size: nat)
      requires Valid() && i < |inodes| && size <= MAXFILE * BSIZE
      modifies this`inodes, this`tree
      ensures Valid() && tree == Sized(old(tree), i, size)
    {
      Resized(sb, tree, i, size);
      inodes := inodes[i := inodes[i].(size := size)];
      tree := Sized(tree, i, size);
    }

    /** Discard the contents of file i, giving every one of its blocks back. */
    method Itrunc(i: nat)
      requires Valid() && i < |inodes|
      modifies this`bitmap, this`inodes, this`dinodes, this`tree, this`logged
      ensures Valid() && data == old(data) && inodes == old(inodes)[i := inodes[i]] && dinodes == old(dinodes)[i := inodes[i]]
      ensures inodes[i].size == 0 && |inodes[i].addrs| == NDIRECT + 1 && forall k :: 0 <= k <= NDIRECT ==> inodes[i].addrs[k] == 0
      ensures tree.owner == Without(old(tree.owner), i)
      ensures Logs(sb, old(data), old(bitmap), old(logged), data, bitmap, logged) && sb.IBlock(i) in logged
    {
      hide Logs;
      ghost var t := tree;
      FreeDirect(i);
      ghost var m, l := bitmap, logged;
      FreeIndirect(i, t);
      LogsTwice(sb, old(data), old(bitmap), old(logged), data, m, l, data, bitmap, logged);
      inodes := inodes[i := inodes[i].(size := 0)];
      assert inodes[i].addrs == Emptied().addrs;
      tree := Tree(t.data, t.inodes[i := Emptied()], Without(t.owner, i));
      l := logged;
      Iupdate(i);
      LogsMore(sb, old(data), old(bitmap), old(logged), data, bitmap, l, logged);
    }

    method FreeDirect(i: nat)
      requires Valid() && i < |inodes|
      modifies this`bitmap, this`inodes, this`logged
      ensures BitsBut(sb, bitmap, tree.owner, i, NDIRECT, false)
      ensures |inodes| == old(|inodes|) && inodes == old(inodes)[i := inodes[i]] && |inodes[i].addrs| == NDIRECT + 1
      ensures inodes[i].size == old(inodes[i].size)
      ensures Logs(sb, old(data), old(bitmap), old(logged), data, bitmap, logged)
      ensures (forall k :: 0 <= k < NDIRECT ==> inodes[i].addrs[k] == 0) && inodes[i].addrs[NDIRECT] == old(inodes[i].addrs[NDIRECT])
    {
      hide SlotsOwned, OwnersRecord, Used, Logs;
      LogsNone(sb, data, bitmap, logged);
      var k := 0;
      while k < NDIRECT
        invariant Logs(sb, old(data), old(bitmap), old(logged), data, bitmap, logged)
        invariant k <= NDIRECT && BitsBut(sb, bitmap, tree.owner, i, k, false)
        invariant |inodes| == old(|inodes|) && inodes == old(inodes)[i := inodes[i]] && |inodes[i].addrs| == NDIRECT + 1
        invariant inodes[i].size == old(inodes[i].size)
        invariant forall j :: 0 <= j < k ==> inodes[i].addrs[j] == 0
        invariant forall j :: k <= j <= NDIRECT ==> inodes[i].addrs[j] == old(inodes[i].addrs[j])
      {
        StillUsed(sb, tree, i, k, bitmap);
        ghost var was, l := bitmap, logged;
        if inodes[i].addrs[k] != 0 {
          var ok := Bfree(inodes[i].addrs[k]);
          assert ok;
          LogsTwice(sb, old(data), old(bitmap), old(logged), data, was, l, data, bitmap, logged);
          inodes := inodes[i := inodes[i].(addrs := inodes[i].addrs[k := 0])];
        }
        NextReleased(sb, tree, i, k, was, bitmap);
        k := k + 1;
      }
    }

    method FreeIndirect(i: nat, ghost t: Tree)
      requires Owns(sb, t) && t.data == data && i < |inodes| == |t.inodes| && |inodes[i].addrs| == NDIRECT + 1
      requires inodes[i].addrs[NDIRECT] == t.inodes[i].addrs[NDIRECT] && BitsBut(sb, bitmap, t.owner, i, NDIRECT, false)
      modifies this`bitmap, this`inodes, this`logged
      ensures BitsOk(sb, bitmap, Without(t.owner, i).Keys)
      ensures Logs(sb, old(data), old(bitmap), old(logged), data, bitmap, logged)
      ensures Owns(sb, Tree(t.data, t.inodes[i := Emptied()], Without(t.owner, i)))
      ensures inodes == old(inodes)[i := old(inodes[i]).(addrs := old(inodes[i]).addrs[NDIRECT := 0])]
    {
      hide Logs;
      LogsNone(sb, data, bitmap, logged);
      var ind := inodes[i].addrs[NDIRECT];
      ghost var was;
      if ind != 0 {
        assert OwnedBy(t, ind, Ind(i));
        FreeEntries(i, ind, t);
        was := bitmap;
        ghost var l := logged;
        assert Used(bitmap, ind);
        var ok := Bfree(ind);
        assert ok;
        LogsTwice(sb, old(data), old(bitmap), old(logged), data, was, l, data, bitmap, logged);
        inodes := inodes[i := inodes[i].(addrs := inodes[i].addrs[NDIRECT := 0])];
      } else {
        NoEntries(sb, t, i, bitmap);
        assert inodes[i].addrs == inodes[i].addrs[NDIRECT := 0];
        was := bitmap;
      }
      Truncated(sb, t, i, was, bitmap);
    }

    method FreeEntries(i: nat, ind: nat, ghost t: Tree)
      requires Owns(sb, t) && t.data == data && i < |t.inodes| && ind == t.inodes[i].addrs[NDIRECT] != 0 && ind < |data|
      requires BitsBut(sb, bitmap, t.owner, i, NDIRECT, false)
      modifies this`bitmap, this`logged
      ensures BitsBut(sb, bitmap, t.owner, i, MAXFILE, false)
      ensures Logs(sb, old(data), old(bitmap), old(logged), data, bitmap, logged)
    {
      hide SlotsOwned, OwnersRecord, Used, Logs;
      LogsNone(sb, data, bitmap, logged);
      var j := 0;
      while j < NINDIRECT
        invariant Logs(sb, old(data), old(bitmap), old(logged), data, bitmap, logged)
        invariant j <= NINDIRECT && BitsBut(sb, bitmap, t.owner, i, NDIRECT + j, false)
      {
        StillUsed(sb, t, i, NDIRECT + j, bitmap);
        ghost var was, l := bitmap, logged;
        var a := Word(data[ind], j);
        if a != 0 {
          var ok := Bfree(a);
          assert ok;
          LogsTwice(sb, old(data), old(bitmap), old(logged), data, was, l, data, bitmap, logged);
        }
        NextReleased(sb, t, i, NDIRECT + j, was, bitmap);
        j := j + 1;
      }
    }

    /** Read up to n bytes of file i from offset off on.  copies: how many copies
        to the user succeed. */
    method Readi(i: nat, off: nat, n: nat, copies: nat) returns (r: ReadResult)
      requires Valid() && i < |inodes|
      modifies this`bitmap, this`data, this`inodes, this`tree, this`logged
      ensures Valid() && SameImages(old(tree), tree)
      ensures old(HoleFree(data, inodes[i])) ==> unchanged(this) && !r.ReadPanic?
      ensures r.ReadPanic? ==> Full(sb, bitmap)
      ensures !r.ReadPanic? ==> (r.CopyFailed? <==> copies < Chunks(off, |Slice(old(Contents(data, inodes[i])), off, n)|))
      ensures r.Read? ==> r.bytes == Slice(old(Contents(data, inodes[i])), off, n)
      ensures r.Read? ==> |r.bytes| == if off > old(inodes[i].size) || off + n >= U32 then 0 else Min(n, old(inodes[i].size) - off)
      ensures r.Read? ==> forall k :: 0 <= k < |r.bytes| ==> r.bytes[k] == old(Contents(data, inodes[i]))[off + k]
    {
      hide Owns, BitsOk, HoleFree;
      if off > inodes[i].size || off + n >= U32 {
        return Read([]);
      }
      var n1 := if off + n > inodes[i].size then inodes[i].size - off else n;
      r := ReadLoop(i, off, n1, copies);
      assert Slice(old(Contents(data, inodes[i])), off, n) == old(Image(data, inodes[i]))[off..off + n1];
    }

    method ReadLoop(i: nat, off: nat, n: nat, copies: nat) returns (r: ReadResult)
      requires Valid() && i < |inodes| && off + n <= inodes[i].size
      modifies this`bitmap, this`data, this`inodes, this`tree, this`logged
      ensures Valid() && SameImages(old(tree), tree)
      ensures old(HoleFree(data, inodes[i])) ==> unchanged(this) && !r.ReadPanic?
      ensures r.ReadPanic? ==> Full(sb, bitmap)
      ensures !r.ReadPanic? ==> (r.CopyFailed? <==> copies < Chunks(off, n))
      ensures r.Read? ==> r.bytes == old(Image(data, inodes[i]))[off..off + n]
    {
      hide Owns, BitsOk;
      var tot, o, t, out: Bytes := 0, off, 0, [];
      ghost var image := Image(data, inodes[i]);
      r := Read([]);
      while tot < n
        invariant Valid() && i < |inodes| && SameImages(old(tree), tree) && r.Read?
        invariant old(HoleFree(data, inodes[i])) ==> unchanged(this)
        invariant o == off + tot && t <= copies && tot == Upto(off, n, t) && t <= Chunks(off, n)
        invariant out == image[off..o]
        decreases n - tot
      {
        var m := if n - tot <= BSIZE - o % BSIZE then n - tot else BSIZE - o % BSIZE;
        UptoNext(off, n, t, tot, m, o);
        var got := ReadChunk(i, o / BSIZE, o % BSIZE, m);
        r := if got.None? then ReadPanic else if t == copies then CopyFailed else Read([]);
        if !r.Read? {
          break;
        }
        JoinSlices(image, off, o, m, out, got.value);
        out := out + got.value;
        tot, o, t := tot + m, o + m, t + 1;
      }
      if r.Read? {
        UptoAll(off, n, t);
        r := Read(out);
      }
    }

    /** The m bytes of block bn of file i from byte k on. */
    method ReadChunk(i: nat, bn: nat, k: nat, m: nat) returns (r: Option<Bytes>)
      requires Valid() && i < |inodes| && bn < MAXFILE && k + m <= BSIZE
      modifies this`bitmap, this`data, this`inodes, this`tree, this`logged
      ensures Valid() && SameImages(old(tree), tree)
      ensures old(AddrOf(data, inodes[i], bn)) != 0 ==> unchanged(this) && r.Some?
      ensures r.None? ==> Full(sb, bitmap)
      ensures r.Some? ==> r.value == old(Image(data, inodes[i]))[bn * BSIZE + k..bn * BSIZE + k + m]
    {
      var f;
      ghost var maps;
      f, maps := Bmap(i, bn);
      if f.OutOfBlocks? {
        return None;
      }
      BlockBytes(sb, tree, i, bn, k, m);
      r := Some(data[f.a][k..k + m]);
    }
  }

  function Min(a: nat, b: nat): nat {
    if a < b then a else b
  }

  /** What readi returns of contents c. */
  function Slice(c: Bytes, off: nat, n: nat): Bytes {
    if off > |c| || off + n >= U32 then [] else if off + n > |c| then c[off..] else c[off..off + n]
  }

  lemma UptoNext(off: nat, n: nat, t: nat, tot: nat, m: nat, o: nat)
    requires tot == Upto(off, n, t) < n && off + n <= MAXFILE * BSIZE && o == off + tot
    requires m == if n - tot <= BSIZE - o % BSIZE then n - tot else BSIZE - o % BSIZE
    ensures o / BSIZE < MAXFILE && o == o / BSIZE * BSIZE + o % BSIZE && o / BSIZE * BSIZE < off + n
    ensures Upto(off, n, t + 1) == tot + m <= n && t < Chunks(off, n)
  {
  }

  lemma JoinSlices(s: Bytes, a: nat, b: nat, m: nat, x: Bytes, y: Bytes)
    requires a <= b && b + m <= |s| && x == s[a..b] && y == s[b..b + m]
    ensures x + y == s[a..b + m]
  {
  }

  /** Without an indirect block there are no entries to free. */
  lemma NoEntries(sb: Super, t: Tree, i: nat, bitmap: Bitmap)
    requires Owns(sb, t) && i < |t.inodes| && t.inodes[i].addrs[NDIRECT] == 0 && BitsBut(sb, bitmap, t.owner, i, NDIRECT, false)
    ensures BitsBut(sb, bitmap, t.owner, i, MAXFILE, false)
  {
    forall b | 0 <= b < sb.size ensures Used(bitmap, b) <==> b < sb.meta || (b in t.owner && !Released(t.owner, b, i, MAXFILE, false)) {
      if b in t.owner {
        assert RecordedIn(t, t.owner[b], b);
      }
    }
  }

  /** File i has w spliced in at offset off; every other file is as it was. */
  ghost predicate SplicedInto(i: nat, off: nat, w: Bytes, data0: seq<Bytes>, inodes0: seq<Inode>, data: seq<Bytes>, inodes: seq<Inode>) {
    && i < |inodes| == |inodes0| && SizesOk(inodes0) && SizesOk(inodes) && off <= inodes0[i].size
    && Contents(data, inodes[i]) == Splice(Contents(data0, inodes0[i]), off, w)
    && (forall j :: 0 <= j < |inodes| && j != i ==> inodes[j] == inodes0[j])
    && (forall j :: 0 <= j < |inodes| && j != i ==> Contents(data, inodes[j]) == Contents(data0, inodes0[j]))
  }

  /** The most blocks a write of n bytes at offset off logs. */
  function TxBlocks(off: nat, n: nat): nat {
    2 * Chunks(off, n) + if n > 0 && off % BSIZE != 0 then 2 else 3
  }

  lemma WriteFacts(sb: Super, i: nat, off: nat, src: Bytes, rs: Rounds, copies: nat)
    requires RoundsOk(sb, i, off, src, rs) && (Size(rs) == |src| || !Going(rs))
    requires if Going(rs) then Count(rs) <= copies else Count(rs) == copies + 1
    ensures Size(rs) == Upto(off, |src|, copies) && Size(rs) <= |src|
    ensures ImagesOk(i, FirstOf(rs).t, rs.t, off, src[..Size(rs)]) && KeptAddrs(FirstOf(rs).t, rs.t)
    ensures Touched(i, rs.t, off / BSIZE, off / BSIZE + Chunks(off, Size(rs)))
  {
    RoundsImages(sb, i, off, src, rs);
    RoundsAddrs(sb, i, off, src, rs);
    RoundsPace(sb, i, off, src, rs);
    if !Going(rs) {
      RoundsPace(sb, i, off, src, rs.prev);
    }
    PaceEnds(off, |src|, if Going(rs) then Count(rs) else Count(rs) - 1, copies);
  }

  function Max(a: nat, b: nat): nat {
    if a > b then a else b
  }

  /** What the rounds of a write and the new size amount to. */
  lemma WriteSummary(sb: Super, i: nat, off: nat, src: Bytes, copies: nat, tot: nat, rs: Rounds, t: Tree, size: nat)
    requires RoundsOk(sb, i, off, src, rs) && FirstOf(rs).t == t && Size(rs) == tot
    requires (tot == |src| || !Going(rs)) && if Going(rs) then Count(rs) <= copies else Count(rs) == copies + 1
    requires i < |t.inodes| == |rs.t.inodes| && SizesOk(t.inodes) && off <= t.inodes[i].size && off + |src| <= MAXFILE * BSIZE
    requires size == Max(off + tot, t.inodes[i].size)
    ensures var v := Sized(rs.t, i, size);
            && tot == Upto(off, |src|, copies) <= |src| && SplicedInto(i, off, src[..tot], t.data, t.inodes, v.data, v.inodes)
            && forall j :: 0 <= j < |t.inodes| && HoleFree(t.data, t.inodes[j]) ==> HoleFree(v.data, v.inodes[j])
  {
    hide RoundsOk, ImagesOk, KeptAddrs, Touched;
    WriteFacts(sb, i, off, src, rs, copies);
    WriteEnds(sb, i, off, src[..tot], t, rs.t, Sized(rs.t, i, size));
  }

  lemma WriteLogged(sb: Super, i: nat, off: nat, src: Bytes, rs: Rounds, t: Tree)
    requires sb.Ok() && RoundsOk(sb, i, off, src, rs) && FirstOf(rs).t == t && FirstOf(rs).logged == {}
    requires i < |t.inodes| && off <= t.inodes[i].size && off + |src| <= MAXFILE * BSIZE
    ensures HoleFree(t.data, t.inodes[i]) ==> |rs.logged + {sb.IBlock(i)}| <= TxBlocks(off, |src|)
    ensures sb.size < BPB ==> |rs.logged + {sb.IBlock(i)}| <= Chunks(off, |src|) + 3
  {
    RoundsPace(sb, i, off, src, rs);
    RoundsLog(sb, i, off, src, rs);
    WriteLogs(sb, i, off, |src|, t, rs.t, rs.logged, Count(rs), AccOf(rs, i));
  }

  lemma ImageOfAddrs(data: seq<Bytes>, a: Inode, b: Inode)
    requires a.addrs == b.addrs
    ensures Image(data, a) == Image(data, b)
    ensures forall bn: nat :: AddrOf(data, a, bn) == AddrOf(data, b, bn)
  {
    assert forall bn: nat, k: nat :: Cell(data, a, bn, k) == Cell(data, b, bn, k);
  }

  lemma WriteEnds(sb: Super, i: nat, off: nat, w: Bytes, t: Tree, u: Tree, v: Tree)
    requires ImagesOk(i, t, u, off, w) && KeptAddrs(t, u) && Touched(i, u, off / BSIZE, off / BSIZE + Chunks(off, |w|))
    requires SizesOk(t.inodes) && off <= t.inodes[i].size && off + |w| <= MAXFILE * BSIZE
    requires v == Sized(u, i, Max(off + |w|, t.inodes[i].size))
    ensures SplicedInto(i, off, w, t.data, t.inodes, v.data, v.inodes)
    ensures forall j :: 0 <= j < |t.inodes| && HoleFree(t.data, t.inodes[j]) ==> HoleFree(v.data, v.inodes[j])
  {
    ImageOfAddrs(v.data, u.inodes[i], v.inodes[i]);
    ContentsSpliced(Image(t.data, t.inodes[i]), t.inodes[i].size, off, w);
    forall j | 0 <= j < |t.inodes| && HoleFree(t.data, t.inodes[j]) ensures HoleFree(v.data, v.inodes[j]) {
      NoHoles(i, off, |w|, t, u, v, j);
    }
  }

  lemma NoHoles(i: nat, off: nat, n: nat, t: Tree, u: Tree, v: Tree, j: nat)
    requires KeptAddrs(t, u) && Touched(i, u, off / BSIZE, off / BSIZE + Chunks(off, n)) && |v.inodes| == |u.inodes| && j < |t.inodes|
    requires HoleFree(t.data, t.inodes[j]) && v.data == u.data && v.inodes[j].addrs == u.inodes[j].addrs
    requires if j == i then off <= t.inodes[i].size && v.inodes[i].size <= (if off + n > t.inodes[i].size then off + n else t.inodes[i].size)
             else v.inodes[j].size == t.inodes[j].size
    ensures HoleFree(v.data, v.inodes[j])
  {
    forall bn | 0 <= bn < MAXFILE && bn * BSIZE < v.inodes[j].size ensures AddrOf(v.data, v.inodes[j], bn) != 0 {
      if bn * BSIZE < t.inodes[j].size {
        assert AddrOf(t.data, t.inodes[j], bn) != 0;
      } else {
        BeyondTouched(off, n, bn);
      }
      assert AddrOf(v.data, v.inodes[j], bn) == AddrOf(u.data, u.inodes[j], bn);
    }
  }

  lemma BeyondTouched(off: nat, n: nat, bn: nat)
    requires off <= bn * BSIZE < off + n
    ensures off / BSIZE <= bn < off / BSIZE + Chunks(off, n)
  {
  }

  lemma SubsetSize<T>(a: set<T>, b: set<T>)
    requires a <= b
    ensures |a| <= |b|
  {
    assert b == a + (b - a);
  }

  lemma UnionSize(logged: set<nat>, a: set<nat>, b: set<nat>, c: set<nat>, d: set<nat>)
    requires logged <= a + b + c + d
    ensures |logged| <= |a| + |b| + |c| + |d|
  {
    SubsetSize(logged, a + b + c + d);
  }

  /** The transaction bound. */
  lemma WriteLogs(sb: Super, i: nat, off: nat, n: nat, t: Tree, u: Tree, logged: set<nat>, rounds: nat, acc: Acc)
    requires sb.Ok() && LogOk(sb, i, t, u, {}, logged, off / BSIZE, rounds, acc) && rounds <= Chunks(off, n)
    requires off <= t.inodes[i].size && off + n <= MAXFILE * BSIZE
    ensures HoleFree(t.data, t.inodes[i]) ==> |logged + {sb.IBlock(i)}| <= TxBlocks(off, n)
    ensures sb.size < BPB ==> |logged + {sb.IBlock(i)}| <= Chunks(off, n) + 3
  {
    UnionSize(logged + {sb.IBlock(i)}, acc.blocks, acc.maps, IndirectSet(u, i), {sb.IBlock(i)});
    if sb.size < BPB {
      assert acc.maps <= {sb.bmapstart};
      SubsetSize(acc.maps, {sb.bmapstart});
    }
    if HoleFree(t.data, t.inodes[i]) && n > 0 && off % BSIZE != 0 {
      assert off / BSIZE < MAXFILE && off / BSIZE * BSIZE < t.inodes[i].size;
      assert AddrOf(t.data, t.inodes[i], off / BSIZE) != 0;
    }
  }

  lemma PaceEnds(off: nat, n: nat, t: nat, copies: nat)
    requires t == copies || (t <= copies && Upto(off, n, t) == n)
    ensures Upto(off, n, copies) == Upto(off, n, t) && Chunks(off, Upto(off, n, t)) <= t
  {
  }

  /** The rounds of a write so far, with the state after each. */
  datatype Rounds =
    | Begin(t: Tree, logged: set<nat>)
    | Next(prev: Rounds, bn: nat, k: nat, w: Bytes, a: nat, maps: set<nat>, t: Tree, logged: set<nat>)

  function FirstOf(rs: Rounds): Rounds {
    if rs.Begin? then rs else FirstOf(rs.prev)
  }

  function Count(rs: Rounds): nat {
    if rs.Begin? then 0 else Count(rs.prev) + 1
  }

  /** The number of bytes written. */
  function Size(rs: Rounds): nat {
    if rs.Begin? then 0 else Size(rs.prev) + |rs.w|
  }

  /** The account of what the rounds logged. */
  function AccOf(rs: Rounds, i: nat): Acc {
    if rs.Begin? then Acc({}, {}, 0)
    else
      var acc, t := AccOf(rs.prev, i), rs.prev.t;
      Acc(acc.blocks + {rs.a}, acc.maps + rs.maps,
          acc.grown + if i < |t.inodes| && AddrOf(t.data, t.inodes[i], rs.bn) == 0 then 1 else 0)
  }

  /** One round: block bn of file i is there and has w from byte k on. */
  ghost predicate RoundOk(sb: Super, i: nat, t: Tree, before: set<nat>, u: Tree, logged: set<nat>,
                          bn: nat, k: nat, w: Bytes, a: nat, maps: set<nat>) {
    && bn < MAXFILE && k + |w| <= BSIZE
    && ImagesOk(i, t, u, bn * BSIZE + k, w) && KeptAddrs(t, u) && AddrOf(u.data, u.inodes[i], bn) != 0
    && ChunkLogged(sb, i, t, u, bn, before, logged, a, maps)
  }

  /** The block is found or made, and nothing written yet. */
  lemma RoundFound(sb: Super, i: nat, t: Tree, before: set<nat>, u: Tree, logged: set<nat>, bn: nat, k: nat, a: nat, maps: set<nat>)
    requires bn < MAXFILE && k <= BSIZE && i < |t.inodes| == |u.inodes| && SameImages(t, u) && KeptAddrs(t, u)
    requires a == AddrOf(u.data, u.inodes[i], bn) != 0 && forall j :: 0 <= j < |t.inodes| && j != i ==> u.inodes[j] == t.inodes[j]
    requires ChunkLogged(sb, i, t, u, bn, before, logged, a, maps)
    ensures RoundOk(sb, i, t, before, u, logged, bn, k, [], a, maps)
  {
    hide KeptAddrs, ChunkLogged, Image, Splice, AddrOf;
    SpliceNothing(Image(u.data, u.inodes[i]), bn * BSIZE + k);
  }

  /** w is copied into the block. */
  lemma RoundWritten(sb: Super, i: nat, t: Tree, before: set<nat>, u: Tree, seen: set<nat>, v: Tree, logged: set<nat>,
                     bn: nat, k: nat, w: Bytes, a: nat, maps: set<nat>)
    requires RoundOk(sb, i, t, before, u, seen, bn, k, [], a, maps) && k + |w| <= BSIZE
    requires v.inodes == u.inodes && KeptAddrs(u, v) && logged == seen + {a}
    requires Image(v.data, v.inodes[i]) == Splice(Image(u.data, u.inodes[i]), bn * BSIZE + k, w)
    requires forall j :: 0 <= j < |v.inodes| && j != i ==> Image(v.data, v.inodes[j]) == Image(u.data, u.inodes[j])
    ensures RoundOk(sb, i, t, before, v, logged, bn, k, w, a, maps)
  {
    assert AddrOf(v.data, v.inodes[i], bn) == AddrOf(u.data, u.inodes[i], bn);
    KeptAddrsTwice(t, u, v);
    hide KeptAddrs, Image, Splice, AddrOf, MapBlock;
    SpliceNothing(Image(t.data, t.inodes[i]), bn * BSIZE + k);
  }

  /** The last round, if any, has written something. */
  predicate Going(rs: Rounds) {
    rs.Next? ==> rs.w != []
  }

  /** Rounds that write the bytes of src in order, from offset off on, each up to
      the end of its block or of src; only the last may write nothing. */
  ghost predicate RoundsOk(sb: Super, i: nat, off: nat, src: Bytes, rs: Rounds) {
    match rs
    case Begin(t, _) => i < |t.inodes| && off <= MAXFILE * BSIZE
    case Next(prev, bn, k, w, a, maps, u, logged) =>
      && RoundsOk(sb, i, off, src, prev) && Going(prev)
      && bn == (off + Size(prev)) / BSIZE && k == (off + Size(prev)) % BSIZE
      && Size(prev) + |w| <= |src| && Size(prev) < |src| && w == src[Size(prev)..Size(prev) + |w|]
      && (w == [] || k + |w| == BSIZE || Size(prev) + |w| == |src|)
      && RoundOk(sb, i, prev.t, prev.logged, u, logged, bn, k, w, a, maps)
  }

  lemma Extend(sb: Super, i: nat, off: nat, src: Bytes, rs: Rounds, tot: nat, m: nat,
               bn: nat, k: nat, w: Bytes, a: nat, maps: set<nat>, u: Tree, logged: set<nat>) returns (r: Rounds)
    requires RoundsOk(sb, i, off, src, rs) && Going(rs) && tot == Size(rs) < |src|
    requires bn == (off + tot) / BSIZE && k == (off + tot) % BSIZE && 0 < m && tot + m <= |src|
    requires w == [] || w == src[tot..tot + m]
    requires k + m == BSIZE || tot + m == |src|
    requires RoundOk(sb, i, rs.t, rs.logged, u, logged, bn, k, w, a, maps)
    ensures RoundsOk(sb, i, off, src, r) && r.t == u && r.logged == logged && Going(r) == (w != [])
    ensures FirstOf(r) == FirstOf(rs) && Size(r) == (if w == [] then tot else tot + m) && Count(r) == Count(rs) + 1
  {
    hide RoundOk;
    r := Next(rs, bn, k, w, a, maps, u, logged);
    assert w == src[tot..tot + |w|];
  }

  /** How far the rounds have come. */
  lemma {:induction false} RoundsPace(sb: Super, i: nat, off: nat, src: Bytes, rs: Rounds)
    requires RoundsOk(sb, i, off, src, rs)
    ensures Size(rs) <= |src| && Count(rs) <= Chunks(off, |src|)
    ensures Going(rs) ==> Size(rs) == Upto(off, |src|, Count(rs))
    ensures Going(rs) && Size(rs) < |src| ==> (off + Size(rs)) / BSIZE == off / BSIZE + Count(rs)
    ensures rs.Next? ==> rs.bn == off / BSIZE + Count(rs) - 1
  {
    hide ImagesOk, KeptAddrs, ChunkLogged, AddrOf;
    if rs.Next? {
      RoundsPace(sb, i, off, src, rs.prev);
    }
  }

  lemma {:induction false} RoundsImages(sb: Super, i: nat, off: nat, src: Bytes, rs: Rounds)
    requires RoundsOk(sb, i, off, src, rs)
    ensures Size(rs) <= |src| && ImagesOk(i, FirstOf(rs).t, rs.t, off, src[..Size(rs)])
  {
    hide KeptAddrs, ChunkLogged, Image, Splice;
    if rs.Begin? {
      SpliceNothing(Image(rs.t.data, rs.t.inodes[i]), off);
      assert src[..0] == [];
    } else {
      RoundsImages(sb, i, off, src, rs.prev);
      ImagesNext(i, FirstOf(rs).t, rs.prev.t, rs.t, off, src[..Size(rs.prev)], rs.bn * BSIZE + rs.k, rs.w);
      TakeMore(src, Size(rs.prev), |rs.w|);
    }
  }

  lemma {:induction false} RoundsAddrs(sb: Super, i: nat, off: nat, src: Bytes, rs: Rounds)
    requires RoundsOk(sb, i, off, src, rs)
    ensures KeptAddrs(FirstOf(rs).t, rs.t) && Touched(i, rs.t, off / BSIZE, off / BSIZE + Count(rs))
  {
    if rs.Next? {
      RoundsAddrs(sb, i, off, src, rs.prev);
      RoundsPace(sb, i, off, src, rs);
      KeptAddrsTwice(FirstOf(rs).t, rs.prev.t, rs.t);
      TouchedNext(i, rs.prev.t, rs.t, off / BSIZE, rs.bn);
    }
  }

  lemma {:induction false} RoundsLog(sb: Super, i: nat, off: nat, src: Bytes, rs: Rounds)
    requires RoundsOk(sb, i, off, src, rs)
    ensures LogOk(sb, i, FirstOf(rs).t, rs.t, FirstOf(rs).logged, rs.logged, off / BSIZE, Count(rs), AccOf(rs, i))
  {
    if rs.Next? {
      RoundsLog(sb, i, off, src, rs.prev);
      RoundsAddrs(sb, i, off, src, rs.prev);
      RoundsPace(sb, i, off, src, rs);
      LogNext(sb, i, FirstOf(rs).t, rs.prev.t, rs.t, FirstOf(rs).logged, rs.prev.logged, rs.logged,
              off / BSIZE, rs.bn, Count(rs.prev), AccOf(rs.prev, i), AccOf(rs, i), rs.a, rs.maps);
    }
  }

  /** What a transaction logs, for the account: data blocks, bitmap blocks, and how
      many data blocks are new. */
  datatype Acc = Acc(blocks: set<nat>, maps: set<nat>, grown: nat)

  /** File i has w at offset o and is otherwise as before; so are the others. */
  ghost predicate ImagesOk(i: nat, t: Tree, u: Tree, off: nat, w: Bytes) {
    && i < |t.inodes| == |u.inodes| && off <= MAXFILE * BSIZE
    && (forall j :: 0 <= j < |t.inodes| ==> u.inodes[j].size == t.inodes[j].size)
    && Image(u.data, u.inodes[i]) == Splice(Image(t.data, t.inodes[i]), off, w)
    && (forall j :: 0 <= j < |t.inodes| && j != i ==> u.inodes[j] == t.inodes[j])
    && (forall j :: 0 <= j < |t.inodes| && j != i ==> Image(u.data, u.inodes[j]) == Image(t.data, t.inodes[j]))
  }

  /** The blocks of file i from first up to end are there. */
  ghost predicate Touched(i: nat, u: Tree, first: nat, end: nat) {
    i < |u.inodes| && forall bn :: first <= bn < end ==> AddrOf(u.data, u.inodes[i], bn) != 0
  }

  lemma TouchedNext(i: nat, t: Tree, u: Tree, first: nat, bn: nat)
    requires Touched(i, t, first, bn) && KeptAddrs(t, u) && bn < MAXFILE && AddrOf(u.data, u.inodes[i], bn) != 0
    ensures Touched(i, u, first, bn + 1)
  {
  }

  /** The bitmap block of some block. */
  ghost predicate MapBlock(sb: Super, m: nat) {
    exists b: nat :: b < sb.size && m == sb.BBlock(b)
  }

  function IndirectAt(t: Tree, i: nat): nat {
    if i < |t.inodes| && |t.inodes[i].addrs| == NDIRECT + 1 then t.inodes[i].addrs[NDIRECT] else 0
  }

  function IndirectSet(t: Tree, i: nat): set<nat> {
    if IndirectAt(t, i) == 0 then {} else {IndirectAt(t, i)}
  }

  function NewIndirect(i: nat, t: Tree, u: Tree): nat {
    if IndirectAt(t, i) != IndirectAt(u, i) then 1 else 0
  }

  ghost predicate KeptIndirect(i: nat, t: Tree, u: Tree) {
    IndirectAt(t, i) != 0 ==> IndirectAt(u, i) == IndirectAt(t, i)
  }

  ghost predicate ChunkLogged(sb: Super, i: nat, t: Tree, u: Tree, bn: nat, before: set<nat>, logged: set<nat>, a: nat, maps: set<nat>) {
    && i < |t.inodes| == |u.inodes| && KeptIndirect(i, t, u)
    && logged <= before + maps + {a} + IndirectSet(u, i)
    && |maps| <= (if AddrOf(t.data, t.inodes[i], bn) == 0 then 1 else 0) + NewIndirect(i, t, u)
    && forall m :: m in maps ==> MapBlock(sb, m)
  }

  /** The account after n blocks. */
  ghost predicate LogOk(sb: Super, i: nat, t: Tree, u: Tree, before: set<nat>, logged: set<nat>, first: nat, n: nat, acc: Acc) {
    && i < |t.inodes| == |u.inodes| && KeptIndirect(i, t, u)
    && logged <= before + acc.blocks + acc.maps + IndirectSet(u, i)
    && |acc.blocks| <= n && |acc.maps| <= acc.grown + NewIndirect(i, t, u)
    && acc.grown <= n && (n > 0 && AddrOf(t.data, t.inodes[i], first) != 0 ==> acc.grown < n)
    && forall m :: m in acc.maps ==> MapBlock(sb, m)
  }

  lemma ImagesNext(i: nat, t0: Tree, t: Tree, u: Tree, off: nat, x: Bytes, o: nat, y: Bytes)
    requires ImagesOk(i, t0, t, off, x) && ImagesOk(i, t, u, o, y) && o == off + |x| && o + |y| <= MAXFILE * BSIZE
    ensures ImagesOk(i, t0, u, off, x + y)
  {
    SpliceSplice(Image(t0.data, t0.inodes[i]), off, x, y);
  }

  function NextAcc(acc: Acc, a: nat, maps: set<nat>, missing: bool): Acc {
    Acc(acc.blocks + {a}, acc.maps + maps, acc.grown + if missing then 1 else 0)
  }

  lemma LogNext(sb: Super, i: nat, t0: Tree, t: Tree, u: Tree, before: set<nat>, seen: set<nat>, logged: set<nat>,
                first: nat, bn: nat, n: nat, acc: Acc, next: Acc, a: nat, maps: set<nat>)
    requires LogOk(sb, i, t0, t, before, seen, first, n, acc) && KeptAddrs(t0, t)
    requires ChunkLogged(sb, i, t, u, bn, seen, logged, a, maps) && first <= bn < MAXFILE && n == bn - first
    requires next == NextAcc(acc, a, maps, AddrOf(t.data, t.inodes[i], bn) == 0)
    ensures LogOk(sb, i, t0, u, before, logged, first, n + 1, next)
  {
    assert |acc.maps + maps| <= |acc.maps| + |maps| && |acc.blocks + {a}| <= |acc.blocks| + 1;
    assert IndirectSet(t, i) <= IndirectSet(u, i);
  }

  lemma TakeMore(s: Bytes, n: nat, m: nat)
    requires n + m <= |s|
    ensures s[..n] + s[n..n + m] == s[..n + m] && s[..n] + [] == s[..n]
  {
  }

  lemma SpliceNothing(c: Bytes, off: nat)
    requires off <= |c|
    ensures Splice(c, off, []) == c
  {
  }

  ghost predicate SameSizes(was: seq<Inode>, now: seq<Inode>) {
    |was| == |now| && forall i :: 0 <= i < |was| ==> now[i].size == was[i].size
  }

  ghost predicate Full(sb: Super, bitmap: Bitmap) {
    forall b :: 0 <= b < sb.size ==> Used(bitmap, b)
  }

  function IndirectOf(ino: Inode): set<nat> {
    if |ino.addrs| == NDIRECT + 1 && ino.addrs[NDIRECT] != 0 then {ino.addrs[NDIRECT]} else {}
  }

  ghost predicate SizesOk(inodes: seq<Inode>) {
    forall i :: 0 <= i < |inodes| ==> inodes[i].size <= MAXFILE * BSIZE
  }
}
