/** mkfs/mkfs.c: the image builder, and the file system it leaves. */
module Mkfs {
  import opened FsDisk
  import opened FsChanges
  import opened Fs

  /** The image being built: inodes and blocks are handed out in order. */
  class Builder {
    const sb: Super
    var freeblock: nat
    var freeinode: nat
    var data: seq<Bytes>
    var dinodes: seq<Inode>
    var bitmap: Bitmap
    ghost var tree: Tree

    ghost predicate Valid()
      reads this
    {
      && tree.data == data && tree.inodes == dinodes && Owns(sb, tree) && SizesOk(dinodes)
      && Handed(sb, tree, freeblock)
    }

    ghost predicate Blank()
      reads this`bitmap
    {
      MapOk(sb, bitmap) && forall b: nat :: !Used(bitmap, b)
    }

    /** An image of zeroes. */
    constructor (sb: Super)
      requires sb.Ok()
      ensures this.sb == sb && Valid() && Blank() && freeblock == sb.meta && freeinode == 1
      ensures forall i :: 0 <= i < |dinodes| ==> dinodes[i] == Emptied()
    {
      this.sb := sb;
      freeblock, freeinode := sb.meta, 1;
      data := seq(sb.size, _ => Zeros());
      dinodes := seq(sb.ninodes, _ => Emptied());
      bitmap := seq(sb.size / BPB + 1, _ => seq(BSIZE, _ => 0));
      tree := Tree(seq(sb.size, _ => Zeros()), seq(sb.ninodes, _ => Emptied()), map[]);
      new;
      NothingUsed(sb, bitmap);
    }

    method Ialloc() returns (inum: nat)
      requires Valid() && freeinode < |dinodes| && dinodes[freeinode] == Emptied()
      modifies this`freeinode
      ensures Valid() && inum == old(freeinode) && freeinode == inum + 1
    {
      inum := freeinode;
      freeinode := freeinode + 1;
    }

    /** Append xs to file i. */
    method Iappend(i: nat, xs: Bytes)
      requires Valid() && i < |dinodes| && dinodes[i].size + |xs| <= MAXFILE * BSIZE
      requires freeblock + Chunks(dinodes[i].size, |xs|) + 1 <= sb.size
      modifies this`freeblock, this`data, this`dinodes, this`tree
      ensures Valid() && |dinodes| == old(|dinodes|)
      ensures Contents(data, dinodes[i]) == old(Contents(data, dinodes[i])) + xs
      ensures forall j :: 0 <= j < |dinodes| && j != i ==> dinodes[j] == old(dinodes[j]) && Contents(data, dinodes[j]) == old(Contents(data, dinodes[j]))
      ensures forall j :: 0 <= j < |dinodes| && old(HoleFree(data, dinodes[j])) ==> HoleFree(data, dinodes[j])
      ensures old(Tight(data, dinodes[i])) ==> Tight(data, dinodes[i])
    {
      var off := dinodes[i].size;
      ghost var first, bn := AppendBlocks(i, off, xs);
      var end := off + |xs|;
      AppendEnds(sb, i, off, xs, old(tree), tree, end, first, bn);
      SetSize(i, end);
    }

    method SetSize(i: nat, size: nat)
      requires Valid() && i < |dinodes| && size <= MAXFILE * BSIZE
      modifies this`dinodes, this`tree
      ensures Valid() && tree == Sized(old(tree), i, size)
    {
      Resized(sb, tree, i, size);
      dinodes := dinodes[i := dinodes[i].(size := size)];
      tree := Sized(tree, i, size);
    }

    method AppendBlocks(i: nat, off: nat, xs: Bytes) returns (ghost first: nat, ghost bn: nat)
      requires Valid() && i < |dinodes| && off == dinodes[i].size && off + |xs| <= MAXFILE * BSIZE
      requires freeblock + Chunks(off, |xs|) + 1 <= sb.size
      modifies this`freeblock, this`data, this`dinodes, this`tree
      ensures Valid() && Appended(i, old(tree), tree, off, xs, first, bn)
      ensures first == off / BSIZE && bn == first + Chunks(off, |xs|)
    {
      hide Owns, Handed, Appended;
      var tot, o, t := 0, off, 0;
      first, bn := off / BSIZE, off / BSIZE;
      ghost var t0 := tree;
      AppendedNone(i, tree, off, first);
      assert xs[..0] == [];
      while tot < |xs|
        invariant Valid() && i < |dinodes| && o == off + tot && tot == Upto(off, |xs|, t) && t <= Chunks(off, |xs|) && bn == first + t
        invariant Room(sb, tree, i, freeblock, Chunks(off, |xs|) - t)
        invariant Appended(i, t0, tree, off, xs[..tot], first, bn)
        decreases |xs| - tot
      {
        var n1 := if |xs| - tot <= BSIZE - o % BSIZE then |xs| - tot else BSIZE - o % BSIZE;
        UptoNext(off, |xs|, t, tot, n1, o);
        var fbn, end := o / BSIZE, tot + n1;
        UptoBlock(off, |xs|, t, tot, o, bn);
        AppendRound(i, off, xs, tot, end, o, fbn, o % BSIZE, t0, first);
        tot, o, t, bn := end, o + n1, t + 1, fbn + 1;
      }
      UptoAll(off, |xs|, t);
      assert xs[..tot] == xs;
    }

    method AppendRound(i: nat, off: nat, xs: Bytes, tot: nat, end: nat, o: nat, fbn: nat, k: nat, ghost t0: Tree, ghost first: nat)
      requires Valid() && i < |dinodes| && tot <= end <= |xs| && off + |xs| <= MAXFILE * BSIZE && first <= fbn < MAXFILE
      requires o == off + tot && o == fbn * BSIZE + k && k + (end - tot) <= BSIZE
      requires Room(sb, tree, i, freeblock, 1) && Appended(i, t0, tree, off, xs[..tot], first, fbn)
      modifies this`freeblock, this`data, this`dinodes, this`tree
      ensures Valid() && |dinodes| == old(|dinodes|) && Appended(i, t0, tree, off, xs[..end], first, fbn + 1)
      ensures Spent(i, old(tree), tree, old(freeblock), freeblock, 1)
    {
      hide SlotsOwned, OwnersRecord, Handed;
      ghost var t := tree;
      AppendChunk(i, fbn, k, xs[tot..end]);
      PrefixGrows(xs, tot, end);
      AppendedNext(i, t0, t, tree, off, xs[..tot], o, xs[tot..end], first, fbn);
    }

    /** One round of iappend. */
    method AppendChunk(i: nat, fbn: nat, k: nat, w: Bytes)
      requires Valid() && i < |dinodes| && fbn < MAXFILE && k + |w| <= BSIZE && Room(sb, tree, i, freeblock, 1)
      modifies this`freeblock, this`data, this`dinodes, this`tree
      ensures Valid() && ImagesOk(i, old(tree), tree, fbn * BSIZE + k, w) && KeptAddrs(old(tree), tree) && OnlyBlock(old(tree), tree, i, fbn)
      ensures AddrOf(tree.data, tree.inodes[i], fbn) != 0
      ensures Spent(i, old(tree), tree, old(freeblock), freeblock, 1)
    {
      var x := FindBlock(i, fbn);
      ghost var t := tree;
      assert OwnedBy(tree, x, Data(i, fbn));
      data := data[x := Overlay(data[x], k, w)];
      tree := tree.(data := tree.data[x := Overlay(tree.data[x], k, w)]);
      Overwritten(sb, t, tree, i, fbn, k, w);
      KeptAddrsTwice(old(tree), t, tree);
    }

    /** The number of block fbn of file i, handing out what is missing. */
    method FindBlock(i: nat, fbn: nat) returns (x: nat)
      requires Valid() && i < |dinodes| && fbn < MAXFILE && Room(sb, tree, i, freeblock, 1)
      modifies this`freeblock, this`data, this`dinodes, this`tree
      ensures Valid() && Kept(i, old(tree), tree) && OnlyBlock(old(tree), tree, i, fbn) && x == AddrOf(tree.data, tree.inodes[i], fbn) != 0
      ensures Spent(i, old(tree), tree, old(freeblock), freeblock, 1)
    {
      if fbn < NDIRECT {
        if dinodes[i].addrs[fbn] == 0 {
          TakeDirect(i, fbn);
        }
        return dinodes[i].addrs[fbn];
      }
      if dinodes[i].addrs[NDIRECT] == 0 {
        TakeIndirect(i);
      }
      ghost var t := tree;
      assert OwnedBy(tree, dinodes[i].addrs[NDIRECT], Ind(i));
      if Word(data[dinodes[i].addrs[NDIRECT]], fbn - NDIRECT) == 0 {
        TakeEntry(i, fbn);
      }
      KeptOnce(i, old(tree), t, tree);
      x := Word(data[dinodes[i].addrs[NDIRECT]], fbn - NDIRECT);
    }

    method TakeDirect(i: nat, fbn: nat)
      requires Valid() && i < |dinodes| && fbn < NDIRECT && dinodes[i].addrs[fbn] == 0 && freeblock < sb.size
      modifies this`freeblock, this`dinodes, this`tree
      ensures Valid() && Kept(i, old(tree), tree) && OnlyBlock(old(tree), tree, i, fbn) && AddrOf(tree.data, tree.inodes[i], fbn) != 0
      ensures Spent(i, old(tree), tree, old(freeblock), freeblock, 1)
    {
      PlacedDirect(sb, tree, i, fbn, freeblock);
      dinodes := dinodes[i := dinodes[i].(addrs := dinodes[i].addrs[fbn := freeblock])];
      tree := Tree(tree.data, tree.inodes[i := tree.inodes[i].(addrs := tree.inodes[i].addrs[fbn := freeblock])], tree.owner[freeblock := Data(i, fbn)]);
      freeblock := freeblock + 1;
    }

    method TakeIndirect(i: nat)
      requires Valid() && i < |dinodes| && dinodes[i].addrs[NDIRECT] == 0 && freeblock < sb.size
      modifies this`freeblock, this`dinodes, this`tree
      ensures Valid() && Kept(i, old(tree), tree) && OnlyBlock(old(tree), tree, i, MAXFILE) && IndirectAt(tree, i) != 0
      ensures Spent(i, old(tree), tree, old(freeblock), freeblock, 0)
    {
      PlacedIndirect(sb, tree, i, freeblock);
      dinodes := dinodes[i := dinodes[i].(addrs := dinodes[i].addrs[NDIRECT := freeblock])];
      tree := Tree(tree.data, tree.inodes[i := tree.inodes[i].(addrs := tree.inodes[i].addrs[NDIRECT := freeblock])], tree.owner[freeblock := Ind(i)]);
      freeblock := freeblock + 1;
    }

    method TakeEntry(i: nat, fbn: nat)
      requires Valid() && i < |dinodes| && NDIRECT <= fbn < MAXFILE && freeblock < sb.size
      requires dinodes[i].addrs[NDIRECT] != 0 && AddrOf(data, dinodes[i], fbn) == 0
      modifies this`freeblock, this`data, this`tree
      ensures Valid() && Kept(i, old(tree), tree) && OnlyBlock(old(tree), tree, i, fbn) && AddrOf(tree.data, tree.inodes[i], fbn) != 0
      ensures Spent(i, old(tree), tree, old(freeblock), freeblock, 1)
    {
      assert OwnedBy(tree, dinodes[i].addrs[NDIRECT], Ind(i));
      hide SlotsOwned, OwnersRecord, SameImages, KeptAddrs, OnlyBlock;
      PlacedEntry(sb, tree, i, fbn, freeblock);
      var ind := dinodes[i].addrs[NDIRECT];
      data := PutEntry(data, ind, fbn - NDIRECT, freeblock);
      tree := WithEntry(tree, i, fbn, freeblock);
      freeblock := freeblock + 1;
    }

    /** The directory's size rounded up to whole blocks. */
    method FixRootSize(root: nat)
      requires Valid() && root < |dinodes| && (dinodes[root].size / BSIZE + 1) * BSIZE <= MAXFILE * BSIZE
      modifies this`dinodes, this`tree
      ensures Valid() && data == old(data) && |dinodes| == old(|dinodes|)
      ensures forall j :: 0 <= j < |dinodes| && j != root ==> dinodes[j] == old(dinodes[j])
      ensures dinodes[root] == old(dinodes[root]).(size := (old(dinodes[root].size) / BSIZE + 1) * BSIZE)
    {
      var off := dinodes[root].size;
      off := (off / BSIZE + 1) * BSIZE;
      SetSize(root, off);
    }

    /** Write the bitmap: the blocks handed out, and all before them, are in use.
        What is left is a file system whose every block is accounted for. */
    method Balloc()
      requires Valid() && Blank() && freeblock < BPB
      modifies this`bitmap
      ensures Owns(sb, tree) && tree.data == data && tree.inodes == dinodes && SizesOk(dinodes)
      ensures BitsOk(sb, bitmap, tree.owner.Keys)
    {
      var i := 0;
      while i < freeblock
        invariant i <= freeblock && MapOk(sb, bitmap)
        invariant forall b: nat :: Used(bitmap, b) <==> b < i
      {
        MarkedOk(sb, bitmap, i);
        bitmap := Marked(bitmap, i);
        i := i + 1;
      }
    }

    /** The image as the kernel finds it. */
    method Mount() returns (fs: FileSystem)
      requires Owns(sb, tree) && tree.data == data && tree.inodes == dinodes && SizesOk(dinodes) && BitsOk(sb, bitmap, tree.owner.Keys)
      ensures fresh(fs) && fs.Valid() && fs.sb == sb && fs.data == data && fs.inodes == dinodes
    {
      fs := new FileSystem(sb, bitmap, data, dinodes, tree.owner);
    }
  }

  /** Nothing reads differently; only file i has new blocks. */
  ghost predicate Kept(i: nat, t: Tree, u: Tree) {
    SameImages(t, u) && KeptAddrs(t, u) && forall j :: 0 <= j < |t.inodes| && j != i ==> u.inodes[j] == t.inodes[j]
  }

  lemma KeptOnce(i: nat, t: Tree, u: Tree, v: Tree)
    requires Kept(i, t, u) && Kept(i, u, v)
    ensures Kept(i, t, v)
  {
    KeptTwice(t, u, v);
  }

  /** At most n data blocks and one new indirect block have been handed out. */
  ghost predicate Spent(i: nat, t: Tree, u: Tree, was: nat, now: nat, n: nat) {
    now + (if IndirectAt(u, i) == 0 then 1 else 0) <= was + n + if IndirectAt(t, i) == 0 then 1 else 0
  }

  /** The directory that mkfs leaves has a hole exactly when its entries fill whole
      blocks. */
  lemma RootHole(data: seq<Bytes>, ino: Inode, fixed: Inode)
    requires HoleFree(data, ino) && fixed == ino.(size := (ino.size / BSIZE + 1) * BSIZE) && fixed.size <= MAXFILE * BSIZE
    requires Tight(data, ino)
    ensures HoleFree(data, fixed) <==> ino.size % BSIZE != 0
  {
    forall bn: nat | bn < MAXFILE ensures AddrOf(data, fixed, bn) == AddrOf(data, ino, bn) {
    }
    var last := ino.size / BSIZE;
    if ino.size % BSIZE == 0 {
      assert AddrOf(data, ino, last) == 0;
    } else {
      forall bn | 0 <= bn < MAXFILE && bn * BSIZE < fixed.size ensures AddrOf(data, fixed, bn) != 0 {
        assert bn * BSIZE < ino.size;
      }
    }
  }

  /** No block lies beyond the end of the file. */
  ghost predicate Tight(data: seq<Bytes>, ino: Inode) {
    forall bn :: 0 <= bn < MAXFILE && AddrOf(data, ino, bn) != 0 ==> bn * BSIZE < ino.size
  }

  /** File i has gained w at offset off and only the blocks from first up to end. */
  ghost predicate Appended(i: nat, t: Tree, u: Tree, off: nat, w: Bytes, first: nat, end: nat) {
    && ImagesOk(i, t, u, off, w) && KeptAddrs(t, u) && Touched(i, u, first, end)
    && forall bn :: 0 <= bn < MAXFILE && !(first <= bn < end) ==> AddrOf(u.data, u.inodes[i], bn) == AddrOf(t.data, t.inodes[i], bn)
  }

  lemma AppendedNone(i: nat, t: Tree, off: nat, first: nat)
    requires i < |t.inodes| && off <= MAXFILE * BSIZE
    ensures Appended(i, t, t, off, [], first, first)
  {
    SpliceNothing(Image(t.data, t.inodes[i]), off);
  }

  lemma AppendedNext(i: nat, t0: Tree, t: Tree, u: Tree, off: nat, x: Bytes, o: nat, y: Bytes, first: nat, bn: nat)
    requires Appended(i, t0, t, off, x, first, bn) && first <= bn < MAXFILE
    requires ImagesOk(i, t, u, o, y) && o == off + |x| && o + |y| <= MAXFILE * BSIZE
    requires KeptAddrs(t, u) && OnlyBlock(t, u, i, bn) && AddrOf(u.data, u.inodes[i], bn) != 0
    ensures Appended(i, t0, u, off, x + y, first, bn + 1)
  {
    ImagesNext(i, t0, t, u, off, x, o, y);
    KeptAddrsTwice(t0, t, u);
    TouchedNext(i, t, u, first, bn);
  }

  lemma StaysTight(i: nat, off: nat, xs: Bytes, t: Tree, u: Tree, v: Tree)
    requires Appended(i, t, u, off, xs, off / BSIZE, off / BSIZE + Chunks(off, |xs|)) && off == t.inodes[i].size
    requires v == Sized(u, i, off + |xs|)
    ensures Tight(t.data, t.inodes[i]) ==> Tight(v.data, v.inodes[i])
  {
    if Tight(t.data, t.inodes[i]) {
      ImageOfAddrs(u.data, u.inodes[i], v.inodes[i]);
      forall bn | 0 <= bn < MAXFILE && AddrOf(v.data, v.inodes[i], bn) != 0 ensures bn * BSIZE < off + |xs| {
        assert AddrOf(u.data, u.inodes[i], bn) != 0;
        if off / BSIZE <= bn < off / BSIZE + Chunks(off, |xs|) {
          LastTouched(off, |xs|, bn);
        }
      }
    }
  }

  /** What the rounds of iappend and the new size amount to. */
  lemma AppendEnds(sb: Super, i: nat, off: nat, xs: Bytes, t: Tree, u: Tree, end: nat, first: nat, bn: nat)
    requires Owns(sb, u) && Appended(i, t, u, off, xs, first, bn) && first == off / BSIZE && bn == first + Chunks(off, |xs|)
    requires SizesOk(t.inodes) && off == t.inodes[i].size && end == off + |xs| <= MAXFILE * BSIZE
    ensures var v := Sized(u, i, end);
            && Owns(sb, v) && SizesOk(v.inodes) && Contents(v.data, v.inodes[i]) == Contents(t.data, t.inodes[i]) + xs
            && (forall j :: 0 <= j < |t.inodes| && j != i ==> v.inodes[j] == t.inodes[j] && Contents(v.data, v.inodes[j]) == Contents(t.data, t.inodes[j]))
            && (forall j :: 0 <= j < |t.inodes| && HoleFree(t.data, t.inodes[j]) ==> HoleFree(v.data, v.inodes[j]))
            && (Tight(t.data, t.inodes[i]) ==> Tight(v.data, v.inodes[i]))
  {
    var v := Sized(u, i, end);
    Resized(sb, u, i, end);
    WriteEnds(sb, i, off, xs, t, u, v);
    StaysTight(i, off, xs, t, u, v);
    SpliceAtEnd(Contents(t.data, t.inodes[i]), xs);
  }

  lemma LastTouched(off: nat, n: nat, bn: nat)
    requires bn < off / BSIZE + Chunks(off, n) && n > 0
    ensures bn * BSIZE < off + n
  {
  }

  /** The blocks handed out are those below freeblock; the others are zeroed. */
  ghost predicate Handed(sb: Super, t: Tree, freeblock: nat) {
    && sb.meta <= freeblock <= sb.size == |t.data|
    && (forall b :: b in t.owner <==> sb.meta <= b < freeblock)
    && (forall b :: freeblock <= b < sb.size ==> t.data[b] == Zeros())
  }

  /** There is room for n data blocks and, if need be, the indirect block. */
  ghost predicate Room(sb: Super, t: Tree, i: nat, freeblock: nat, n: int) {
    freeblock + n + (if IndirectAt(t, i) == 0 then 1 else 0) <= sb.size
  }

  lemma NothingUsed(sb: Super, bitmap: Bitmap)
    requires MapOk(sb, bitmap) && forall k, j :: 0 <= k < |bitmap| && 0 <= j < |bitmap[k]| ==> bitmap[k][j] == 0
    ensures forall b: nat :: !Used(bitmap, b)
  {
  }

  lemma SpliceAtEnd(c: Bytes, xs: Bytes)
    ensures Splice(c, |c|, xs) == c + xs
  {
  }

  lemma PrefixGrows(xs: Bytes, a: nat, b: nat)
    requires a <= b <= |xs|
    ensures xs[..a] + xs[a..b] == xs[..b]
  {
  }

  lemma UptoBlock(off: nat, n: nat, t: nat, tot: nat, o: nat, bn: nat)
    requires tot == Upto(off, n, t) < n && o == off + tot && bn == off / BSIZE + t
    ensures o / BSIZE == bn
  {
  }
}
