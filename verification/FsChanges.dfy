/** How each elementary change of kernel/fs.c affects block ownership and the
    contents of every file. */
module FsChanges {
  import opened FsDisk

  ghost predicate SameImages(t: Tree, u: Tree) {
    && |u.inodes| == |t.inodes|
    && (forall i :: 0 <= i < |t.inodes| ==> u.inodes[i].size == t.inodes[i].size)
    && (forall i :: 0 <= i < |t.inodes| ==> Image(u.data, u.inodes[i]) == Image(t.data, t.inodes[i]))
  }

  /** Blocks once recorded stay where they are. */
  ghost predicate KeptAddrs(t: Tree, u: Tree) {
    && |u.inodes| == |t.inodes|
    && forall i, bn :: 0 <= i < |t.inodes| && 0 <= bn < MAXFILE && AddrOf(t.data, t.inodes[i], bn) != 0 ==>
         AddrOf(u.data, u.inodes[i], bn) == AddrOf(t.data, t.inodes[i], bn)
  }

  /** File i has gained at most the block bn. */
  ghost predicate OnlyBlock(t: Tree, u: Tree, i: nat, bn: nat) {
    && i < |t.inodes| == |u.inodes|
    && forall bm :: 0 <= bm < MAXFILE && bm != bn ==> AddrOf(u.data, u.inodes[i], bm) == AddrOf(t.data, t.inodes[i], bm)
  }

  lemma KeptAddrsTwice(t: Tree, u: Tree, v: Tree)
    requires KeptAddrs(t, u) && KeptAddrs(u, v)
    ensures KeptAddrs(t, v)
  {
  }

  lemma KeptTwice(t: Tree, u: Tree, v: Tree)
    requires SameImages(t, u) && SameImages(u, v) && KeptAddrs(t, u) && KeptAddrs(u, v)
    ensures SameImages(t, v) && KeptAddrs(t, v)
  {
  }

  /** A block no slot records may be overwritten unnoticed. */
  lemma UnownedBlock(sb: Super, t: Tree, a: nat, v: Bytes, i: nat, bn: nat)
    requires Owns(sb, t) && a < sb.size && a != 0 && a !in t.owner && |v| == BSIZE && i < |t.inodes| && bn < MAXFILE
    ensures AddrOf(t.data[a := v], t.inodes[i], bn) == AddrOf(t.data, t.inodes[i], bn) != a
    ensures forall k: nat :: Cell(t.data[a := v], t.inodes[i], bn, k) == Cell(t.data, t.inodes[i], bn, k)
  {
    assert t.inodes[i].addrs[NDIRECT] != a;
    assert AddrOf(t.data, t.inodes[i], bn) != a;
  }

  lemma SameCells(t: Tree, u: Tree, i: nat)
    requires i < |t.inodes| == |u.inodes|
    requires forall bn: nat, k: nat :: bn < MAXFILE ==> Cell(u.data, u.inodes[i], bn, k) == Cell(t.data, t.inodes[i], bn, k)
    ensures Image(u.data, u.inodes[i]) == Image(t.data, t.inodes[i])
  {
  }

  lemma Zeroed(sb: Super, t: Tree, a: nat)
    requires Owns(sb, t) && a < sb.size && a != 0 && a !in t.owner
    ensures var u := t.(data := t.data[a := Zeros()]); Owns(sb, u) && SameImages(t, u) && KeptAddrs(t, u)
    ensures forall i, bn :: 0 <= i < |t.inodes| && 0 <= bn < MAXFILE ==>
              AddrOf(t.data[a := Zeros()], t.inodes[i], bn) == AddrOf(t.data, t.inodes[i], bn)
  {
    var u := t.(data := t.data[a := Zeros()]);
    forall i, bn | 0 <= i < |t.inodes| && 0 <= bn < MAXFILE
      ensures AddrOf(u.data, u.inodes[i], bn) == AddrOf(t.data, t.inodes[i], bn)
      ensures forall k: nat :: Cell(u.data, u.inodes[i], bn, k) == Cell(t.data, t.inodes[i], bn, k)
    {
      UnownedBlock(sb, t, a, Zeros(), i, bn);
    }
    forall i | 0 <= i < |t.inodes| ensures Image(u.data, u.inodes[i]) == Image(t.data, t.inodes[i]) {
      SameCells(t, u, i);
    }
  }

  /** A block gets its place in a slot that records none: the block reads as
      zeroes, like the missing block before. */
  lemma Placed(sb: Super, t: Tree, u: Tree, s: Slot, a: nat)
    requires Owns(sb, t) && sb.meta <= a < sb.size && a !in t.owner && t.data[a] == Zeros()
    requires Shape(sb, u) && u.owner == t.owner[a := s] && (forall i :: 0 <= i < |t.inodes| ==> u.inodes[i].size == t.inodes[i].size)
    requires forall b :: 0 <= b < |t.data| && b in u.owner && u.owner[b].Data? ==> u.data[b] == t.data[b]
    requires RecordedIn(t, s, 0) && RecordedIn(u, s, a)
    requires forall i, bn :: 0 <= i < |t.inodes| && 0 <= bn < MAXFILE && Data(i, bn) != s ==>
               AddrOf(u.data, u.inodes[i], bn) == AddrOf(t.data, t.inodes[i], bn)
    requires forall i :: 0 <= i < |t.inodes| && Ind(i) != s ==> u.inodes[i].addrs[NDIRECT] == t.inodes[i].addrs[NDIRECT]
    ensures Owns(sb, u) && SameImages(t, u)
  {
    PlacedOwns(sb, t, u, s, a);
    forall i | 0 <= i < |t.inodes| ensures Image(u.data, u.inodes[i]) == Image(t.data, t.inodes[i]) {
      forall bn: nat, k: nat | bn < MAXFILE ensures Cell(u.data, u.inodes[i], bn, k) == Cell(t.data, t.inodes[i], bn, k) {
        PlacedCell(sb, t, u, s, a, i, bn, k);
      }
      SameCells(t, u, i);
    }
  }

  lemma PlacedOwns(sb: Super, t: Tree, u: Tree, s: Slot, a: nat)
    requires Owns(sb, t) && sb.meta <= a < sb.size && a !in t.owner
    requires Shape(sb, u) && u.owner == t.owner[a := s] && RecordedIn(t, s, 0) && RecordedIn(u, s, a)
    requires forall i, bn :: 0 <= i < |t.inodes| && 0 <= bn < MAXFILE && Data(i, bn) != s ==>
               AddrOf(u.data, u.inodes[i], bn) == AddrOf(t.data, t.inodes[i], bn)
    requires forall i :: 0 <= i < |t.inodes| && Ind(i) != s ==> u.inodes[i].addrs[NDIRECT] == t.inodes[i].addrs[NDIRECT]
    ensures Owns(sb, u)
  {
    hide AddrOf;
    forall b | b in u.owner ensures sb.meta <= b < sb.size && RecordedIn(u, u.owner[b], b) {
      if b != a {
        assert RecordedIn(t, t.owner[b], b);
        assert t.owner[b] != s;
      }
    }
  }

  lemma PlacedCell(sb: Super, t: Tree, u: Tree, s: Slot, a: nat, i: nat, bn: nat, k: nat)
    requires Owns(sb, t) && sb.meta <= a < sb.size && a !in t.owner && t.data[a] == Zeros()
    requires Shape(sb, u) && u.owner == t.owner[a := s] && i < |t.inodes| && bn < MAXFILE
    requires forall b :: 0 <= b < |t.data| && b in u.owner && u.owner[b].Data? ==> u.data[b] == t.data[b]
    requires RecordedIn(t, s, 0) && RecordedIn(u, s, a)
    requires Data(i, bn) != s ==> AddrOf(u.data, u.inodes[i], bn) == AddrOf(t.data, t.inodes[i], bn)
    ensures Cell(u.data, u.inodes[i], bn, k) == Cell(t.data, t.inodes[i], bn, k)
  {
    if Data(i, bn) == s {
      assert u.owner[a].Data?;
    } else {
      var b := AddrOf(t.data, t.inodes[i], bn);
      if b != 0 {
        assert OwnedBy(t, b, Data(i, bn));
      }
    }
  }

  /** bmap, direct part: a fresh zeroed block becomes block bn of file i. */
  lemma PlacedDirect(sb: Super, t: Tree, i: nat, bn: nat, a: nat)
    requires Owns(sb, t) && sb.meta <= a < sb.size && a !in t.owner && t.data[a] == Zeros()
    requires i < |t.inodes| && bn < NDIRECT && t.inodes[i].addrs[bn] == 0
    ensures var u := Tree(t.data, t.inodes[i := t.inodes[i].(addrs := t.inodes[i].addrs[bn := a])], t.owner[a := Data(i, bn)]);
            Owns(sb, u) && SameImages(t, u) && KeptAddrs(t, u) && OnlyBlock(t, u, i, bn) && AddrOf(u.data, u.inodes[i], bn) == a
  {
    var u := Tree(t.data, t.inodes[i := t.inodes[i].(addrs := t.inodes[i].addrs[bn := a])], t.owner[a := Data(i, bn)]);
    Placed(sb, t, u, Data(i, bn), a);
  }

  /** bmap, indirect part: a fresh zeroed block becomes the indirect block. */
  lemma PlacedIndirect(sb: Super, t: Tree, i: nat, a: nat)
    requires Owns(sb, t) && sb.meta <= a < sb.size && a !in t.owner && t.data[a] == Zeros()
    requires i < |t.inodes| && t.inodes[i].addrs[NDIRECT] == 0
    ensures var u := Tree(t.data, t.inodes[i := t.inodes[i].(addrs := t.inodes[i].addrs[NDIRECT := a])], t.owner[a := Ind(i)]);
            Owns(sb, u) && SameImages(t, u) && KeptAddrs(t, u) && forall bn: nat :: bn < MAXFILE ==> AddrOf(u.data, u.inodes[i], bn) == AddrOf(t.data, t.inodes[i], bn)
  {
    var u := Tree(t.data, t.inodes[i := t.inodes[i].(addrs := t.inodes[i].addrs[NDIRECT := a])], t.owner[a := Ind(i)]);
    Placed(sb, t, u, Ind(i), a);
  }

  lemma EntryAddr(sb: Super, t: Tree, i: nat, bn: nat, a: nat, j: nat, bm: nat)
    requires Owns(sb, t) && a < sb.size && i < |t.inodes| && j < |t.inodes| && NDIRECT <= bn < MAXFILE && bm < MAXFILE
    requires t.inodes[i].addrs[NDIRECT] != 0
    ensures OwnedBy(t, t.inodes[i].addrs[NDIRECT], Ind(i)) && t.inodes[i].addrs[NDIRECT] < sb.size
    ensures var ind := t.inodes[i].addrs[NDIRECT];
            AddrOf(t.data[ind := PutWord(t.data[ind], bn - NDIRECT, a)], t.inodes[j], bm)
              == if Data(j, bm) == Data(i, bn) then a else AddrOf(t.data, t.inodes[j], bm)
  {
    var ind := t.inodes[i].addrs[NDIRECT];
    assert OwnedBy(t, ind, Ind(i));
    if bm >= NDIRECT {
      WordPut(t.data[ind], bn - NDIRECT, a, bm - NDIRECT);
      assert j != i ==> t.inodes[j].addrs[NDIRECT] != ind;
    }
  }

  function PutEntry(data: seq<Bytes>, ind: nat, k: nat, a: nat): (r: seq<Bytes>)
    requires ind < |data| && 4 * k + 3 < |data[ind]| && a < U32
  {
    data[ind := PutWord(data[ind], k, a)]
  }

  /** Block a entered as block bn of file i, in its indirect block. */
  function WithEntry(t: Tree, i: nat, bn: nat, a: nat): Tree
    requires i < |t.inodes| && |t.inodes[i].addrs| == NDIRECT + 1 && NDIRECT <= bn < MAXFILE && a < U32
    requires t.inodes[i].addrs[NDIRECT] < |t.data| && |t.data[t.inodes[i].addrs[NDIRECT]]| == BSIZE
  {
    Tree(PutEntry(t.data, t.inodes[i].addrs[NDIRECT], bn - NDIRECT, a), t.inodes, t.owner[a := Data(i, bn)])
  }

  /** bmap, indirect part: a fresh zeroed block is entered in the indirect block. */
  lemma PlacedEntry(sb: Super, t: Tree, i: nat, bn: nat, a: nat)
    requires Owns(sb, t) && sb.meta <= a < sb.size && a !in t.owner && t.data[a] == Zeros()
    requires i < |t.inodes| && NDIRECT <= bn < MAXFILE && t.inodes[i].addrs[NDIRECT] != 0 && AddrOf(t.data, t.inodes[i], bn) == 0
    ensures t.inodes[i].addrs[NDIRECT] < |t.data| && |t.data[t.inodes[i].addrs[NDIRECT]]| == BSIZE
    ensures var u := WithEntry(t, i, bn, a);
            Owns(sb, u) && SameImages(t, u) && KeptAddrs(t, u) && OnlyBlock(t, u, i, bn) && AddrOf(u.data, u.inodes[i], bn) == a
  {
    var ind := t.inodes[i].addrs[NDIRECT];
    assert OwnedBy(t, ind, Ind(i));
    var u := WithEntry(t, i, bn, a);
    forall j, bm | 0 <= j < |t.inodes| && 0 <= bm < MAXFILE
      ensures AddrOf(u.data, u.inodes[j], bm) == if Data(j, bm) == Data(i, bn) then a else AddrOf(t.data, t.inodes[j], bm)
    {
      EntryAddr(sb, t, i, bn, a, j, bm);
    }
    Placed(sb, t, u, Data(i, bn), a);
  }

  // ---------------------------------------------------------------- writing

  /** Part of a block overwritten from position k on. */
  function Overlay(s: Bytes, k: nat, w: Bytes): (r: Bytes)
    requires k + |w| <= |s|
    ensures |r| == |s|
    ensures forall j :: 0 <= j < |r| ==> r[j] == if k <= j < k + |w| then w[j - k] else s[j]
  {
    s[..k] + w + s[k + |w|..]
  }

  /** Writing a block that file i records as its block bn changes those bytes of
      file i and nothing else anywhere. */
  lemma WrittenCell(sb: Super, t: Tree, i: nat, bn: nat, v: Bytes, j: nat, bm: nat, k: nat)
    requires Owns(sb, t) && i < |t.inodes| && bn < MAXFILE && AddrOf(t.data, t.inodes[i], bn) != 0 && |v| == BSIZE
    requires j < |t.inodes| && bm < MAXFILE && k < BSIZE
    ensures AddrOf(t.data, t.inodes[i], bn) < |t.data|
    ensures var u := t.(data := t.data[AddrOf(t.data, t.inodes[i], bn) := v]);
            && AddrOf(u.data, u.inodes[j], bm) == AddrOf(t.data, t.inodes[j], bm)
            && Cell(u.data, u.inodes[j], bm, k) == if Data(j, bm) == Data(i, bn) then v[k] else Cell(t.data, t.inodes[j], bm, k)
  {
    var a := AddrOf(t.data, t.inodes[i], bn);
    assert OwnedBy(t, a, Data(i, bn));
    assert t.inodes[j].addrs[NDIRECT] != a;
    var u := t.(data := t.data[a := v]);
    assert AddrOf(u.data, u.inodes[j], bm) == AddrOf(t.data, t.inodes[j], bm);
    if AddrOf(t.data, t.inodes[j], bm) == a {
      assert OwnedBy(t, a, Data(j, bm));
    }
  }

  lemma WrittenAddrs(sb: Super, t: Tree, i: nat, bn: nat, v: Bytes)
    requires Owns(sb, t) && i < |t.inodes| && bn < MAXFILE && AddrOf(t.data, t.inodes[i], bn) != 0 && |v| == BSIZE
    ensures AddrOf(t.data, t.inodes[i], bn) < |t.data|
    ensures var u := t.(data := t.data[AddrOf(t.data, t.inodes[i], bn) := v]);
            && Owns(sb, u)
            && forall j, bm :: 0 <= j < |t.inodes| && 0 <= bm < MAXFILE ==> AddrOf(u.data, u.inodes[j], bm) == AddrOf(t.data, t.inodes[j], bm)
  {
    assert OwnedBy(t, AddrOf(t.data, t.inodes[i], bn), Data(i, bn));
    var u := t.(data := t.data[AddrOf(t.data, t.inodes[i], bn) := v]);
    forall j, bm | 0 <= j < |t.inodes| && 0 <= bm < MAXFILE ensures AddrOf(u.data, u.inodes[j], bm) == AddrOf(t.data, t.inodes[j], bm) {
      WrittenCell(sb, t, i, bn, v, j, bm, 0);
    }
  }

  lemma SpliceIs(was: Bytes, now: Bytes, off: nat, w: Bytes)
    requires |now| == |was| && off + |w| <= |was|
    requires forall o :: 0 <= o < |was| ==> now[o] == if off <= o < off + |w| then w[o - off] else was[o]
    ensures now == Splice(was, off, w)
  {
  }

  lemma WrittenByte(sb: Super, t: Tree, i: nat, bn: nat, k: nat, w: Bytes, j: nat, o: nat)
    requires Owns(sb, t) && i < |t.inodes| && bn < MAXFILE && k + |w| <= BSIZE && j < |t.inodes| && o < MAXFILE * BSIZE
    requires AddrOf(t.data, t.inodes[i], bn) != 0
    ensures AddrOf(t.data, t.inodes[i], bn) < |t.data| && |t.data[AddrOf(t.data, t.inodes[i], bn)]| == BSIZE
    ensures var a := AddrOf(t.data, t.inodes[i], bn);
            var data := t.data[a := Overlay(t.data[a], k, w)];
            var off := bn * BSIZE + k;
            Cell(data, t.inodes[j], o / BSIZE, o % BSIZE) ==
              if j == i && off <= o < off + |w| then w[o - off] else Cell(t.data, t.inodes[j], o / BSIZE, o % BSIZE)
  {
    var a := AddrOf(t.data, t.inodes[i], bn);
    assert OwnedBy(t, a, Data(i, bn));
    WrittenCell(sb, t, i, bn, Overlay(t.data[a], k, w), j, o / BSIZE, o % BSIZE);
  }

  lemma WrittenImage(sb: Super, t: Tree, i: nat, bn: nat, k: nat, w: Bytes, j: nat)
    requires Owns(sb, t) && i < |t.inodes| && bn < MAXFILE && k + |w| <= BSIZE && j < |t.inodes|
    requires AddrOf(t.data, t.inodes[i], bn) != 0
    ensures AddrOf(t.data, t.inodes[i], bn) < |t.data| && |t.data[AddrOf(t.data, t.inodes[i], bn)]| == BSIZE
    ensures var a := AddrOf(t.data, t.inodes[i], bn);
            var data := t.data[a := Overlay(t.data[a], k, w)];
            Image(data, t.inodes[j]) ==
              if j == i then Splice(Image(t.data, t.inodes[i]), bn * BSIZE + k, w) else Image(t.data, t.inodes[j])
  {
    WrittenByte(sb, t, i, bn, k, w, j, 0);
    var a := AddrOf(t.data, t.inodes[i], bn);
    var data := t.data[a := Overlay(t.data[a], k, w)];
    var now, was := Image(data, t.inodes[j]), Image(t.data, t.inodes[j]);
    var off := bn * BSIZE + k;
    forall o | 0 <= o < MAXFILE * BSIZE ensures now[o] == if j == i && off <= o < off + |w| then w[o - off] else was[o] {
      WrittenByte(sb, t, i, bn, k, w, j, o);
    }
    if j == i {
      SpliceIs(was, now, off, w);
    }
  }

  /** Block bn of file i overwritten in part. */
  lemma Overwritten(sb: Super, t: Tree, u: Tree, i: nat, bn: nat, k: nat, w: Bytes)
    requires Owns(sb, t) && i < |t.inodes| && bn < MAXFILE && k + |w| <= BSIZE && AddrOf(t.data, t.inodes[i], bn) != 0
    requires AddrOf(t.data, t.inodes[i], bn) < |t.data| && |t.data[AddrOf(t.data, t.inodes[i], bn)]| == BSIZE
    requires var a := AddrOf(t.data, t.inodes[i], bn); u == t.(data := t.data[a := Overlay(t.data[a], k, w)])
    ensures Owns(sb, u) && KeptAddrs(t, u) && OnlyBlock(t, u, i, bn)
    ensures Image(u.data, u.inodes[i]) == Splice(Image(t.data, t.inodes[i]), bn * BSIZE + k, w)
    ensures forall j :: 0 <= j < |t.inodes| && j != i ==> Image(u.data, u.inodes[j]) == Image(t.data, t.inodes[j])
  {
    WrittenImage(sb, t, i, bn, k, w, i);
    forall j | 0 <= j < |t.inodes| && j != i ensures Image(u.data, u.inodes[j]) == Image(t.data, t.inodes[j]) {
      WrittenImage(sb, t, i, bn, k, w, j);
    }
    var a := AddrOf(t.data, t.inodes[i], bn);
    WrittenAddrs(sb, t, i, bn, Overlay(t.data[a], k, w));
  }

  /** File i with another size. */
  function Sized(t: Tree, i: nat, size: nat): Tree
    requires i < |t.inodes|
  {
    t.(inodes := t.inodes[i := t.inodes[i].(size := size)])
  }

  lemma Resized(sb: Super, t: Tree, i: nat, size: nat)
    requires Owns(sb, t) && i < |t.inodes|
    ensures Owns(sb, Sized(t, i, size))
  {
    var u := Sized(t, i, size);
    forall j, bn | 0 <= j < |t.inodes| && 0 <= bn < MAXFILE ensures AddrOf(u.data, u.inodes[j], bn) == AddrOf(t.data, t.inodes[j], bn) {
    }
  }

  // ---------------------------------------------------------------- reading

  /** The bytes of a file's block are the file's bytes there. */
  lemma BlockBytes(sb: Super, t: Tree, i: nat, bn: nat, k: nat, m: nat)
    requires Owns(sb, t) && i < |t.inodes| && bn < MAXFILE && k + m <= BSIZE && AddrOf(t.data, t.inodes[i], bn) != 0
    ensures AddrOf(t.data, t.inodes[i], bn) < |t.data| && |t.data[AddrOf(t.data, t.inodes[i], bn)]| == BSIZE
    ensures t.data[AddrOf(t.data, t.inodes[i], bn)][k..k + m] == Image(t.data, t.inodes[i])[bn * BSIZE + k..bn * BSIZE + k + m]
  {
    var a := AddrOf(t.data, t.inodes[i], bn);
    assert OwnedBy(t, a, Data(i, bn));
    var l, r := t.data[a][k..k + m], Image(t.data, t.inodes[i])[bn * BSIZE + k..bn * BSIZE + k + m];
    forall x | 0 <= x < m ensures l[x] == r[x] {
      var o := bn * BSIZE + k + x;
      assert o / BSIZE == bn && o % BSIZE == k + x;
    }
  }

  // ---------------------------------------------------------------- truncation

  /** Block b is one of the first n blocks of file i, or its indirect block when
      ind says so. */
  ghost predicate Released(owner: map<nat, Slot>, b: nat, i: nat, n: nat, ind: bool) {
    b in owner && match owner[b]
                  case Data(j, bn) => j == i && bn < n
                  case Ind(j) => ind && j == i
  }

  /** The bitmap while file i is being truncated. */
  ghost predicate BitsBut(sb: Super, bitmap: Bitmap, owner: map<nat, Slot>, i: nat, n: nat, ind: bool) {
    && MapOk(sb, bitmap)
    && forall b :: 0 <= b < sb.size ==> (Used(bitmap, b) <==> b < sb.meta || (b in owner && !Released(owner, b, i, n, ind)))
  }

  lemma NextReleased(sb: Super, t: Tree, i: nat, n: nat, bitmap: Bitmap, next: Bitmap)
    requires Owns(sb, t) && i < |t.inodes| && n < MAXFILE && BitsBut(sb, bitmap, t.owner, i, n, false) && MapOk(sb, next)
    requires var a := AddrOf(t.data, t.inodes[i], n);
             if a == 0 then next == bitmap else forall c: nat :: Used(next, c) == (c != a && Used(bitmap, c))
    ensures BitsBut(sb, next, t.owner, i, n + 1, false)
  {
    var a := AddrOf(t.data, t.inodes[i], n);
    forall b | 0 <= b < sb.size ensures Used(next, b) <==> b < sb.meta || (b in t.owner && !Released(t.owner, b, i, n + 1, false)) {
      if b in t.owner {
        assert RecordedIn(t, t.owner[b], b);
      }
      if b == a != 0 {
        assert OwnedBy(t, a, Data(i, n));
      }
    }
  }

  lemma StillUsed(sb: Super, t: Tree, i: nat, n: nat, bitmap: Bitmap)
    requires Owns(sb, t) && i < |t.inodes| && n < MAXFILE && BitsBut(sb, bitmap, t.owner, i, n, false)
    ensures var a := AddrOf(t.data, t.inodes[i], n); a != 0 ==> sb.meta <= a < sb.size && Used(bitmap, a)
  {
    var a := AddrOf(t.data, t.inodes[i], n);
    if a != 0 {
      assert OwnedBy(t, a, Data(i, n));
    }
  }

  ghost function Without(owner: map<nat, Slot>, i: nat): map<nat, Slot> {
    map b | b in owner && owner[b].i != i :: owner[b]
  }

  function Emptied(): Inode {
    Inode(seq(NDIRECT + 1, _ => 0), 0)
  }

  /** File i emptied: the other files keep their blocks. */
  lemma Truncated(sb: Super, t: Tree, i: nat, bitmap: Bitmap, next: Bitmap)
    requires Owns(sb, t) && i < |t.inodes| && BitsBut(sb, bitmap, t.owner, i, MAXFILE, false) && MapOk(sb, next)
    requires var ind := t.inodes[i].addrs[NDIRECT];
             if ind == 0 then next == bitmap else forall c: nat :: Used(next, c) == (c != ind && Used(bitmap, c))
    ensures var u := Tree(t.data, t.inodes[i := Emptied()], Without(t.owner, i));
            Owns(sb, u) && BitsOk(sb, next, u.owner.Keys)
  {
    var u := Tree(t.data, t.inodes[i := Emptied()], Without(t.owner, i));
    TruncatedOwns(sb, t, i);
    forall b | 0 <= b < sb.size ensures Used(next, b) <==> b < sb.meta || b in u.owner.Keys {
      if b in t.owner {
        assert RecordedIn(t, t.owner[b], b);
      }
    }
  }

  lemma TruncatedOwns(sb: Super, t: Tree, i: nat)
    requires Owns(sb, t) && i < |t.inodes|
    ensures Owns(sb, Tree(t.data, t.inodes[i := Emptied()], Without(t.owner, i)))
  {
    var u := Tree(t.data, t.inodes[i := Emptied()], Without(t.owner, i));
    forall b | b in u.owner ensures sb.meta <= b < sb.size && RecordedIn(u, u.owner[b], b) {
      assert RecordedIn(t, t.owner[b], b);
    }
    forall j, bn | 0 <= j < |u.inodes| && 0 <= bn < MAXFILE && AddrOf(u.data, u.inodes[j], bn) != 0
      ensures OwnedBy(u, AddrOf(u.data, u.inodes[j], bn), Data(j, bn))
    {
      assert OwnedBy(t, AddrOf(t.data, t.inodes[j], bn), Data(j, bn));
    }
  }
}
