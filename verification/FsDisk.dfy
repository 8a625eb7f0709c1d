/** The on-disk structures of kernel/fs.c as values: the free-block bitmap, inodes
    with direct and indirect block numbers, the byte string an inode stands for,
    and who owns each block. */
module FsDisk {

  const BSIZE: nat := 1024
  const NDIRECT: nat := 12
  const NINDIRECT: nat := 256
  const MAXFILE: nat := 268
  const BPB: nat := 8192
  const IPB: nat := 16
  const U32: nat := 0x1_0000_0000

  newtype Byte = x: int | 0 <= x < 256

  type Bytes = seq<Byte>

  /** The parts of the superblock that matter here; blocks below meta hold the
      boot block, the superblock, the log, the inodes and the bitmap. */
  datatype Super = Super(size: nat, ninodes: nat, inodestart: nat, bmapstart: nat, meta: nat) {
    predicate Ok() {
      && 0 < inodestart && inodestart + ninodes / IPB < bmapstart
      && meta == bmapstart + size / BPB + 1 && meta <= size < U32
    }

    function BBlock(b: nat): nat {
      b / BPB + bmapstart
    }

    function IBlock(i: nat): nat {
      i / IPB + inodestart
    }
  }

  /** addrs holds NDIRECT block numbers and the number of the indirect block;
      0 stands for no block. */
  datatype Inode = Inode(addrs: seq<nat>, size: nat)

  // ---------------------------------------------------------------- bitmap

  type Bitmap = seq<seq<bv8>>

  /** 1 << k. */
  function Mask(k: nat): (m: bv8)
    requires k < 8
  {
    if k == 0 then 1 else if k == 1 then 2 else if k == 2 then 4 else if k == 3 then 8
    else if k == 4 then 16 else if k == 5 then 32 else if k == 6 then 64 else 128
  }

  predicate Bit(x: bv8, k: nat)
    requires k < 8
  {
    x & Mask(k) != 0
  }

  lemma BitSet(x: bv8, k: nat, j: nat)
    requires k < 8 && j < 8
    ensures Bit(x | Mask(k), j) == (j == k || Bit(x, j))
  {
  }

  lemma BitClear(x: bv8, k: nat, j: nat)
    requires k < 8 && j < 8
    ensures Bit(x & !Mask(k), j) == (j != k && Bit(x, j))
  {
  }

  ghost predicate MapOk(sb: Super, bitmap: Bitmap) {
    |bitmap| == sb.size / BPB + 1 && forall k :: 0 <= k < |bitmap| ==> |bitmap[k]| == BSIZE
  }

  predicate Used(bitmap: Bitmap, b: nat) {
    && b / BPB < |bitmap| && b % BPB / 8 < |bitmap[b / BPB]|
    && Bit(bitmap[b / BPB][b % BPB / 8], b % BPB % 8)
  }

  function SetByte(bitmap: Bitmap, b: nat, x: bv8): Bitmap
    requires b / BPB < |bitmap| && b % BPB / 8 < |bitmap[b / BPB]|
  {
    bitmap[b / BPB := bitmap[b / BPB][b % BPB / 8 := x]]
  }

  /** Three coordinates name one bit. */
  lemma SameBit(b: nat, c: nat)
    requires b / BPB == c / BPB && b % BPB / 8 == c % BPB / 8
    ensures b % BPB % 8 == c % BPB % 8 <==> b == c
  {
  }

  function Marked(bitmap: Bitmap, b: nat): Bitmap
    requires b / BPB < |bitmap| && b % BPB / 8 < |bitmap[b / BPB]|
  {
    SetByte(bitmap, b, bitmap[b / BPB][b % BPB / 8] | Mask(b % BPB % 8))
  }

  function Cleared(bitmap: Bitmap, b: nat): Bitmap
    requires b / BPB < |bitmap| && b % BPB / 8 < |bitmap[b / BPB]|
  {
    SetByte(bitmap, b, bitmap[b / BPB][b % BPB / 8] & !Mask(b % BPB % 8))
  }

  /** Another byte of the bitmap is not affected. */
  lemma OtherByte(bitmap: Bitmap, b: nat, x: bv8, c: nat)
    requires b / BPB < |bitmap| && b % BPB / 8 < |bitmap[b / BPB]|
    requires c / BPB != b / BPB || c % BPB / 8 != b % BPB / 8
    ensures Used(SetByte(bitmap, b, x), c) == Used(bitmap, c)
  {
  }

  lemma MarkedHere(bitmap: Bitmap, b: nat, c: nat)
    requires b / BPB < |bitmap| && b % BPB / 8 < |bitmap[b / BPB]|
    requires c / BPB == b / BPB && c % BPB / 8 == b % BPB / 8
    ensures Used(Marked(bitmap, b), c) == (c == b || Used(bitmap, c))
  {
    BitSet(bitmap[b / BPB][b % BPB / 8], b % BPB % 8, c % BPB % 8);
    SameBit(b, c);
  }

  lemma ClearedHere(bitmap: Bitmap, b: nat, c: nat)
    requires b / BPB < |bitmap| && b % BPB / 8 < |bitmap[b / BPB]|
    requires c / BPB == b / BPB && c % BPB / 8 == b % BPB / 8
    ensures Used(Cleared(bitmap, b), c) == (c != b && Used(bitmap, c))
  {
    BitClear(bitmap[b / BPB][b % BPB / 8], b % BPB % 8, c % BPB % 8);
    SameBit(b, c);
  }

  lemma UsedMarked(bitmap: Bitmap, b: nat, c: nat)
    requires b / BPB < |bitmap| && b % BPB / 8 < |bitmap[b / BPB]|
    ensures Used(Marked(bitmap, b), c) == (c == b || Used(bitmap, c))
  {
    if c / BPB == b / BPB && c % BPB / 8 == b % BPB / 8 {
      MarkedHere(bitmap, b, c);
    } else {
      OtherByte(bitmap, b, bitmap[b / BPB][b % BPB / 8] | Mask(b % BPB % 8), c);
    }
  }

  lemma UsedCleared(bitmap: Bitmap, b: nat, c: nat)
    requires b / BPB < |bitmap| && b % BPB / 8 < |bitmap[b / BPB]|
    ensures Used(Cleared(bitmap, b), c) == (c != b && Used(bitmap, c))
  {
    if c / BPB == b / BPB && c % BPB / 8 == b % BPB / 8 {
      ClearedHere(bitmap, b, c);
    } else {
      OtherByte(bitmap, b, bitmap[b / BPB][b % BPB / 8] & !Mask(b % BPB % 8), c);
    }
  }

  lemma MarkedOk(sb: Super, bitmap: Bitmap, b: nat)
    requires MapOk(sb, bitmap) && b < sb.size
    ensures MapOk(sb, Marked(bitmap, b))
    ensures forall c: nat :: Used(Marked(bitmap, b), c) == (c == b || Used(bitmap, c))
  {
    forall c: nat ensures Used(Marked(bitmap, b), c) == (c == b || Used(bitmap, c)) {
      UsedMarked(bitmap, b, c);
    }
  }

  lemma ClearedOk(sb: Super, bitmap: Bitmap, b: nat)
    requires MapOk(sb, bitmap) && b < sb.size
    ensures MapOk(sb, Cleared(bitmap, b))
    ensures forall c: nat :: Used(Cleared(bitmap, b), c) == (c != b && Used(bitmap, c))
  {
    forall c: nat ensures Used(Cleared(bitmap, b), c) == (c != b && Used(bitmap, c)) {
      UsedCleared(bitmap, b, c);
    }
  }

  /** Bit bi of the bitmap block that covers the blocks from b on. */
  lemma UsedHere(sb: Super, bitmap: Bitmap, b: nat, bi: nat)
    requires MapOk(sb, bitmap) && b % BPB == 0 && bi < BPB && b + bi < sb.size
    ensures b / BPB == (b + bi) / BPB < |bitmap| && (b + bi) % BPB == bi && bi / 8 < BSIZE
    ensures Used(bitmap, b + bi) == (bitmap[b / BPB][bi / 8] & Mask(bi % 8) != 0)
  {
  }

  // ---------------------------------------------------------------- indirect blocks

  /** Entry i of a block read as an array of 32-bit words, low byte first. */
  function Word(s: Bytes, i: nat): nat {
    if 4 * i + 3 < |s| then
      s[4 * i] as nat + 0x100 * s[4 * i + 1] as nat + 0x10000 * s[4 * i + 2] as nat + 0x1000000 * s[4 * i + 3] as nat
    else 0
  }

  function PutWord(s: Bytes, i: nat, w: nat): (r: Bytes)
    requires 4 * i + 3 < |s| && w < U32
    ensures |r| == |s|
  {
    s[4 * i := (w % 0x100) as Byte]
     [4 * i + 1 := (w / 0x100 % 0x100) as Byte]
     [4 * i + 2 := (w / 0x10000 % 0x100) as Byte]
     [4 * i + 3 := (w / 0x1000000) as Byte]
  }

  lemma WordPut(s: Bytes, i: nat, w: nat, j: nat)
    requires 4 * i + 3 < |s| && w < U32
    ensures Word(PutWord(s, i, w), j) == if j == i then w else Word(s, j)
  {
  }

  function Zeros(): (r: Bytes)
    ensures |r| == BSIZE && forall k :: 0 <= k < BSIZE ==> r[k] == 0
  {
    seq(BSIZE, _ => 0)
  }

  // ---------------------------------------------------------------- contents

  function Blk(data: seq<Bytes>, a: nat): Bytes {
    if a < |data| then data[a] else []
  }

  /** The block number of block bn of a file, or 0. */
  function AddrOf(data: seq<Bytes>, ino: Inode, bn: nat): nat {
    if bn < NDIRECT then
      if bn < |ino.addrs| then ino.addrs[bn] else 0
    else if |ino.addrs| != NDIRECT + 1 || ino.addrs[NDIRECT] == 0 then 0
    else Word(Blk(data, ino.addrs[NDIRECT]), bn - NDIRECT)
  }

  /** Byte k of block bn of a file; a missing block reads as zeroes. */
  function Cell(data: seq<Bytes>, ino: Inode, bn: nat, k: nat): Byte {
    var a := AddrOf(data, ino, bn);
    if a == 0 || a >= |data| || k >= |data[a]| then 0 else data[a][k]
  }

  /** The bytes of a file at every offset a file can have. */
  function Image(data: seq<Bytes>, ino: Inode): (r: Bytes)
    ensures |r| == MAXFILE * BSIZE
    ensures forall o :: 0 <= o < |r| ==> r[o] == Cell(data, ino, o / BSIZE, o % BSIZE)
  {
    seq(MAXFILE * BSIZE, o requires 0 <= o => Cell(data, ino, o / BSIZE, o % BSIZE))
  }

  /** The byte string that a file is. */
  function Contents(data: seq<Bytes>, ino: Inode): (r: Bytes)
    requires ino.size <= MAXFILE * BSIZE
  {
    Image(data, ino)[..ino.size]
  }

  function Splice(c: Bytes, off: nat, w: Bytes): (r: Bytes)
    requires off <= |c|
  {
    if off + |w| <= |c| then c[..off] + w + c[off + |w|..] else c[..off] + w
  }

  /** Every block below the end of the file is there. */
  ghost predicate HoleFree(data: seq<Bytes>, ino: Inode) {
    forall bn :: 0 <= bn < MAXFILE && bn * BSIZE < ino.size ==> AddrOf(data, ino, bn) != 0
  }

  // ---------------------------------------------------------------- ownership

  /** Where a block is recorded: as block bn of file i, or as its indirect block. */
  datatype Slot = Data(i: nat, bn: nat) | Ind(i: nat)

  /** All blocks and inodes, with the owner of each allocated block. */
  datatype Tree = Tree(data: seq<Bytes>, inodes: seq<Inode>, owner: map<nat, Slot>)

  ghost predicate Shape(sb: Super, t: Tree) {
    && |t.data| == sb.size && (forall b :: 0 <= b < |t.data| ==> |t.data[b]| == BSIZE)
    && |t.inodes| == sb.ninodes && (forall i :: 0 <= i < |t.inodes| ==> |t.inodes[i].addrs| == NDIRECT + 1)
  }

  ghost predicate OwnedBy(t: Tree, a: nat, s: Slot) {
    a in t.owner && t.owner[a] == s
  }

  /** A block recorded in a slot is owned by that slot; so by no other. */
  ghost predicate SlotsOwned(t: Tree) {
    && (forall i, bn :: 0 <= i < |t.inodes| && 0 <= bn < MAXFILE && AddrOf(t.data, t.inodes[i], bn) != 0
          ==> OwnedBy(t, AddrOf(t.data, t.inodes[i], bn), Data(i, bn)))
    && (forall i :: 0 <= i < |t.inodes| && |t.inodes[i].addrs| == NDIRECT + 1 && t.inodes[i].addrs[NDIRECT] != 0
          ==> OwnedBy(t, t.inodes[i].addrs[NDIRECT], Ind(i)))
  }

  ghost predicate RecordedIn(t: Tree, s: Slot, b: nat) {
    match s
    case Data(i, bn) => i < |t.inodes| && bn < MAXFILE && AddrOf(t.data, t.inodes[i], bn) == b
    case Ind(i) => i < |t.inodes| && |t.inodes[i].addrs| == NDIRECT + 1 && t.inodes[i].addrs[NDIRECT] == b
  }

  /** An owned block lies in the data area and its owner records it. */
  ghost predicate OwnersRecord(sb: Super, t: Tree) {
    forall b :: b in t.owner ==> sb.meta <= b < sb.size && RecordedIn(t, t.owner[b], b)
  }

  ghost predicate Owns(sb: Super, t: Tree) {
    sb.Ok() && Shape(sb, t) && SlotsOwned(t) && OwnersRecord(sb, t)
  }

  /** A bit is set exactly for the metadata blocks and the owned blocks. */
  ghost predicate BitsOk(sb: Super, bitmap: Bitmap, owned: set<nat>) {
    && MapOk(sb, bitmap)
    && forall b :: 0 <= b < sb.size ==> (Used(bitmap, b) <==> b < sb.meta || b in owned)
  }
}
