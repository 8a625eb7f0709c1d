/** The chunked write of kernel/file.c: each chunk is one transaction, small enough
    for the log. */
module FileWrite {
  import opened FsDisk
  import opened Fs

  const MAXOPBLOCKS: nat := 10

  /** The bytes written in one transaction. */
  const CHUNK: nat := (MAXOPBLOCKS - 1 - 1 - 2) / 2 * BSIZE

  /** For a file without holes a chunk at any offset logs at most MAXOPBLOCKS blocks,
      even if every allocation changes another bitmap block; with a single bitmap
      block it logs at most seven. */
  lemma ChunkFitsTransaction(off: nat, n: nat)
    requires n <= CHUNK
    ensures TxBlocks(off, n) <= MAXOPBLOCKS && Chunks(off, n) + 3 <= 7
  {
  }

  /** The bound is reached: an unaligned chunk can need ten blocks. */
  lemma ChunkBoundIsTight()
    ensures TxBlocks(1, CHUNK) == MAXOPBLOCKS && Chunks(1, CHUNK) + 3 == 7
  {
  }

  lemma SpliceGrows(c: Bytes, off: nat, x: Bytes, y: Bytes)
    requires off <= |c|
    ensures off + |x| <= |Splice(c, off, x)| && Splice(Splice(c, off, x), off + |x|, y) == Splice(c, off, x + y)
  {
    var l, r := Splice(Splice(c, off, x), off + |x|, y), Splice(c, off, x + y);
    assert |l| == |r|;
    assert forall o :: 0 <= o < |l| ==> l[o] == r[o];
  }

  /** What is read back from where it was written is what was written. */
  lemma ReadsBack(c: Bytes, off: nat, w: Bytes)
    requires off <= |c| && off + |w| < U32
    ensures Slice(Splice(c, off, w), off, |w|) == w
  {
  }

  /** The bytes elsewhere are the old ones. */
  lemma ReadsElsewhere(c: Bytes, off: nat, w: Bytes, o: nat)
    requires off <= |c| && o < |Splice(c, off, w)| && !(off <= o < off + |w|)
    ensures o < |c| && Splice(c, off, w)[o] == c[o]
  {
  }

  lemma SplicedTwice(i: nat, off: nat, x: Bytes, y: Bytes, d0: seq<Bytes>, n0: seq<Inode>, d1: seq<Bytes>, n1: seq<Inode>, d2: seq<Bytes>, n2: seq<Inode>)
    requires SplicedInto(i, off, x, d0, n0, d1, n1) && SplicedInto(i, off + |x|, y, d1, n1, d2, n2)
    ensures SplicedInto(i, off, x + y, d0, n0, d2, n2)
  {
    SpliceGrows(Contents(d0, n0[i]), off, x, y);
  }

  lemma SplicedNone(i: nat, off: nat, d: seq<Bytes>, n: seq<Inode>)
    requires i < |n| && SizesOk(n)
    ensures Progress(i, off, [], d, n, d, n)
  {
  }

  /** w has been written at offset off, which must not lie beyond the end. */
  ghost predicate Progress(i: nat, off: nat, w: Bytes, d0: seq<Bytes>, n0: seq<Inode>, d: seq<Bytes>, n: seq<Inode>) {
    && i < |n0|
    && if off <= n0[i].size then SplicedInto(i, off, w, d0, n0, d, n) else w == [] && d == d0 && n == n0
  }

  lemma PrefixGrows(src: Bytes, i: nat, m: nat, n: nat, k: nat)
    requires i + m <= |src| && n <= m && k == i + n
    ensures src[i..i + m][..n] == src[i..k] && src[..i] + src[i..k] == src[..k]
  {
  }

  /** Every copy from the user succeeds. */
  ghost predicate Copying(copies: nat -> nat) {
    forall k: nat :: copies(k) > CHUNK / BSIZE
  }

  /** A chunk touches at most one block more than it fills. */
  lemma EnoughCopies(off: nat, m: nat, copies: nat)
    requires m <= CHUNK
    ensures copies > CHUNK / BSIZE ==> Upto(off, m, copies) == m
  {
    UptoAll(off, m, copies);
  }

  /** The offset has not passed the end of the file. */
  lemma StillFits(ip: nat, off: nat, src: Bytes, i: nat, d0: seq<Bytes>, n0: seq<Inode>, d: seq<Bytes>, n: seq<Inode>)
    requires i <= |src| && Progress(ip, off, src[..i], d0, n0, d, n) && off <= n0[ip].size
    ensures ip < |n| && off + i <= n[ip].size
  {
    assert |Contents(d, n[ip])| == n[ip].size;
  }

  /** An open file: the inode and the offset. */
  class File {
    const ip: nat
    var off: nat

    constructor (ip: nat)
      ensures this.ip == ip && off == 0
    {
      this.ip, off := ip, 0;
    }

    /** Write src at the offset, chunk by chunk.  copies(k): how many block copies
        from the user succeed in chunk k. */
    method Write(fs: FileSystem, src: Bytes, copies: nat -> nat) returns (ret: int, panicked: bool)
      requires fs.Valid() && ip < |fs.inodes|
      modifies this`off, fs
      ensures fs.Valid() && |fs.inodes| == old(|fs.inodes|)
      ensures panicked ==> Full(fs.sb, fs.bitmap)
      ensures !panicked ==> old(off) <= off <= old(off) + |src| && ret == if off == old(off) + |src| then |src| else -1
      ensures !panicked && old(off) <= old(fs.inodes[ip].size) && old(off) + |src| <= MAXFILE * BSIZE && Copying(copies) ==> ret == |src|
      ensures !panicked ==> Progress(ip, old(off), src[..off - old(off)], old(fs.data), old(fs.inodes), fs.data, fs.inodes)
      ensures !panicked && old(HoleFree(fs.data, fs.inodes[ip])) ==> HoleFree(fs.data, fs.inodes[ip])
      ensures old(HoleFree(fs.data, fs.inodes[ip])) ==> fs.worst <= Max(old(fs.worst), MAXOPBLOCKS)
      ensures fs.sb.size < BPB ==> fs.worst <= Max(old(fs.worst), 7)
    {
      hide Owns, BitsOk, Progress, HoleFree;
      var i, chunk, ok := 0, 0, true;
      panicked := false;
      ghost var worst := fs.worst;
      ghost var off0, d0, n0, k := off, fs.data, fs.inodes, 0;
      assert src[..0] == [];
      SplicedNone(ip, off, fs.data, fs.inodes);
      while i < |src| && ok && !panicked
        invariant fs.Valid() && ip < |fs.inodes| == |n0| && off == off0 + k && i <= k <= |src|
        invariant panicked ==> Full(fs.sb, fs.bitmap)
        invariant !panicked ==> Progress(ip, off0, src[..k], d0, n0, fs.data, fs.inodes)
        invariant !panicked ==> if ok then k == i else k < |src|
        invariant !panicked && off0 <= n0[ip].size && off0 + |src| <= MAXFILE * BSIZE && Copying(copies) ==> ok
        invariant HoleFree(d0, n0[ip]) && !panicked ==> HoleFree(fs.data, fs.inodes[ip])
        invariant HoleFree(d0, n0[ip]) ==> fs.worst <= Max(worst, MAXOPBLOCKS)
        invariant fs.sb.size < BPB ==> fs.worst <= Max(worst, 7)
        decreases |src| - i, ok, !panicked
      {
        var m := if |src| - i > CHUNK then CHUNK else |src| - i;
        var r;
        r, k := WriteNext(fs, src, i, m, copies(chunk), off0, d0, n0);
        panicked := r.WritePanic?;
        if !panicked {
          ok := r == Wrote(m);
          if ok {
            i := i + m;
          }
          chunk := chunk + 1;
        }
      }
      ret := if i == |src| then |src| else -1;
    }

    /** One chunk of src, after the first i bytes. */
    method WriteNext(fs: FileSystem, src: Bytes, i: nat, m: nat, copies: nat, ghost off0: nat, ghost d0: seq<Bytes>, ghost n0: seq<Inode>)
      returns (r: WriteResult, ghost k: nat)
      requires fs.Valid() && ip < |fs.inodes| == |n0| && i + m <= |src| && 0 < m <= CHUNK
      requires off == off0 + i && Progress(ip, off0, src[..i], d0, n0, fs.data, fs.inodes)
      modifies this`off, fs
      ensures fs.Valid() && |fs.inodes| == |n0| && off == off0 + k && i <= k <= i + m
      ensures r.WritePanic? ==> Full(fs.sb, fs.bitmap)
      ensures k == if r.Wrote? then i + r.n else i
      ensures !r.WritePanic? ==> Progress(ip, off0, src[..k], d0, n0, fs.data, fs.inodes)
      ensures !r.WritePanic? && old(HoleFree(fs.data, fs.inodes[ip])) ==> HoleFree(fs.data, fs.inodes[ip])
      ensures old(HoleFree(fs.data, fs.inodes[ip])) ==> fs.worst <= Max(old(fs.worst), MAXOPBLOCKS)
      ensures fs.sb.size < BPB ==> fs.worst <= Max(old(fs.worst), 7)
      ensures off0 <= n0[ip].size && off0 + |src| <= MAXFILE * BSIZE && copies > CHUNK / BSIZE ==> r.WritePanic? || r == Wrote(m)
    {
      hide Owns, BitsOk, SplicedInto, HoleFree;
      ghost var d, n := fs.data, fs.inodes;
      if off0 <= n0[ip].size {
        StillFits(ip, off0, src, i, d0, n0, d, n);
      }
      EnoughCopies(off, m, copies);
      r := WriteOp(fs, src[i..i + m], copies);
      k := i;
      if r.Wrote? {
        k := i + r.n;
        PrefixGrows(src, i, m, r.n, k);
        SplicedTwice(ip, off0, src[..i], src[i..k], d0, n0, d, n, fs.data, fs.inodes);
        off := off + r.n;
      }
    }

    /** begin_op, writei, end_op for one chunk. */
    method WriteOp(fs: FileSystem, w: Bytes, copies: nat) returns (r: WriteResult)
      requires fs.Valid() && ip < |fs.inodes| && |w| <= CHUNK
      modifies fs
      ensures fs.Valid() && |fs.inodes| == old(|fs.inodes|)
      ensures r.Refused? ==> fs.data == old(fs.data) && fs.inodes == old(fs.inodes)
      ensures r.Refused? <==> old(off) > old(fs.inodes[ip].size) || off + |w| >= U32 || off + |w| > MAXFILE * BSIZE
      ensures r.Wrote? ==> r.n == Upto(off, |w|, copies)
      ensures r.WritePanic? ==> Full(fs.sb, fs.bitmap)
      ensures r.Wrote? ==> r.n <= |w| && SplicedInto(ip, off, w[..r.n], old(fs.data), old(fs.inodes), fs.data, fs.inodes)
      ensures r.Wrote? && old(HoleFree(fs.data, fs.inodes[ip])) ==> HoleFree(fs.data, fs.inodes[ip])
      ensures old(HoleFree(fs.data, fs.inodes[ip])) ==> fs.worst <= Max(old(fs.worst), MAXOPBLOCKS)
      ensures fs.sb.size < BPB ==> fs.worst <= Max(old(fs.worst), 7)
    {
      fs.BeginOp();
      ChunkFitsTransaction(off, |w|);
      r := fs.Writei(ip, off, w, copies);
      if !r.WritePanic? {
        fs.EndOp();
      }
    }
  }
}
