/** kernel/log.c over a write-through cache of disk blocks: the loops of commit
    and recovery, with a record of the disk after each block write. */
module Log {
  import opened LogDisk

  datatype LogResult = Recorded | TooBig | OutsideTransaction

  lemma Regroup(a: seq<Disk>, b: seq<Disk>, c: Disk, d: seq<Disk>)
    ensures (a + b + [c]) + d == a + (b + [c] + d)
  {
  }

  lemma InstallNone(g: Geometry, d: Disk, bs: seq<int>)
    requires g.Ok() && |d| == g.total && |bs| < g.size && forall i :: 0 <= i < |bs| ==> g.Home(bs[i])
    ensures Installed(g, d, bs, 0) == d && InstallTrace(g, d, bs, 0) == []
  {
  }

  /** One more block of the log, at place a, is installed. */
  lemma InstallMore(g: Geometry, d: Disk, bs: seq<int>, k: nat, m: nat, a: int)
    requires DiskOk(g, d) && ListOk(g, bs) && k < |bs| && m == k + 1 && a == g.start + 1 + k
    ensures var e := Installed(g, d, bs, k); Installed(g, d, bs, m) == e[bs[k] := e[a]]
    ensures InstallTrace(g, d, bs, m) == InstallTrace(g, d, bs, k) + [Installed(g, d, bs, m)]
  {
    InstalledElsewhere(g, d, bs, k, a);
  }

  lemma PrefixGrows(bs: seq<int>, k: nat, m: nat)
    requires k < |bs| && m == k + 1
    ensures forall b :: b in bs[..m] <==> b in bs[..k] || b == bs[k]
  {
    assert bs[..m] == bs[..k] + [bs[k]];
  }

  lemma InstalledAll(g: Geometry, d: Disk, bs: seq<int>)
    requires DiskOk(g, d) && ListOk(g, bs)
    ensures forall i :: 0 <= i < |bs| ==> Installed(g, d, bs, |bs|)[bs[i]] == d[g.start + 1 + i]
  {
    hide Installed;
    forall i | 0 <= i < |bs| ensures Installed(g, d, bs, |bs|)[bs[i]] == d[g.start + 1 + i] {
      InstalledAt(g, d, bs, |bs|, i);
    }
  }

  class LogDevice {
    const g: Geometry
    var disk: Disk
    var cache: map<int, Block>
    var pinned: set<int>
    var blocks: seq<int>
    var outstanding: int
    /** The disk after each block write so far. */
    ghost var trace: seq<Disk>

    constructor (g: Geometry, disk: Disk)
      requires DiskOk(g, disk) && HeaderOk(g, disk[g.start])
      ensures this.g == g && this.disk == disk && cache == map[] && blocks == [] && pinned == {} && trace == []
      ensures Coherent()
    {
      this.g, this.disk, cache, pinned, blocks, outstanding, trace := g, disk, map[], {}, [], 0, [];
    }

    /** Cached blocks agree with the disk, except pinned ones, which are cached. */
    ghost predicate Coherent()
      reads this
    {
      && DiskOk(g, disk)
      && pinned <= cache.Keys
      && (forall b :: b in cache ==> 0 <= b < g.total && |cache[b]| == WORDS)
      && (forall b :: b in cache && b !in pinned ==> cache[b] == disk[b])
    }

    /** What bread returns for block b. */
    function Read(b: int): Block
      requires 0 <= b < |disk|
      reads this
    {
      if b in cache then cache[b] else disk[b]
    }

    /** The sequence vs is the contents, seen through the cache, of the blocks
        of the transaction. */
    ghost predicate Contents(vs: seq<Block>)
      requires DiskOk(g, disk) && forall i :: 0 <= i < |blocks| ==> 0 <= blocks[i] < g.total
      reads this
    {
      |vs| == |blocks| && forall i :: 0 <= i < |vs| ==> |vs[i]| == WORDS && vs[i] == Read(blocks[i])
    }

    /** bread: a hit, or a miss that may recycle any buffers that are neither
        pinned nor held by the caller. */
    method Bread(b: int, held: set<int>) returns (data: Block)
      requires Coherent() && 0 <= b < g.total
      modifies `cache
      ensures Coherent() && b in cache && data == cache[b] == old(Read(b))
      ensures forall x :: 0 <= x < g.total ==> Read(x) == old(Read(x))
      ensures forall x :: x in old(cache) && x in held ==> x in cache
    {
      if b !in cache {
        var victims: set<int> :| victims <= cache.Keys - pinned - held;
        cache := cache - victims;
        cache := cache[b := disk[b]];
      }
      data := cache[b];
    }

    /** bwrite of a cached block: one atomic block write. */
    method Bwrite(b: int)
      requires DiskOk(g, disk) && b in cache && 0 <= b < g.total && |cache[b]| == WORDS
      modifies `disk, `trace
      ensures disk == old(disk)[b := cache[b]] && DiskOk(g, disk)
      ensures trace == old(trace) + [disk]
    {
      disk := disk[b := cache[b]];
      trace := trace + [disk];
    }

    /** The body of the loop of write_log. */
    method LogBlock(tail: nat)
      requires Coherent() && ListOk(g, blocks) && tail < |blocks| && PinsAreHome()
      modifies `disk, `cache, `trace
      ensures Coherent()
      ensures disk == old(disk)[g.start + tail + 1 := old(Read(blocks[tail]))]
      ensures trace == old(trace) + [disk]
      ensures forall x :: g.Home(x) ==> Read(x) == old(Read(x))
    {
      var b := g.start + tail + 1;
      var to := Bread(b, {});
      var from := Bread(blocks[tail], {b});
      cache := cache[b := from];
      Bwrite(b);
    }

    ghost predicate PinsAreHome()
      reads this
    {
      forall b :: b in pinned ==> g.Home(b)
    }

    method WriteLog(ghost vs: seq<Block>)
      requires Coherent() && ListOk(g, blocks) && PinsAreHome() && Contents(vs)
      modifies `disk, `cache, `trace
      ensures Coherent()
      ensures disk == Logged(g, old(disk), vs, |blocks|)
      ensures trace == old(trace) + LogTrace(g, old(disk), vs, |blocks|)
      ensures forall x :: g.Home(x) ==> Read(x) == old(Read(x))
    {
      var tail := 0;
      while tail < |blocks|
        invariant 0 <= tail <= |blocks| && Coherent()
        invariant disk == Logged(g, old(disk), vs, tail)
        invariant trace == old(trace) + LogTrace(g, old(disk), vs, tail)
        invariant forall x :: g.Home(x) ==> Read(x) == old(Read(x))
      {
        LogBlock(tail);
        tail := tail + 1;
      }
    }

    /** Write the in-memory header to the header block. */
    method WriteHead()
      requires Coherent() && |blocks| <= LOGSIZE && PinsAreHome()
      modifies `disk, `cache, `trace
      ensures Coherent()
      ensures disk == old(disk)[g.start := SetHeader(old(disk)[g.start], blocks)]
      ensures trace == old(trace) + [disk]
      ensures forall x :: g.Home(x) ==> Read(x) == old(Read(x))
    {
      var buf := Bread(g.start, {});
      var hb := buf[0 := |blocks|];
      var i := 0;
      while i < |blocks|
        invariant 0 <= i <= |blocks| && |hb| == WORDS && hb[0] == |blocks|
        invariant forall j :: 0 <= j < i ==> hb[1 + j] == blocks[j]
        invariant hb[1 + i..] == buf[1 + i..]
      {
        hb := hb[1 + i := blocks[i]];
        i := i + 1;
      }
      assert hb == SetHeader(buf, blocks);
      cache := cache[g.start := hb];
      Bwrite(g.start);
    }

    /** Read the header block into the in-memory header. */
    method ReadHead()
      requires Coherent() && HeaderOk(g, Read(g.start))
      modifies `cache, `blocks
      ensures Coherent() && blocks == Listed(old(Read(g.start)))
      ensures forall x :: 0 <= x < g.total ==> Read(x) == old(Read(x))
    {
      var buf := Bread(g.start, {});
      var bs := [];
      var i := 0;
      while i < buf[0]
        invariant 0 <= i <= buf[0] && bs == buf[1..1 + i]
      {
        bs := bs + [buf[1 + i]];
        i := i + 1;
      }
      blocks := bs;
    }

    /** The body of the loop of install_trans. */
    method InstallBlock(tail: nat, recovering: bool)
      requires Coherent() && ListOk(g, blocks) && tail < |blocks| && PinsAreHome()
      requires recovering ==> blocks[tail] !in pinned
      modifies `disk, `cache, `trace, `pinned
      ensures Coherent()
      ensures disk == old(disk)[blocks[tail] := old(disk)[g.start + 1 + tail]]
      ensures trace == old(trace) + [disk]
      ensures pinned == old(pinned) - {blocks[tail]}
      ensures Read(blocks[tail]) == old(disk)[g.start + 1 + tail]
      ensures forall x :: 0 <= x < g.total && x != blocks[tail] ==> Read(x) == old(Read(x))
    {
      var b := blocks[tail];
      var lbuf := Bread(g.start + tail + 1, {});
      var dbuf := Bread(b, {g.start + tail + 1});
      cache := cache[b := lbuf];
      Bwrite(b);
      if !recovering {
        pinned := pinned - {b};
      }
    }

    /** Copy the committed blocks from the log to their home places. */
    method InstallTrans(recovering: bool)
      requires Coherent() && ListOk(g, blocks) && PinsAreHome()
      requires recovering ==> pinned == {}
      modifies `disk, `cache, `trace, `pinned
      ensures Coherent()
      ensures disk == Installed(g, old(disk), blocks, |blocks|)
      ensures trace == old(trace) + InstallTrace(g, old(disk), blocks, |blocks|)
      ensures forall b :: b in pinned <==> b in old(pinned) && b !in blocks
      ensures forall x :: 0 <= x < g.total && x !in blocks ==> Read(x) == old(Read(x))
    {
      hide Installed, InstallTrace;
      InstallNone(g, disk, blocks);
      var tail := 0;
      while tail < |blocks|
        invariant 0 <= tail <= |blocks| && Coherent()
        invariant disk == Installed(g, old(disk), blocks, tail)
        invariant trace == old(trace) + InstallTrace(g, old(disk), blocks, tail)
        invariant forall b :: b in pinned <==> b in old(pinned) && b !in blocks[..tail]
        invariant forall x :: 0 <= x < g.total && x !in blocks ==> Read(x) == old(Read(x))
      {
        InstallMore(g, old(disk), blocks, tail, tail + 1, g.start + 1 + tail);
        PrefixGrows(blocks, tail, tail + 1);
        InstallBlock(tail, recovering);
        tail := tail + 1;
      }
      assert blocks[..tail] == blocks;
    }

    /** The log is empty on disk and the pinned blocks are the logged ones. */
    ghost predicate Ready()
      reads this
    {
      && Coherent() && ListOk(g, blocks)
      && (forall b :: b in pinned <==> b in blocks)
      && |disk[g.start]| == WORDS && disk[g.start][0] == 0
    }

    /** The first half of commit, up to and including the commit point. */
    method LogAndHead(ghost vs: seq<Block>)
      requires Ready() && Contents(vs)
      modifies `disk, `cache, `trace
      ensures TransactionOk(g, old(disk), blocks, vs)
      ensures Coherent() && disk == Committed(g, old(disk), blocks, vs)
      ensures trace == old(trace) + LogTrace(g, old(disk), vs, |blocks|) + [disk]
      ensures forall x :: g.Home(x) ==> Read(x) == old(Read(x))
    {
      WriteLog(vs);
      LoggedAt(g, old(disk), vs, |blocks|, g.start);
      WriteHead();
    }

    /** The second half: install the logged blocks and erase the header. */
    method InstallAndClear()
      requires Coherent() && HeaderOk(g, disk[g.start]) && blocks == Listed(disk[g.start])
      requires forall b :: b in pinned <==> b in blocks
      requires forall i :: 0 <= i < |blocks| ==> Read(blocks[i]) == disk[g.start + 1 + i]
      modifies `disk, `cache, `trace, `pinned, `blocks
      ensures Ready() && blocks == [] && disk == Recover(g, old(disk))
      ensures trace == old(trace) + RecoveryTrace(g, old(disk))
      ensures forall x :: g.Home(x) ==> Read(x) == old(Read(x))
    {
      hide Installed;
      ghost var c, bs := disk, blocks;
      InstallTrans(false);
      InstalledAll(g, c, bs);
      InstalledElsewhere(g, c, bs, |bs|, g.start);
      blocks := [];
      WriteHead();
    }

    /** The state that a crash during commit can leave is one of the disks of
        CommitTrace; when commit returns, the transaction is in place and the
        contents seen through the cache have not changed. */
    method Commit(ghost vs: seq<Block>)
      requires Ready() && Contents(vs)
      modifies `disk, `cache, `trace, `pinned, `blocks
      ensures Ready() && blocks == []
      ensures TransactionOk(g, old(disk), old(blocks), vs)
      ensures trace == old(trace) + if old(blocks) == [] then [] else CommitTrace(g, old(disk), old(blocks), vs)
      ensures SameHome(g, disk, Updated(g, old(disk), old(blocks), vs))
      ensures forall x :: g.Home(x) ==> Read(x) == old(Read(x))
    {
      hide Installed, InstallTrace, LogTrace, Recover, RecoveryTrace, Committed;
      if |blocks| > 0 {
        LogAndHead(vs);
        CommittedBlocks(g, old(disk), blocks, vs);
        CommittedRecovers(g, old(disk), blocks, vs);
        ghost var c := disk;
        InstallAndClear();
        Regroup(old(trace), LogTrace(g, old(disk), vs, |old(blocks)|), c, RecoveryTrace(g, c));
      }
    }

    /** Every disk that a crash during recovery can leave is one of the disks of
        RecoveryTrace, and the last of them is the recovered disk. */
    method RecoverFromLog()
      requires Coherent() && HeaderOk(g, disk[g.start]) && cache == map[] && pinned == {}
      modifies `disk, `cache, `trace, `pinned, `blocks
      ensures Ready() && blocks == []
      ensures disk == Recover(g, old(disk))
      ensures trace == old(trace) + RecoveryTrace(g, old(disk))
    {
      ReadHead();
      InstallTrans(true);
      InstalledElsewhere(g, old(disk), blocks, |blocks|, g.start);
      blocks := [];
      WriteHead();
    }

    /** Record a modified block in the transaction; pin it if it is new.  The
        caller has put its contents in the cache. */
    method LogWrite(b: int) returns (r: LogResult)
      requires Coherent() && g.Ok() && b in cache && |blocks| <= LOGSIZE
      modifies `blocks, `pinned
      ensures r.TooBig? <==> |old(blocks)| >= LOGSIZE || |old(blocks)| >= g.size - 1
      ensures r.OutsideTransaction? <==> !r.TooBig? && outstanding < 1
      ensures r.Recorded? ==> blocks == (if b in old(blocks) then old(blocks) else old(blocks) + [b])
      ensures r.Recorded? ==> pinned == (if b in old(blocks) then old(pinned) else old(pinned) + {b})
      ensures !r.Recorded? ==> blocks == old(blocks) && pinned == old(pinned)
    {
      if |blocks| >= LOGSIZE || |blocks| >= g.size - 1 {
        return TooBig;
      }
      if outstanding < 1 {
        return OutsideTransaction;
      }
      var i := 0;
      while i < |blocks| && blocks[i] != b
        invariant 0 <= i <= |blocks| && b !in blocks[..i]
      {
        i := i + 1;
      }
      if i == |blocks| {
        assert b !in blocks;
        blocks := blocks + [b];
        pinned := pinned + {b};
      } else {
        blocks := blocks[i := b];
      }
      return Recorded;
    }
  }
}
