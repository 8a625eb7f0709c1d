/** The on-disk log of kernel/log.c as functions of the disk: what recovery
    makes of a disk, and the disk after each block write of a commit and of a
    recovery. */
module LogDisk {

  const WORDS: nat := 256
  const MAXOPBLOCKS: nat := 10
  const LOGSIZE: nat := 30

  /** A disk block of 1024 bytes, as 256 words. */
  type Block = seq<int>

  type Disk = seq<Block>

  /** The log occupies the blocks from start up to start + size: a header and
      size - 1 block copies. */
  datatype Geometry = Geometry(start: nat, size: nat, total: nat) {
    predicate Ok() {
      1 <= size && start + size <= total
    }

    predicate Home(b: int) {
      0 <= b < total && !(start <= b < start + size)
    }
  }

  ghost predicate DiskOk(g: Geometry, d: Disk) {
    g.Ok() && |d| == g.total && forall b :: 0 <= b < |d| ==> |d[b]| == WORDS
  }

  /** A list of distinct home blocks that fits the log. */
  ghost predicate ListOk(g: Geometry, bs: seq<int>) {
    && |bs| <= LOGSIZE && |bs| < g.size
    && (forall i :: 0 <= i < |bs| ==> g.Home(bs[i]))
    && (forall i, j :: 0 <= i < j < |bs| ==> bs[i] != bs[j])
  }

  /** The header block lists n block numbers after n itself. */
  ghost predicate HeaderOk(g: Geometry, h: Block) {
    |h| == WORDS && 0 <= h[0] <= LOGSIZE && ListOk(g, h[1..1 + h[0]])
  }

  function Listed(h: Block): (bs: seq<int>)
    requires |h| == WORDS && 0 <= h[0] <= LOGSIZE
  {
    h[1..1 + h[0]]
  }

  /** write_head changes n and the first n entries and leaves the rest. */
  function SetHeader(h: Block, bs: seq<int>): (r: Block)
    requires |h| == WORDS && |bs| <= LOGSIZE
    ensures |r| == WORDS && r[0] == |bs| && Listed(r) == bs
  {
    [|bs|] + bs + h[1 + |bs|..]
  }

  ghost predicate SameHome(g: Geometry, d: Disk, e: Disk) {
    |d| == |e| && forall b :: 0 <= b < |d| && g.Home(b) ==> d[b] == e[b]
  }

  // ---------------------------------------------------------------- recovery

  /** install_trans: the first k listed blocks copied from the log. */
  function Installed(g: Geometry, d: Disk, bs: seq<int>, k: nat): (r: Disk)
    requires g.Ok() && |d| == g.total && k <= |bs| < g.size && forall i :: 0 <= i < |bs| ==> g.Home(bs[i])
    ensures |r| == |d|
  {
    if k == 0 then d
    else Installed(g, d, bs, k - 1)[bs[k - 1] := d[g.start + k]]
  }

  /** recover_from_log, run to the end. */
  function Recover(g: Geometry, d: Disk): (r: Disk)
    requires g.Ok() && |d| == g.total && |d[g.start]| == WORDS && 0 <= d[g.start][0] <= LOGSIZE
    requires |Listed(d[g.start])| < g.size && forall i :: 0 <= i < |Listed(d[g.start])| ==> g.Home(Listed(d[g.start])[i])
  {
    var bs := Listed(d[g.start]);
    Installed(g, d, bs, |bs|)[g.start := SetHeader(d[g.start], [])]
  }

  /** The disk after the first k block writes of recover_from_log. */
  ghost function Recovering(g: Geometry, d: Disk, k: nat): (r: Disk)
    requires DiskOk(g, d) && HeaderOk(g, d[g.start])
  {
    var bs := Listed(d[g.start]);
    if k <= |bs| then Installed(g, d, bs, k) else Recover(g, d)
  }

  lemma {:induction false} InstalledElsewhere(g: Geometry, d: Disk, bs: seq<int>, k: nat, b: int)
    requires DiskOk(g, d) && ListOk(g, bs) && k <= |bs| && 0 <= b < |d| && b !in bs[..k]
    ensures Installed(g, d, bs, k)[b] == d[b]
  {
    if k > 0 {
      assert bs[..k] == bs[..k - 1] + [bs[k - 1]];
      InstalledElsewhere(g, d, bs, k - 1, b);
    }
  }

  lemma {:induction false} InstalledAt(g: Geometry, d: Disk, bs: seq<int>, k: nat, i: nat)
    requires DiskOk(g, d) && ListOk(g, bs) && i < k <= |bs|
    ensures Installed(g, d, bs, k)[bs[i]] == d[g.start + 1 + i]
  {
    if i < k - 1 {
      InstalledAt(g, d, bs, k - 1, i);
      assert bs[i] != bs[k - 1];
    }
  }

  lemma {:induction false} InstalledOk(g: Geometry, d: Disk, bs: seq<int>, k: nat)
    requires DiskOk(g, d) && ListOk(g, bs) && k <= |bs|
    ensures DiskOk(g, Installed(g, d, bs, k))
    ensures forall b :: g.start <= b < g.start + g.size ==> Installed(g, d, bs, k)[b] == d[b]
  {
    if k > 0 {
      InstalledOk(g, d, bs, k - 1);
    }
  }

  /** The home block bs[i] ends up with the i-th block of the log; the other
      home blocks keep their contents. */
  lemma RecoverAt(g: Geometry, d: Disk, b: nat)
    requires DiskOk(g, d) && HeaderOk(g, d[g.start]) && g.Home(b)
    ensures b !in Listed(d[g.start]) ==> Recover(g, d)[b] == d[b]
    ensures forall i :: 0 <= i < |Listed(d[g.start])| && Listed(d[g.start])[i] == b ==> Recover(g, d)[b] == d[g.start + 1 + i]
  {
    var bs := Listed(d[g.start]);
    forall i | 0 <= i < |bs| && bs[i] == b ensures Recover(g, d)[b] == d[g.start + 1 + i] {
      InstalledAt(g, d, bs, |bs|, i);
    }
    if b !in bs {
      InstalledElsewhere(g, d, bs, |bs|, b);
    }
  }

  /** A recovery that crashes after any number of its writes leaves a disk from
      which recovery still yields the same home blocks. */
  lemma RecoveryRestarts(g: Geometry, d: Disk, k: nat)
    requires DiskOk(g, d) && HeaderOk(g, d[g.start])
    ensures var e := Recovering(g, d, k);
            DiskOk(g, e) && HeaderOk(g, e[g.start]) && SameHome(g, Recover(g, e), Recover(g, d))
  {
    var bs := Listed(d[g.start]);
    var e := Recovering(g, d, k);
    InstalledOk(g, d, bs, if k <= |bs| then k else |bs|);
    forall b | 0 <= b < |d| && g.Home(b) ensures Recover(g, e)[b] == Recover(g, d)[b] {
      RecoverAt(g, d, b);
      RecoverAt(g, e, b);
      if b in bs {
        var i :| 0 <= i < |bs| && bs[i] == b;
        if k > |bs| {
          assert Recover(g, e)[b] == e[b];
        }
      } else if k <= |bs| {
        InstalledElsewhere(g, d, bs, k, b);
      }
    }
  }

  /** The disk after a series of recoveries, the i-th of which is cut short by
      a crash after crashes[i] block writes. */
  ghost function CrashingRecoveries(g: Geometry, d: Disk, crashes: seq<nat>): (r: Disk)
    requires DiskOk(g, d) && HeaderOk(g, d[g.start])
    decreases |crashes|
  {
    if crashes == [] then d
    else
      RecoveryRestarts(g, d, crashes[0]);
      CrashingRecoveries(g, Recovering(g, d, crashes[0]), crashes[1..])
  }

  /** Recovery may crash any number of times, each time at any block write. */
  lemma {:induction false} CrashingRecoveriesHarmless(g: Geometry, d: Disk, crashes: seq<nat>)
    requires DiskOk(g, d) && HeaderOk(g, d[g.start])
    ensures var e := CrashingRecoveries(g, d, crashes);
            DiskOk(g, e) && HeaderOk(g, e[g.start]) && SameHome(g, Recover(g, e), Recover(g, d))
    decreases |crashes|
  {
    if crashes != [] {
      RecoveryRestarts(g, d, crashes[0]);
      CrashingRecoveriesHarmless(g, Recovering(g, d, crashes[0]), crashes[1..]);
    }
  }

  /** The disks after the first k writes of install_trans, in order. */
  ghost function InstallTrace(g: Geometry, d: Disk, bs: seq<int>, k: nat): (r: seq<Disk>)
    requires g.Ok() && |d| == g.total && k <= |bs| < g.size && forall i :: 0 <= i < |bs| ==> g.Home(bs[i])
    ensures |r| == k
  {
    if k == 0 then [] else InstallTrace(g, d, bs, k - 1) + [Installed(g, d, bs, k)]
  }

  lemma {:induction false} InstallTraceAt(g: Geometry, d: Disk, bs: seq<int>, k: nat, i: nat)
    requires g.Ok() && |d| == g.total && i < k <= |bs| < g.size && forall i :: 0 <= i < |bs| ==> g.Home(bs[i])
    ensures InstallTrace(g, d, bs, k)[i] == Installed(g, d, bs, i + 1)
  {
    if i < k - 1 {
      InstallTraceAt(g, d, bs, k - 1, i);
    }
  }

  /** The disks after each write of recover_from_log. */
  ghost function RecoveryTrace(g: Geometry, d: Disk): (r: seq<Disk>)
    requires DiskOk(g, d) && HeaderOk(g, d[g.start])
    ensures |r| == |Listed(d[g.start])| + 1
  {
    InstallTrace(g, d, Listed(d[g.start]), |Listed(d[g.start])|) + [Recover(g, d)]
  }

  lemma RecoveryTraceAt(g: Geometry, d: Disk, i: nat)
    requires DiskOk(g, d) && HeaderOk(g, d[g.start]) && i < |RecoveryTrace(g, d)|
    ensures RecoveryTrace(g, d)[i] == Recovering(g, d, i + 1)
  {
    var bs := Listed(d[g.start]);
    if i < |bs| {
      InstallTraceAt(g, d, bs, |bs|, i);
    }
  }

  // ---------------------------------------------------------------- commit

  /** write_log: the first k block contents in their log places. */
  function Logged(g: Geometry, d: Disk, vs: seq<Block>, k: nat): (r: Disk)
    requires g.Ok() && |d| == g.total && k <= |vs| < g.size
    ensures |r| == |d|
  {
    if k == 0 then d else Logged(g, d, vs, k - 1)[g.start + k := vs[k - 1]]
  }

  lemma {:induction false} LoggedAt(g: Geometry, d: Disk, vs: seq<Block>, k: nat, b: nat)
    requires g.Ok() && |d| == g.total && k <= |vs| < g.size && b < |d|
    ensures Logged(g, d, vs, k)[b] == if g.start < b <= g.start + k then vs[b - g.start - 1] else d[b]
  {
    if k > 0 {
      LoggedAt(g, d, vs, k - 1, b);
    }
  }

  lemma LoggedOk(g: Geometry, d: Disk, vs: seq<Block>, k: nat)
    requires DiskOk(g, d) && k <= |vs| < g.size && forall i :: 0 <= i < |vs| ==> |vs[i]| == WORDS
    ensures DiskOk(g, Logged(g, d, vs, k)) && Logged(g, d, vs, k)[g.start] == d[g.start]
  {
    LoggedAt(g, d, vs, k, g.start);
    forall b | 0 <= b < |d| ensures |Logged(g, d, vs, k)[b]| == WORDS {
      LoggedAt(g, d, vs, k, b);
    }
  }

  /** What a transaction is: the listed home blocks get the given contents. */
  function Updated(g: Geometry, d: Disk, bs: seq<int>, vs: seq<Block>): (r: Disk)
    requires |bs| == |vs| && forall i :: 0 <= i < |bs| ==> 0 <= bs[i] < |d|
    ensures |r| == |d|
    decreases |bs|
  {
    if bs == [] then d
    else Updated(g, d, bs[..|bs| - 1], vs[..|vs| - 1])[bs[|bs| - 1] := vs[|vs| - 1]]
  }

  ghost predicate TransactionOk(g: Geometry, d: Disk, bs: seq<int>, vs: seq<Block>) {
    && DiskOk(g, d) && HeaderOk(g, d[g.start]) && d[g.start][0] == 0
    && ListOk(g, bs) && |vs| == |bs| && forall i :: 0 <= i < |vs| ==> |vs[i]| == WORDS
  }

  /** The disk once the header is written: the commit point. */
  ghost function Committed(g: Geometry, d: Disk, bs: seq<int>, vs: seq<Block>): (r: Disk)
    requires TransactionOk(g, d, bs, vs)
    ensures DiskOk(g, r) && HeaderOk(g, r[g.start]) && Listed(r[g.start]) == bs
  {
    LoggedOk(g, d, vs, |vs|);
    Logged(g, d, vs, |vs|)[g.start := SetHeader(d[g.start], bs)]
  }

  /** The disk after the first k block writes of commit: the log blocks, the
      header, the home blocks, the header again. */
  ghost function Committing(g: Geometry, d: Disk, bs: seq<int>, vs: seq<Block>, k: nat): (r: Disk)
    requires TransactionOk(g, d, bs, vs)
  {
    if k <= |vs| then Logged(g, d, vs, k)
    else Recovering(g, Committed(g, d, bs, vs), k - |vs| - 1)
  }

  /** The disks after the first k writes of write_log, in order. */
  ghost function LogTrace(g: Geometry, d: Disk, vs: seq<Block>, k: nat): (r: seq<Disk>)
    requires g.Ok() && |d| == g.total && k <= |vs| < g.size
    ensures |r| == k
  {
    if k == 0 then [] else LogTrace(g, d, vs, k - 1) + [Logged(g, d, vs, k)]
  }

  lemma {:induction false} LogTraceAt(g: Geometry, d: Disk, vs: seq<Block>, k: nat, i: nat)
    requires g.Ok() && |d| == g.total && i < k <= |vs| < g.size
    ensures LogTrace(g, d, vs, k)[i] == Logged(g, d, vs, i + 1)
  {
    if i < k - 1 {
      LogTraceAt(g, d, vs, k - 1, i);
    }
  }

  /** The disks after each write of commit. */
  ghost function CommitTrace(g: Geometry, d: Disk, bs: seq<int>, vs: seq<Block>): (r: seq<Disk>)
    requires TransactionOk(g, d, bs, vs)
    ensures |r| == 2 * |bs| + 2
  {
    var c := Committed(g, d, bs, vs);
    LogTrace(g, d, vs, |vs|) + [c] + RecoveryTrace(g, c)
  }

  lemma CommitTraceAt(g: Geometry, d: Disk, bs: seq<int>, vs: seq<Block>, i: nat)
    requires TransactionOk(g, d, bs, vs) && i < |CommitTrace(g, d, bs, vs)|
    ensures CommitTrace(g, d, bs, vs)[i] == Committing(g, d, bs, vs, i + 1)
  {
    var n, c := |bs|, Committed(g, d, bs, vs);
    if i < n {
      LogTraceAt(g, d, vs, n, i);
    } else if i > n {
      RecoveryTraceAt(g, c, i - n - 1);
    } else {
      assert Committing(g, d, bs, vs, i + 1) == Installed(g, c, bs, 0);
    }
  }

  lemma {:induction false} UpdatedAt(g: Geometry, d: Disk, bs: seq<int>, vs: seq<Block>, b: nat)
    requires |bs| == |vs| && (forall i :: 0 <= i < |bs| ==> 0 <= bs[i] < |d|) && b < |d|
    requires forall i, j :: 0 <= i < j < |bs| ==> bs[i] != bs[j]
    ensures b !in bs ==> Updated(g, d, bs, vs)[b] == d[b]
    ensures forall i :: 0 <= i < |bs| && bs[i] == b ==> Updated(g, d, bs, vs)[b] == vs[i]
    decreases |bs|
  {
    if bs != [] {
      UpdatedAt(g, d, bs[..|bs| - 1], vs[..|vs| - 1], b);
    }
  }

  lemma CommittedBlocks(g: Geometry, d: Disk, bs: seq<int>, vs: seq<Block>)
    requires TransactionOk(g, d, bs, vs)
    ensures forall i :: 0 <= i < |bs| ==> Committed(g, d, bs, vs)[g.start + 1 + i] == vs[i]
  {
    forall i | 0 <= i < |bs| ensures Committed(g, d, bs, vs)[g.start + 1 + i] == vs[i] {
      LoggedAt(g, d, vs, |vs|, g.start + 1 + i);
    }
  }

  lemma RecoversTo(g: Geometry, c: Disk, d: Disk, bs: seq<int>, vs: seq<Block>, b: nat)
    requires DiskOk(g, c) && HeaderOk(g, c[g.start]) && Listed(c[g.start]) == bs && |vs| == |bs|
    requires forall i :: 0 <= i < |bs| ==> c[g.start + 1 + i] == vs[i]
    requires |d| == |c| && g.Home(b) && c[b] == d[b]
    ensures Recover(g, c)[b] == Updated(g, d, bs, vs)[b]
  {
    RecoverAt(g, c, b);
    UpdatedAt(g, d, bs, vs, b);
    if b in bs {
      var i :| 0 <= i < |bs| && bs[i] == b;
      assert Recover(g, c)[b] == vs[i];
    }
  }

  /** Recovering a committed disk carries the transaction out. */
  lemma CommittedRecovers(g: Geometry, d: Disk, bs: seq<int>, vs: seq<Block>)
    requires TransactionOk(g, d, bs, vs)
    ensures SameHome(g, Recover(g, Committed(g, d, bs, vs)), Updated(g, d, bs, vs))
  {
    var c := Committed(g, d, bs, vs);
    CommittedBlocks(g, d, bs, vs);
    forall b | 0 <= b < |d| && g.Home(b) ensures Recover(g, c)[b] == Updated(g, d, bs, vs)[b] {
      LoggedAt(g, d, vs, |vs|, b);
      RecoversTo(g, c, d, bs, vs, b);
    }
  }

  lemma UncommittedRecovers(g: Geometry, d: Disk, bs: seq<int>, vs: seq<Block>, k: nat)
    requires TransactionOk(g, d, bs, vs) && k <= |vs|
    ensures var e := Logged(g, d, vs, k);
            DiskOk(g, e) && HeaderOk(g, e[g.start]) && SameHome(g, Recover(g, e), d)
  {
    LoggedOk(g, d, vs, k);
    assert Listed(d[g.start]) == [];
    forall b | 0 <= b < |d| && g.Home(b) ensures Logged(g, d, vs, k)[b] == d[b] {
      LoggedAt(g, d, vs, k, b);
    }
  }

  // The block writes of commit, one by one.

  lemma CommittingLog(g: Geometry, d: Disk, bs: seq<int>, vs: seq<Block>, k: nat)
    requires TransactionOk(g, d, bs, vs) && k < |vs|
    ensures |Committing(g, d, bs, vs, k)| == g.total
    ensures Committing(g, d, bs, vs, k + 1) == Committing(g, d, bs, vs, k)[g.start + 1 + k := vs[k]]
  {
  }

  lemma CommittingHead(g: Geometry, d: Disk, bs: seq<int>, vs: seq<Block>)
    requires TransactionOk(g, d, bs, vs)
    ensures var e := Committing(g, d, bs, vs, |bs|);
            && |e| == g.total && |e[g.start]| == WORDS
            && Committing(g, d, bs, vs, |bs| + 1) == e[g.start := SetHeader(e[g.start], bs)]
  {
    LoggedAt(g, d, vs, |vs|, g.start);
    assert Installed(g, Committed(g, d, bs, vs), bs, 0) == Committed(g, d, bs, vs);
  }

  lemma CommittingInstall(g: Geometry, d: Disk, bs: seq<int>, vs: seq<Block>, j: nat)
    requires TransactionOk(g, d, bs, vs) && j < |bs|
    ensures var e := Committing(g, d, bs, vs, |bs| + 1 + j);
            && |e| == g.total && e[g.start + 1 + j] == vs[j]
            && Committing(g, d, bs, vs, |bs| + 2 + j) == e[bs[j] := vs[j]]
  {
    var c := Committed(g, d, bs, vs);
    CommittedBlocks(g, d, bs, vs);
    InstalledElsewhere(g, c, bs, j, g.start + 1 + j);
    assert Committing(g, d, bs, vs, |bs| + 1 + j) == Installed(g, c, bs, j);
    assert Committing(g, d, bs, vs, |bs| + 2 + j) == Installed(g, c, bs, j + 1);
  }

  lemma CommittingClear(g: Geometry, d: Disk, bs: seq<int>, vs: seq<Block>)
    requires TransactionOk(g, d, bs, vs)
    ensures var e, f := Committing(g, d, bs, vs, 2 * |bs| + 1), Committing(g, d, bs, vs, 2 * |bs| + 2);
            && |e| == g.total && |e[g.start]| == WORDS && f == e[g.start := SetHeader(e[g.start], [])]
            && DiskOk(g, f) && f[g.start][0] == 0 && SameHome(g, f, Updated(g, d, bs, vs))
  {
    var c := Committed(g, d, bs, vs);
    InstalledElsewhere(g, c, bs, |bs|, g.start);
    assert Committing(g, d, bs, vs, 2 * |bs| + 1) == Installed(g, c, bs, |bs|);
    assert Committing(g, d, bs, vs, 2 * |bs| + 2) == Recover(g, c);
    InstalledOk(g, c, bs, |bs|);
    CommittedRecovers(g, d, bs, vs);
  }

  /** Crash atomicity.  commit may crash after any number k of block writes, and
      recovery any number of times after that: the home blocks the last recovery
      leaves are those before the transaction if the header was not yet written,
      and those after it if it was. */
  lemma CommitIsAtomic(g: Geometry, d: Disk, bs: seq<int>, vs: seq<Block>, k: nat, crashes: seq<nat>)
    requires TransactionOk(g, d, bs, vs)
    ensures var e := Committing(g, d, bs, vs, k);
            && DiskOk(g, e) && HeaderOk(g, e[g.start])
            && var f := CrashingRecoveries(g, e, crashes);
               && DiskOk(g, f) && HeaderOk(g, f[g.start])
               && SameHome(g, Recover(g, f), if k <= |bs| then d else Updated(g, d, bs, vs))
  {
    var e := Committing(g, d, bs, vs, k);
    if k <= |vs| {
      UncommittedRecovers(g, d, bs, vs, k);
    } else {
      CommittedRecovers(g, d, bs, vs);
      RecoveryRestarts(g, Committed(g, d, bs, vs), k - |vs| - 1);
    }
    CrashingRecoveriesHarmless(g, e, crashes);
  }
}
