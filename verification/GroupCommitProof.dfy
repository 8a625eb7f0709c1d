/** What every run of the shared log keeps: the cache shows one flat disk, the
    recovered disk is the effect of whole finished operations, the space promised
    to operations suffices, and no sleeper is forgotten. */
module GroupCommitProof {
  import opened LogDisk
  import opened GroupCommit

  // ---------------------------------------------------------------- replay

  lemma ReplayStep(d: Disk, us: seq<Update>, u: Update)
    requires 0 <= u.b < |d|
    ensures Replay(d, us + [u]) == Replay(d, us)[u.b := u.v]
  {
    assert (us + [u])[..|us|] == us;
  }

  /** A block that the later updates do not touch keeps its contents. */
  lemma {:induction false} ReplayUntouched(d: Disk, us: seq<Update>, n: nat, b: int)
    requires n <= |us| && 0 <= b < |d| && forall i :: n <= i < |us| ==> us[i].b != b
    ensures Replay(d, us)[b] == Replay(d, us[..n])[b]
    decreases |us|
  {
    if n == |us| {
      assert us[..n] == us;
    } else {
      var vs := us[..|us| - 1];
      ReplayUntouched(d, vs, n, b);
      assert vs[..n] == us[..n];
    }
  }

  lemma {:induction false} ReplayWords(g: Geometry, d: Disk, us: seq<Update>)
    requires DiskOk(g, d) && forall i :: 0 <= i < |us| ==> |us[i].v| == WORDS
    ensures DiskOk(g, Replay(d, us))
    decreases |us|
  {
    if us != [] {
      ReplayWords(g, d, us[..|us| - 1]);
    }
  }

  // ---------------------------------------------------------------- invariant

  /** What the operations have written so far. */
  function Logical(s: State): (r: Disk)
    ensures |r| == |s.base|
  {
    Replay(s.base, s.hist)
  }

  /** What a crash now would leave. */
  function Durable(s: State): (r: Disk)
    requires s.durable <= |s.hist|
    ensures |r| == |s.base|
  {
    Replay(s.base, s.hist[..s.durable])
  }

  ghost predicate HistoryOk(c: Config, s: State) {
    && DiskOk(c.g, s.base) && DiskOk(c.g, s.disk)
    && (forall i :: 0 <= i < |s.hist| ==> c.g.Home(s.hist[i].b) && |s.hist[i].v| == WORDS)
  }

  /** The durable updates are whole operations, all finished. */
  ghost predicate WholeOps(s: State) {
    && s.durable <= |s.hist|
    && (forall i :: 0 <= i < s.durable ==> s.hist[i].op in s.ended)
    && (forall i, j :: 0 <= i < s.durable <= j < |s.hist| ==> s.hist[i].op != s.hist[j].op)
  }

  /** Operation numbers: active ones are not finished and not durable. */
  ghost predicate OpsOk(s: State) {
    && s.durable <= |s.hist|
    && (forall i :: 0 <= i < |s.ops| ==> s.ops[i].id < s.nextOp && s.ops[i].id !in s.ended)
    && (forall i, j :: 0 <= i < j < |s.ops| ==> s.ops[i].id != s.ops[j].id)
    && (forall id :: id in s.ended ==> id < s.nextOp)
    && (forall k :: 0 <= k < |s.hist| ==> s.hist[k].op < s.nextOp)
    && (forall k :: 0 <= k < |s.hist| ==> s.hist[k].op in s.ended || ActiveOp(s.ops, s.hist[k].op))
  }

  ghost predicate ActiveOp(ops: seq<Op>, id: nat) {
    exists i :: 0 <= i < |ops| && ops[i].id == id
  }

  ghost predicate PhaseOk(s: State) {
    && (!s.phase.Idle? ==> s.ops == [])
    && (s.phase.Idle? && s.ops == [] ==> s.blocks == [])
    && (s.phase.Commit? ==> s.blocks != [])
    && (s.phase.Recovery? ==> s.blocks == [])
  }

  /** Whoever sleeps in begin_op sleeps on someone who will wake it. */
  ghost predicate SleepersOk(s: State) {
    s.sleeping != {} ==> s.phase.Commit? || s.ops != []
  }

  /** The cache shows the logical disk, and only pinned blocks run ahead of it. */
  ghost predicate CacheOk(c: Config, s: State) {
    && s.pinned <= s.cache.Keys
    && (forall b :: b in s.cache ==> 0 <= b < |s.disk|)
    && (forall b :: b in s.cache && b !in s.pinned ==> s.cache[b] == s.disk[b])
    && (forall b :: c.g.Home(b) && b < |s.base| && b < |s.disk| ==> Read(s, b) == Logical(s)[b])
    && (forall b :: b in s.pinned ==> c.g.Home(b))
  }

  /** The contents of the listed blocks. */
  function Values(d: Disk, bs: seq<int>): (vs: seq<Block>)
    requires forall i :: 0 <= i < |bs| ==> 0 <= bs[i] < |d|
    ensures |vs| == |bs| && forall i :: 0 <= i < |vs| ==> vs[i] == d[bs[i]]
  {
    seq(|bs|, i requires 0 <= i < |bs| => d[bs[i]])
  }

  /** Between transactions, and while one is being built, the log is empty. */
  ghost predicate IdleOk(g: Geometry, disk: Disk, bs: seq<int>, pinned: set<int>, durable: Disk) {
    && DiskOk(g, disk) && ListOk(g, bs)
    && (forall b :: b in pinned <==> b in bs)
    && disk[g.start][0] == 0
    && SameHome(g, disk, durable)
  }

  /** k block writes into the commit of the blocks bs. */
  ghost predicate CommitOk(g: Geometry, disk: Disk, d0: Disk, bs: seq<int>, logical: Disk, durable: Disk, k: nat) {
    && ListOk(g, bs) && |logical| == g.total
    && TransactionOk(g, d0, bs, Values(logical, bs))
    && k <= 2 * |bs| + 1
    && disk == Committing(g, d0, bs, Values(logical, bs), k)
    && SameHome(g, Updated(g, d0, bs, Values(logical, bs)), logical)
    && (k <= |bs| ==> SameHome(g, d0, durable))
    && (k > |bs| ==> durable == logical)
  }

  /** The listed blocks from the m-th on. */
  function From(bs: seq<int>, m: nat): (r: set<int>) {
    set i | m <= i < |bs| :: bs[i]
  }

  /** How many of n logged blocks commit has unpinned after k writes. */
  function Unpinned(n: nat, k: nat): (m: nat)
    ensures m <= n
  {
    if k <= n + 1 then 0 else if k - n - 1 <= n then k - n - 1 else n
  }

  /** k block writes into the recovery from disk d0. */
  ghost predicate RecoveryOk(g: Geometry, disk: Disk, d0: Disk, durable: Disk, k: nat) {
    && DiskOk(g, d0) && HeaderOk(g, d0[g.start])
    && k <= |Listed(d0[g.start])|
    && disk == Recovering(g, d0, k)
    && SameHome(g, Recover(g, d0), durable)
  }

  ghost predicate DiskPhaseOk(c: Config, s: State)
    requires s.durable <= |s.hist|
  {
    match s.phase
    case Idle =>
      && IdleOk(c.g, s.disk, s.blocks, s.pinned, Durable(s))
      && (forall i :: s.durable <= i < |s.hist| ==> s.hist[i].b in s.blocks)
    case Commit(k) =>
      && CommitOk(c.g, s.disk, s.d0, s.blocks, Logical(s), Durable(s), k)
      && s.pinned == From(s.blocks, Unpinned(|s.blocks|, k))
      && (k > |s.blocks| ==> s.durable == |s.hist|)
    case Recovery(k) =>
      && RecoveryOk(c.g, s.disk, s.d0, Durable(s), k)
      && s.cache == map[] && s.pinned == {} && s.durable == |s.hist|
  }

  ghost predicate Inv(c: Config, s: State) {
    && HistoryOk(c, s) && WholeOps(s) && OpsOk(s) && PhaseOk(s) && SleepersOk(s)
    && (s.phase.Recovery? || CacheOk(c, s))
    && DiskPhaseOk(c, s)
  }

  // ---------------------------------------------------------------- recoverability

  lemma CommitRecovers(g: Geometry, disk: Disk, d0: Disk, bs: seq<int>, logical: Disk, durable: Disk, k: nat)
    requires CommitOk(g, disk, d0, bs, logical, durable, k)
    ensures DiskOk(g, disk) && HeaderOk(g, disk[g.start]) && SameHome(g, Recover(g, disk), durable)
  {
    CommitIsAtomic(g, d0, bs, Values(logical, bs), k, []);
  }

  /** In every phase, recovery from the present disk yields the durable updates. */
  lemma RecoversDurable(c: Config, s: State)
    requires HistoryOk(c, s) && s.durable <= |s.hist| && DiskPhaseOk(c, s)
    ensures HeaderOk(c.g, s.disk[c.g.start])
    ensures SameHome(c.g, Recover(c.g, s.disk), Durable(s))
  {
    match s.phase
    case Idle => assert Listed(s.disk[c.g.start]) == [];
    case Commit(k) => CommitRecovers(c.g, s.disk, s.d0, s.blocks, Logical(s), Durable(s), k);
    case Recovery(k) => RecoveryRestarts(c.g, s.d0, k);
  }

  // ---------------------------------------------------------------- steps

  lemma PhaseStays(c: Config, s: State, t: State)
    requires s.durable <= |s.hist| && DiskPhaseOk(c, s)
    requires t.disk == s.disk && t.base == s.base && t.hist == s.hist && t.durable == s.durable && t.d0 == s.d0
    requires t.blocks == s.blocks && t.pinned == s.pinned && t.phase == s.phase
    requires t.cache == s.cache || !s.phase.Recovery?
    ensures DiskPhaseOk(c, t)
  {
  }

  lemma OpsStay(c: Config, s: State, t: State)
    requires HistoryOk(c, s) && WholeOps(s) && OpsOk(s)
    requires t.disk == s.disk && t.base == s.base && t.hist == s.hist && t.durable == s.durable
    requires t.ops == s.ops && t.ended == s.ended && t.nextOp == s.nextOp
    ensures HistoryOk(c, t) && WholeOps(t) && OpsOk(t)
  {
  }

  lemma BeginKeeps(c: Config, s: State, p: nat)
    requires Inv(c, s) && Enabled(c, s, Begin(p))
    ensures Inv(c, Do(c, s, Begin(p)))
  {
    var t := Do(c, s, Begin(p));
    forall k | 0 <= k < |t.hist| ensures t.hist[k].op in t.ended || ActiveOp(t.ops, t.hist[k].op) {
      if s.hist[k].op !in s.ended {
        var i :| 0 <= i < |s.ops| && s.ops[i].id == s.hist[k].op;
        assert t.ops[i].id == t.hist[k].op;
      }
    }
  }

  /** A process goes to sleep in begin_op only when a commit is running or some
      operation is outstanding: an empty log always admits one. */
  lemma BlockKeeps(c: Config, s: State, p: nat)
    requires Inv(c, s) && Enabled(c, s, Block_(p))
    ensures Inv(c, Do(c, s, Block_(p)))
  {
    var t := s.(sleeping := s.sleeping + {p});
    OpsStay(c, s, t);
    PhaseStays(c, s, t);
    CacheStays(c, s, t);
  }

  lemma CacheStays(c: Config, s: State, t: State)
    requires CacheOk(c, s)
    requires t.disk == s.disk && t.base == s.base && t.hist == s.hist && t.cache == s.cache && t.pinned == s.pinned
    ensures CacheOk(c, t)
  {
  }

  lemma LoadKeeps(c: Config, s: State, b: int)
    requires Inv(c, s) && Enabled(c, s, Load(b))
    ensures Inv(c, Do(c, s, Load(b)))
  {
    if b !in s.cache {
      Recached(c, s, s.cache[b := s.disk[b]]);
    }
  }

  /** Recycling a buffer that is not pinned loses nothing. */
  lemma EvictKeeps(c: Config, s: State, b: int)
    requires Inv(c, s) && Enabled(c, s, Evict(b))
    ensures Inv(c, Do(c, s, Evict(b)))
  {
    Recached(c, s, s.cache - {b});
  }

  /** The unpinned part of the cache may be anything that agrees with the disk. */
  lemma Recached(c: Config, s: State, cache: map<int, Block>)
    requires Inv(c, s) && !s.phase.Recovery? && s.pinned <= cache.Keys
    requires forall b :: b in cache ==> 0 <= b < |s.disk| && cache[b] == if b in s.pinned then s.cache[b] else s.disk[b]
    ensures Inv(c, s.(cache := cache))
  {
    var t := s.(cache := cache);
    OpsStay(c, s, t);
    PhaseStays(c, s, t);
    RecachedOk(c, s, t);
  }

  lemma RecachedOk(c: Config, s: State, t: State)
    requires CacheOk(c, s) && t == s.(cache := t.cache) && s.pinned <= t.cache.Keys
    requires forall b :: b in t.cache ==> 0 <= b < |s.disk| && t.cache[b] == if b in s.pinned then s.cache[b] else s.disk[b]
    ensures CacheOk(c, t)
  {
    forall b | c.g.Home(b) && b < |t.base| && b < |t.disk| ensures Read(t, b) == Logical(t)[b] {
      assert Read(t, b) == Read(s, b);
    }
  }

  lemma WriteOps(c: Config, s: State, t: State, i: nat, b: int, v: Block)
    requires WholeOps(s) && OpsOk(s) && i < |s.ops| && t == DoWrite(c, s, i, b, v)
    ensures WholeOps(t) && OpsOk(t)
  {
    forall k | 0 <= k < |t.hist| ensures t.hist[k].op in t.ended || ActiveOp(t.ops, t.hist[k].op) {
      if k == |s.hist| {
        assert t.ops[i].id == t.hist[k].op;
      } else if s.hist[k].op !in s.ended {
        var j :| 0 <= j < |s.ops| && s.ops[j].id == s.hist[k].op;
        assert t.ops[j].id == t.hist[k].op;
      }
    }
    assert t.hist[..t.durable] == s.hist[..s.durable];
  }

  lemma WriteCache(c: Config, s: State, t: State, i: nat, b: int, v: Block)
    requires HistoryOk(c, s) && CacheOk(c, s) && s.phase.Idle? && s.durable <= |s.hist| && DiskPhaseOk(c, s)
    requires i < |s.ops| && c.g.Home(b) && |v| == WORDS && t == DoWrite(c, s, i, b, v)
    ensures CacheOk(c, t)
  {
    ReplayStep(s.base, s.hist, Update(s.ops[i].id, b, v));
  }

  /** A write in a transaction with room: the block is listed once and pinned,
      and reads see the new contents. */
  lemma WriteKeeps(c: Config, s: State, i: nat, b: int, v: Block)
    requires Inv(c, s) && Enabled(c, s, Write(i, b, v))
    ensures Inv(c, Do(c, s, Write(i, b, v)))
  {
    var t := Do(c, s, Write(i, b, v));
    hide WholeOps, OpsOk, CacheOk, HistoryOk, DiskPhaseOk;
    WriteOps(c, s, t, i, b, v);
    WriteCache(c, s, t, i, b, v);
    WritePhase(c, s, t, i, b, v);
  }

  lemma WritePhase(c: Config, s: State, t: State, i: nat, b: int, v: Block)
    requires HistoryOk(c, s) && s.phase.Idle? && s.durable <= |s.hist| && DiskPhaseOk(c, s) && !TooBig(c, s)
    requires i < |s.ops| && c.g.Home(b) && |v| == WORDS && t == DoWrite(c, s, i, b, v)
    ensures HistoryOk(c, t) && DiskPhaseOk(c, t)
  {
    hide SameHome, Replay;
    assert t.hist[..t.durable] == s.hist[..s.durable];
  }

  lemma EndOps(s: State, t: State, i: nat)
    requires WholeOps(s) && OpsOk(s) && i < |s.ops|
    requires t.ops == s.ops[..i] + s.ops[i + 1..] && t.ended == s.ended + {s.ops[i].id}
    requires t.hist == s.hist && t.durable == s.durable && t.nextOp == s.nextOp
    ensures WholeOps(t) && OpsOk(t)
  {
    forall j | 0 <= j < |t.ops| ensures t.ops[j] == s.ops[if j < i then j else j + 1] {
    }
    forall k | 0 <= k < |t.hist| ensures t.hist[k].op in t.ended || ActiveOp(t.ops, t.hist[k].op) {
      if s.hist[k].op !in t.ended {
        var j :| 0 <= j < |s.ops| && s.ops[j].id == s.hist[k].op;
        assert t.ops[if j < i then j else j - 1] == s.ops[j];
      }
    }
  }

  lemma ContentsWords(c: Config, s: State)
    requires HistoryOk(c, s) && ListOk(c.g, s.blocks)
    ensures forall i :: 0 <= i < |s.blocks| ==> |Values(Logical(s), s.blocks)[i]| == WORDS
  {
    ReplayWords(c.g, s.base, s.hist);
  }

  /** What the transaction would make of the disk is the logical disk. */
  lemma TransactionIsLogical(c: Config, s: State)
    requires Inv(c, s) && s.phase.Idle?
    ensures SameHome(c.g, Updated(c.g, s.disk, s.blocks, Values(Logical(s), s.blocks)), Logical(s))
  {
    forall b | 0 <= b < |s.disk| && c.g.Home(b)
      ensures Updated(c.g, s.disk, s.blocks, Values(Logical(s), s.blocks))[b] == Logical(s)[b]
    {
      UpdatedAt(c.g, s.disk, s.blocks, Values(Logical(s), s.blocks), b);
      if b in s.blocks {
        var i :| 0 <= i < |s.blocks| && s.blocks[i] == b;
        assert Values(Logical(s), s.blocks)[i] == Logical(s)[b];
      } else {
        ReplayUntouched(s.base, s.hist, s.durable, b);
      }
    }
  }

  lemma AllPinned(bs: seq<int>, pinned: set<int>)
    requires forall b :: b in pinned <==> b in bs
    ensures pinned == From(bs, 0)
  {
    forall b | b in pinned ensures b in From(bs, 0) {
      var i :| 0 <= i < |bs| && bs[i] == b;
    }
    forall b | b in From(bs, 0) ensures b in pinned {
      var i :| 0 <= i < |bs| && bs[i] == b;
    }
  }

  lemma EndPhase(c: Config, s: State, t: State, i: nat)
    requires Inv(c, s) && s.phase.Idle? && i < |s.ops| && t == DoEnd(s, i)
    ensures DiskPhaseOk(c, t)
  {
    if |t.ops| == 0 && s.blocks != [] {
      ContentsWords(c, s);
      TransactionIsLogical(c, s);
      AllPinned(s.blocks, s.pinned);
    }
  }

  lemma EndKeeps(c: Config, s: State, i: nat)
    requires Inv(c, s) && Enabled(c, s, End(i))
    ensures Inv(c, Do(c, s, End(i)))
  {
    var t := Do(c, s, End(i));
    EndOps(s, t, i);
    EndPhase(c, s, t, i);
    CacheStays(c, s, t);
  }

  /** A crash at any moment: everything volatile is gone, and what recovery has
      to restore is the durable history. */
  lemma CrashKeeps(c: Config, s: State)
    requires Inv(c, s)
    ensures Enabled(c, s, Crash) && Inv(c, Do(c, s, Crash))
  {
    var t := Do(c, s, Crash);
    RecoversDurable(c, s);
    CrashOps(c, s, t);
    CrashPhase(c, s, t);
  }

  lemma CrashOps(c: Config, s: State, t: State)
    requires HistoryOk(c, s) && WholeOps(s) && OpsOk(s)
    requires t.disk == s.disk && t.base == s.base && t.hist == s.hist[..s.durable] && t.durable == s.durable
    requires t.ops == [] && t.ended == s.ended && t.nextOp == s.nextOp
    ensures HistoryOk(c, t) && WholeOps(t) && OpsOk(t)
  {
  }

  lemma CrashPhase(c: Config, s: State, t: State)
    requires s.durable <= |s.hist| && DiskOk(c.g, s.disk) && HeaderOk(c.g, s.disk[c.g.start])
    requires SameHome(c.g, Recover(c.g, s.disk), Durable(s))
    requires t.disk == s.disk && t.base == s.base && t.hist == s.hist[..s.durable] && t.durable == s.durable
    requires t.phase == Recovery(0) && t.cache == map[] && t.pinned == {} && t.d0 == s.disk
    ensures DiskPhaseOk(c, t)
  {
    assert t.hist[..t.durable] == t.hist;
  }

  // ---------------------------------------------------------------- commit writes

  /** A block is written with contents v: the disk and the buffer both get v. */
  lemma Written(c: Config, s: State, t: State, b: int, v: Block)
    requires HistoryOk(c, s) && CacheOk(c, s) && 0 <= b < |s.disk| && |v| == WORDS
    requires t.disk == s.disk[b := v] && t.cache == s.cache[b := v]
    requires t.base == s.base && t.hist == s.hist && t.pinned <= s.pinned && s.pinned <= t.pinned + {b}
    requires c.g.Home(b) ==> v == Logical(s)[b]
    ensures HistoryOk(c, t) && CacheOk(c, t)
  {
    forall x | c.g.Home(x) && x < |t.base| && x < |t.disk| ensures Read(t, x) == Logical(t)[x] {
      assert Read(s, x) == Logical(s)[x];
    }
  }

  lemma OpsEnded(s: State, t: State)
    requires WholeOps(s) && OpsOk(s) && s.ops == []
    requires t.hist == s.hist && t.ops == [] && t.ended == s.ended && t.nextOp == s.nextOp
    requires t.durable == s.durable || t.durable == |s.hist|
    ensures WholeOps(t) && OpsOk(t)
  {
    forall k | 0 <= k < |s.hist| ensures s.hist[k].op in s.ended {
      assert !ActiveOp(s.ops, s.hist[k].op);
    }
  }

  // The writes of commit, on the disk alone.

  lemma NextLogBlock(g: Geometry, disk: Disk, d0: Disk, bs: seq<int>, logical: Disk, durable: Disk, k: nat)
    requires CommitOk(g, disk, d0, bs, logical, durable, k) && k < |bs|
    ensures |disk| == g.total
    ensures CommitOk(g, disk[g.start + 1 + k := logical[bs[k]]], d0, bs, logical, durable, k + 1)
  {
    CommittingLog(g, d0, bs, Values(logical, bs), k);
  }

  lemma CommitPoint(g: Geometry, disk: Disk, d0: Disk, bs: seq<int>, logical: Disk, durable: Disk, k: nat)
    requires CommitOk(g, disk, d0, bs, logical, durable, k) && k == |bs| > 0
    ensures |disk| == g.total && |disk[g.start]| == WORDS
    ensures CommitOk(g, disk[g.start := SetHeader(disk[g.start], bs)], d0, bs, logical, logical, k + 1)
  {
    CommittingHead(g, d0, bs, Values(logical, bs));
  }

  lemma NextHomeBlock(g: Geometry, disk: Disk, next: Disk, d0: Disk, bs: seq<int>, logical: Disk, durable: Disk, k: nat, j: nat)
    requires CommitOk(g, disk, d0, bs, logical, durable, k)
    requires j < |bs| && k == |bs| + 1 + j && |disk| == g.total
    requires next == disk[bs[j] := disk[g.start + 1 + j]]
    ensures disk[g.start + 1 + j] == logical[bs[j]]
    ensures CommitOk(g, next, d0, bs, logical, durable, k + 1)
  {
    hide TransactionOk, SameHome, Updated, Committing;
    CommittingInstall(g, d0, bs, Values(logical, bs), j);
  }

  lemma UnpinNext(bs: seq<int>, pinned: set<int>, next: set<int>, j: nat)
    requires j < |bs| && pinned == From(bs, j) && next == pinned - {bs[j]}
    requires forall i, k :: 0 <= i < k < |bs| ==> bs[i] != bs[k]
    ensures next == From(bs, j + 1)
  {
  }

  lemma LastWrite(g: Geometry, disk: Disk, d0: Disk, bs: seq<int>, logical: Disk, durable: Disk)
    requires CommitOk(g, disk, d0, bs, logical, durable, 2 * |bs| + 1) && |bs| > 0
    ensures |disk| == g.total && |disk[g.start]| == WORDS && durable == logical
    ensures IdleOk(g, disk[g.start := SetHeader(disk[g.start], [])], [], {}, durable)
  {
    CommittingClear(g, d0, bs, Values(logical, bs));
  }

  lemma WritesLogBlock(c: Config, s: State, t: State, k: nat, a: int, v: Block)
    requires HistoryOk(c, s) && CacheOk(c, s) && CanWrite(c, s) && s.phase == Commit(k) && k < |s.blocks| && t == WriteLogBlock(c, s, k)
    requires a == c.g.start + 1 + k && v == Logical(s)[s.blocks[k]]
    ensures 0 <= a < |s.disk| && t.disk == s.disk[a := v] && t.cache == s.cache[a := v] && HistoryOk(c, t) && CacheOk(c, t)
    ensures t == s.(disk := t.disk, cache := t.cache, phase := Commit(k + 1))
  {
    assert Read(s, s.blocks[k]) == v;
    ReplayWords(c.g, s.base, s.hist);
    Written(c, s, t, a, v);
  }

  lemma HasLogBlock(c: Config, s: State, k: nat)
    requires HistoryOk(c, s) && WholeOps(s) && CanWrite(c, s) && s.phase == Commit(k) && k < |s.blocks|
    ensures s.durable <= |s.hist| && 0 <= s.blocks[k] < |s.base| && c.g.Ok() && |s.disk| == c.g.total && |s.blocks| < c.g.size
  {
    assert c.g.Home(s.blocks[k]);
  }

  lemma LogBlockKeeps(c: Config, s: State, t: State, k: nat)
    requires Inv(c, s) && s.phase == Commit(k) && k < |s.blocks| && CanWrite(c, s) && t == WriteLogBlock(c, s, k)
    ensures Inv(c, t)
  {
    hide WholeOps, OpsOk, CacheOk, HistoryOk, CommitOk, Replay, WriteLogBlock, CanWrite;
    HasLogBlock(c, s, k);
    WritesLogBlock(c, s, t, k, c.g.start + 1 + k, Logical(s)[s.blocks[k]]);
    NextLogBlock(c.g, s.disk, s.d0, s.blocks, Logical(s), Durable(s), k);
    CommitPhase(c, s, t, k + 1, 0);
    OpsEnded(s, t);
  }

  lemma WritesHeader(c: Config, s: State, t: State)
    requires HistoryOk(c, s) && CacheOk(c, s) && CanWrite(c, s) && s.phase.Commit? && t == WriteHeader(c, s)
    ensures HistoryOk(c, t) && CacheOk(c, t) && t.durable == |t.hist|
    ensures t == s.(disk := t.disk, cache := t.cache, phase := Commit(|s.blocks| + 1), durable := |s.hist|)
    ensures |s.disk| == c.g.total && t.disk == s.disk[c.g.start := SetHeader(s.disk[c.g.start], s.blocks)]
  {
    hide Replay;
    Written(c, s, t, c.g.start, SetHeader(s.disk[c.g.start], s.blocks));
  }

  lemma AllDurable(s: State)
    requires s.durable == |s.hist|
    ensures Durable(s) == Logical(s)
  {
    assert s.hist[..s.durable] == s.hist;
  }

  /** The header write makes the whole history durable at once. */
  lemma CommitPointKeeps(c: Config, s: State, t: State)
    requires Inv(c, s) && s.phase == Commit(|s.blocks|) && CanWrite(c, s) && t == WriteHeader(c, s)
    ensures Inv(c, t) && t.durable == |t.hist|
  {
    hide WholeOps, OpsOk, CacheOk, HistoryOk, CommitOk, Replay, WriteHeader, CanWrite, SetHeader, From;
    DurableSoFar(s);
    WritesHeader(c, s, t);
    CommitPoint(c.g, s.disk, s.d0, s.blocks, Logical(s), Durable(s), |s.blocks|);
    OpsEnded(s, t);
    AllDurable(t);
  }

  lemma DurableSoFar(s: State)
    requires WholeOps(s)
    ensures s.durable <= |s.hist|
  {
  }

  lemma HomeBlockWritten(c: Config, s: State, t: State, j: nat)
    requires HistoryOk(c, s) && CacheOk(c, s) && j < |s.blocks| < c.g.size && c.g.Home(s.blocks[j])
    requires s.disk[c.g.start + 1 + j] == Logical(s)[s.blocks[j]] && t == InstallBlock(c, s, j)
    ensures HistoryOk(c, t) && CacheOk(c, t)
  {
    InstallsLogBlock(c, s, t, j);
    ReplayWords(c.g, s.base, s.hist);
    Written(c, s, t, s.blocks[j], Logical(s)[s.blocks[j]]);
  }

  lemma InstallsLogBlock(c: Config, s: State, t: State, j: nat)
    requires CacheOk(c, s) && c.g.Ok() && |s.disk| == c.g.total
    requires j < |s.blocks| < c.g.size && c.g.Home(s.blocks[j]) && t == InstallBlock(c, s, j)
    ensures t.base == s.base && t.hist == s.hist && t.durable == s.durable && t.d0 == s.d0 && t.blocks == s.blocks
    ensures t.pinned == s.pinned - {s.blocks[j]}
    ensures t.disk == s.disk[s.blocks[j] := s.disk[c.g.start + 1 + j]]
    ensures t.cache == s.cache[s.blocks[j] := s.disk[c.g.start + 1 + j]]
  {
    assert c.g.start + 1 + j !in s.pinned;
  }

  lemma CommitPhase(c: Config, s: State, t: State, k: nat, m: nat)
    requires t.base == s.base && t.hist == s.hist && t.durable == s.durable <= |s.hist| && t.d0 == s.d0 && t.blocks == s.blocks
    requires k > |s.blocks| ==> s.durable == |s.hist|
    requires CommitOk(c.g, t.disk, s.d0, s.blocks, Logical(s), Durable(s), k)
    requires m == Unpinned(|s.blocks|, k) && t.pinned == From(s.blocks, m) && t.phase == Commit(k)
    ensures DiskPhaseOk(c, t)
  {
  }

  lemma HomeBlockPhase(c: Config, s: State, t: State, k: nat, j: nat)
    requires s.durable == |s.hist| && CommitOk(c.g, s.disk, s.d0, s.blocks, Logical(s), Durable(s), k)
    requires s.pinned == From(s.blocks, j) && |s.disk| == c.g.total
    requires j < |s.blocks| && k == |s.blocks| + 1 + j && t.disk == s.disk[s.blocks[j] := s.disk[c.g.start + 1 + j]]
    requires t.base == s.base && t.hist == s.hist && t.durable == s.durable && t.d0 == s.d0 && t.blocks == s.blocks
    requires t.pinned == s.pinned - {s.blocks[j]} && t.phase == Commit(k + 1)
    ensures DiskPhaseOk(c, t) && |s.base| == c.g.total && s.disk[c.g.start + 1 + j] == Logical(s)[s.blocks[j]]
  {
    hide CommitOk, From, DiskPhaseOk, Replay;
    NextHomeBlock(c.g, s.disk, t.disk, s.d0, s.blocks, Logical(s), Durable(s), k, j);
    DistinctBlocks(c.g, s.disk, s.d0, s.blocks, Logical(s), Durable(s), k);
    UnpinNext(s.blocks, s.pinned, t.pinned, j);
    CommitPhase(c, s, t, k + 1, j + 1);
  }

  lemma DistinctBlocks(g: Geometry, disk: Disk, d0: Disk, bs: seq<int>, logical: Disk, durable: Disk, k: nat)
    requires CommitOk(g, disk, d0, bs, logical, durable, k)
    ensures |logical| == g.total && forall i, j :: 0 <= i < j < |bs| ==> bs[i] != bs[j]
  {
  }

  lemma HomeBlockInstalled(c: Config, s: State, t: State, k: nat, j: nat)
    requires s.durable <= |s.hist| && s.phase == Commit(k) && DiskPhaseOk(c, s) && |s.disk| == c.g.total
    requires j < |s.blocks| < c.g.size && k == |s.blocks| + 1 + j && c.g.Ok() && c.g.Home(s.blocks[j])
    requires t.disk == s.disk[s.blocks[j] := s.disk[c.g.start + 1 + j]]
    requires t.base == s.base && t.hist == s.hist && t.durable == s.durable && t.d0 == s.d0 && t.blocks == s.blocks
    requires t.pinned == s.pinned - {s.blocks[j]} && t.phase == Commit(k + 1)
    ensures DiskPhaseOk(c, t) && |s.base| == c.g.total && s.disk[c.g.start + 1 + j] == Logical(s)[s.blocks[j]]
  {
    HomeBlockPhase(c, s, t, k, j);
  }

  lemma HomeBlockKeeps(c: Config, s: State, t: State, k: nat, j: nat)
    requires Inv(c, s) && s.phase == Commit(k) && CanWrite(c, s)
    requires j < |s.blocks| && k == |s.blocks| + 1 + j && t == InstallBlock(c, s, j)
    ensures Inv(c, t)
  {
    assert c.g.Home(s.blocks[j]);
    InstallsLogBlock(c, s, t, j);
    HomeBlockInstalled(c, s, t, k, j);
    HomeBlockWritten(c, s, t, j);
    OpsEnded(s, t);
  }

  lemma LastWriteKeeps(c: Config, s: State, t: State)
    requires Inv(c, s) && s.phase == Commit(2 * |s.blocks| + 1) && CanWrite(c, s) && t == ClearHeader(c, s)
    ensures Inv(c, t)
  {
    LastWrite(c.g, s.disk, s.d0, s.blocks, Logical(s), Durable(s));
    Written(c, s, t, c.g.start, SetHeader(s.disk[c.g.start], []));
    OpsEnded(s, t);
  }

  lemma CommitWriteKeeps(c: Config, s: State, t: State)
    requires Inv(c, s) && s.phase.Commit? && CanWrite(c, s) && t == DoCommitWrite(c, s)
    ensures Inv(c, t)
  {
    var k, n := s.phase.k, |s.blocks|;
    if k < n {
      LogBlockKeeps(c, s, t, k);
    } else if k == n {
      CommitPointKeeps(c, s, t);
    } else if k <= 2 * n {
      HomeBlockKeeps(c, s, t, k, k - n - 1);
    } else {
      LastWriteKeeps(c, s, t);
    }
  }

  /** One write of recovery, on the disk alone. */
  lemma RecoveryNext(g: Geometry, d0: Disk, k: nat)
    requires DiskOk(g, d0) && HeaderOk(g, d0[g.start]) && k <= |Listed(d0[g.start])|
    ensures var bs, e := Listed(d0[g.start]), Recovering(g, d0, k);
            && |e| == g.total && e[g.start] == d0[g.start]
            && (k < |bs| ==> Recovering(g, d0, k + 1) == e[bs[k] := e[g.start + 1 + k]])
            && (k == |bs| ==> Recover(g, d0) == e[g.start := SetHeader(e[g.start], [])])
  {
    var bs := Listed(d0[g.start]);
    InstalledElsewhere(g, d0, bs, k, g.start);
    if k < |bs| {
      InstalledElsewhere(g, d0, bs, k, g.start + 1 + k);
    }
  }

  lemma RecoveryStepKeeps(c: Config, s: State, t: State, k: nat)
    requires Inv(c, s) && s.phase == Recovery(k) && CanWrite(c, s) && t == DoRecoveryWrite(c, s)
    requires k < |Listed(s.d0[c.g.start])|
    ensures Inv(c, t)
  {
    hide WholeOps, OpsOk, SameHome, Replay, Recovering, Recover;
    RecoveryNext(c.g, s.d0, k);
    RecoveryRestarts(c.g, s.d0, k + 1);
    OpsEnded(s, t);
  }

  /** Recovery is over: the disk is the durable disk and the log is empty. */
  lemma RecoveryDoneKeeps(c: Config, s: State, t: State, k: nat)
    requires Inv(c, s) && s.phase == Recovery(k) && CanWrite(c, s) && t == DoRecoveryWrite(c, s)
    requires k == |Listed(s.d0[c.g.start])|
    ensures Inv(c, t) && SameHome(c.g, t.disk, Durable(s))
  {
    RecoveryNext(c.g, s.d0, k);
    RecoveryRestarts(c.g, s.d0, k + 1);
    assert Recovering(c.g, s.d0, k + 1) == Recover(c.g, s.d0);
    OpsEnded(s, t);
    assert s.hist[..s.durable] == s.hist;
  }

  /** Commit and recovery can always make their next write. */
  lemma DiskWriteEnabled(c: Config, s: State)
    requires Inv(c, s) && !s.phase.Idle?
    ensures Enabled(c, s, DiskWrite)
  {
    RecoversDurable(c, s);
    if s.phase.Recovery? {
      RecoveryNext(c.g, s.d0, s.phase.k);
    }
  }

  lemma DiskWriteKeeps(c: Config, s: State)
    requires Inv(c, s) && Enabled(c, s, DiskWrite)
    ensures Inv(c, Do(c, s, DiskWrite))
  {
    if s.phase.Commit? {
      CommitWriteKeeps(c, s, DoCommitWrite(c, s));
    } else {
      var k, t := s.phase.k, DoRecoveryWrite(c, s);
      RecoveryNext(c.g, s.d0, k);
      if k < |Listed(s.d0[c.g.start])| {
        RecoveryStepKeeps(c, s, t, k);
      } else {
        RecoveryDoneKeeps(c, s, t, k);
      }
    }
  }

  /** Every step keeps the invariant. */
  lemma StepKeeps(c: Config, s: State, e: Event)
    requires Inv(c, s) && Enabled(c, s, e)
    ensures Inv(c, Do(c, s, e))
  {
    match e
    case Begin(p) => BeginKeeps(c, s, p);
    case Block_(p) => BlockKeeps(c, s, p);
    case Write(i, b, v) => WriteKeeps(c, s, i, b, v);
    case Load(b) => LoadKeeps(c, s, b);
    case Evict(b) => EvictKeeps(c, s, b);
    case End(i) => EndKeeps(c, s, i);
    case DiskWrite => DiskWriteKeeps(c, s);
    case Crash => CrashKeeps(c, s);
  }
}
