/** The log under concurrency and crashes: any number of file-system operations
    share one transaction, blocks are cached and pinned, commit and recovery
    write one block at a time, and a crash may come between any two writes. */
module GroupCommit {
  import opened LogDisk

  /** A write of contents v to home block b by operation op. */
  datatype Update = Update(op: nat, b: int, v: Block)

  /** An operation between begin_op and end_op, and how many blocks it added to
      the transaction. */
  datatype Op = Op(id: nat, added: nat)

  /** Commit(k): end_op has started the commit and made k block writes.
      Recovery(k): the machine has rebooted and recovery made k block writes. */
  datatype Phase = Idle | Commit(k: nat) | Recovery(k: nat)

  /** The log geometry and the number of blocks an operation may add. */
  datatype Config = Config(g: Geometry, budget: nat)

  datatype State = State(
    disk: Disk,
    cache: map<int, Block>,
    pinned: set<int>,
    blocks: seq<int>,
    phase: Phase,
    ops: seq<Op>,
    sleeping: set<nat>,
    nextOp: nat,
    // history, for the specification only
    base: Disk,
    hist: seq<Update>,
    durable: nat,
    ended: set<nat>,
    d0: Disk)

  function Read(s: State, b: int): Block
    requires 0 <= b < |s.disk|
  {
    if b in s.cache then s.cache[b] else s.disk[b]
  }

  /** The effect of a series of updates on a disk. */
  function Replay(d: Disk, us: seq<Update>): (r: Disk)
    ensures |r| == |d|
    decreases |us|
  {
    if us == [] then d
    else
      var u := us[|us| - 1];
      var e := Replay(d, us[..|us| - 1]);
      if 0 <= u.b < |e| then e[u.b := u.v] else e
  }

  // ---------------------------------------------------------------- steps

  /** begin_op lets the operation in. */
  predicate Admits(c: Config, s: State) {
    s.phase.Idle? && |s.blocks| + (|s.ops| + 1) * MAXOPBLOCKS <= LOGSIZE
  }

  datatype Event =
    | Begin(p: nat)
    | Block_(p: nat)
    | Write(i: nat, b: int, v: Block)
    | Load(b: int)
    | Evict(b: int)
    | End(i: nat)
    | DiskWrite
    | Crash

  /** log_write would panic. */
  predicate TooBig(c: Config, s: State) {
    |s.blocks| >= LOGSIZE || |s.blocks| >= c.g.size - 1
  }

  /** The operation may write b within its budget: the contract of the caller. */
  predicate WithinBudget(c: Config, s: State, i: nat, b: int) {
    i < |s.ops| && (b in s.blocks || s.ops[i].added < c.budget)
  }

  predicate Enabled(c: Config, s: State, e: Event) {
    match e
    case Begin(p) => p !in s.sleeping && Admits(c, s)
    case Block_(p) => p !in s.sleeping && !s.phase.Recovery? && !Admits(c, s)
    case Write(i, b, v) =>
      WithinBudget(c, s, i, b) && c.g.Home(b) && |v| == WORDS && s.phase.Idle? && !TooBig(c, s)
    case Load(b) => 0 <= b < |s.disk| && !s.phase.Recovery?
    case Evict(b) => b in s.cache && b !in s.pinned && !s.phase.Recovery?
    case End(i) => i < |s.ops| && s.phase.Idle?
    case DiskWrite => !s.phase.Idle? && CanWrite(c, s)
    case Crash => |s.hist| >= s.durable
  }

  predicate CanWrite(c: Config, s: State) {
    && c.g.Ok() && |s.disk| == c.g.total && |s.disk[c.g.start]| == WORDS
    && 0 <= s.disk[c.g.start][0] <= LOGSIZE
    && (s.phase.Commit? ==>
          && |s.blocks| < c.g.size && |s.blocks| <= LOGSIZE && s.phase.k <= 2 * |s.blocks| + 1
          && forall i :: 0 <= i < |s.blocks| ==> c.g.Home(s.blocks[i]))
    && (s.phase.Recovery? ==>
          && |Listed(s.disk[c.g.start])| < c.g.size && s.phase.k <= |Listed(s.disk[c.g.start])|
          && forall i :: 0 <= i < |Listed(s.disk[c.g.start])| ==> c.g.Home(Listed(s.disk[c.g.start])[i]))
  }

  function Do(c: Config, s: State, e: Event): State
    requires Enabled(c, s, e)
  {
    match e
    case Begin(p) => s.(ops := s.ops + [Op(s.nextOp, 0)], nextOp := s.nextOp + 1)
    case Block_(p) => s.(sleeping := s.sleeping + {p})
    case Write(i, b, v) => DoWrite(c, s, i, b, v)
    case Load(b) => if b in s.cache then s else s.(cache := s.cache[b := s.disk[b]])
    case Evict(b) => s.(cache := s.cache - {b})
    case End(i) => DoEnd(s, i)
    case DiskWrite => if s.phase.Commit? then DoCommitWrite(c, s) else DoRecoveryWrite(c, s)
    case Crash =>
      s.(cache := map[], pinned := {}, blocks := [], phase := Recovery(0), ops := [], sleeping := {},
         hist := s.hist[..s.durable], d0 := s.disk)
  }

  /** bread, a change of the contents, log_write. */
  function DoWrite(c: Config, s: State, i: nat, b: int, v: Block): State
    requires i < |s.ops|
  {
    var t := s.(cache := s.cache[b := v], hist := s.hist + [Update(s.ops[i].id, b, v)]);
    if b in s.blocks then t
    else t.(blocks := s.blocks + [b], pinned := s.pinned + {b}, ops := s.ops[i := s.ops[i].(added := s.ops[i].added + 1)])
  }

  /** end_op: the last operation starts the commit, any other wakes begin_op. */
  function DoEnd(s: State, i: nat): State
    requires i < |s.ops|
  {
    var t := s.(ops := s.ops[..i] + s.ops[i + 1..], ended := s.ended + {s.ops[i].id});
    if |t.ops| == 0 then
      if s.blocks == [] then t.(sleeping := {}) else t.(phase := Commit(0), d0 := s.disk)
    else t.(sleeping := {})
  }

  /** One block write of commit: log blocks, header, home blocks, header. */
  function DoCommitWrite(c: Config, s: State): State
    requires s.phase.Commit? && CanWrite(c, s)
  {
    var k, n := s.phase.k, |s.blocks|;
    if k < n then WriteLogBlock(c, s, k)
    else if k == n then WriteHeader(c, s)
    else if k <= 2 * n then InstallBlock(c, s, k - n - 1)
    else ClearHeader(c, s)
  }

  function WriteLogBlock(c: Config, s: State, k: nat): State
    requires k < |s.blocks| < c.g.size && c.g.Ok() && |s.disk| == c.g.total && c.g.Home(s.blocks[k])
  {
    var v := Read(s, s.blocks[k]);
    s.(disk := s.disk[c.g.start + 1 + k := v], cache := s.cache[c.g.start + 1 + k := v], phase := Commit(k + 1))
  }

  /** The commit point. */
  function WriteHeader(c: Config, s: State): State
    requires c.g.Ok() && |s.disk| == c.g.total && |s.disk[c.g.start]| == WORDS && |s.blocks| <= LOGSIZE
  {
    var h := SetHeader(s.disk[c.g.start], s.blocks);
    s.(disk := s.disk[c.g.start := h], cache := s.cache[c.g.start := h], phase := Commit(|s.blocks| + 1), durable := |s.hist|)
  }

  function InstallBlock(c: Config, s: State, j: nat): State
    requires j < |s.blocks| < c.g.size && c.g.Ok() && |s.disk| == c.g.total && c.g.Home(s.blocks[j])
  {
    var b, v := s.blocks[j], Read(s, c.g.start + 1 + j);
    s.(disk := s.disk[b := v], cache := s.cache[b := v], pinned := s.pinned - {b}, phase := Commit(|s.blocks| + 2 + j))
  }

  function ClearHeader(c: Config, s: State): State
    requires c.g.Ok() && |s.disk| == c.g.total && |s.disk[c.g.start]| == WORDS
  {
    var h := SetHeader(s.disk[c.g.start], []);
    s.(disk := s.disk[c.g.start := h], cache := s.cache[c.g.start := h], blocks := [], phase := Idle, sleeping := {})
  }

  /** One block write of recovery, which runs before anything is cached. */
  function DoRecoveryWrite(c: Config, s: State): State
    requires s.phase.Recovery? && CanWrite(c, s)
  {
    var k, start := s.phase.k, c.g.start;
    var bs := Listed(s.disk[start]);
    if k < |bs| then
      s.(disk := s.disk[bs[k] := s.disk[start + 1 + k]], phase := Recovery(k + 1))
    else
      s.(disk := s.disk[start := SetHeader(s.disk[start], [])], phase := Idle)
  }
}
