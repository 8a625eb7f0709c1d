/** Theorems about every run of the shared log, from boot on any recoverable
    disk, with any interleaving of operations, commits and crashes. */
module GroupCommitRuns {
  import opened LogDisk
  import opened GroupCommit
  import opened GroupCommitProof

  /** A run boots on a disk and takes steps. */
  datatype Run = Boot(d: Disk) | Then(before: Run, e: Event)

  function Booted(g: Geometry, d: Disk): (s: State)
    requires g.Ok() && |d| == g.total && |d[g.start]| == WORDS && 0 <= d[g.start][0] <= LOGSIZE
    requires |Listed(d[g.start])| < g.size && forall i :: 0 <= i < |Listed(d[g.start])| ==> g.Home(Listed(d[g.start])[i])
  {
    State(d, map[], {}, [], Recovery(0), [], {}, 0, Recover(g, d), [], 0, {}, d)
  }

  /** The run can happen, and ends in state s. */
  ghost predicate Reaches(c: Config, r: Run, s: State)
    decreases r
  {
    match r
    case Boot(d) => DiskOk(c.g, d) && HeaderOk(c.g, d[c.g.start]) && s == Booted(c.g, d)
    case Then(before, e) => exists s0 :: Reaches(c, before, s0) && Enabled(c, s0, e) && s == Do(c, s0, e)
  }

  ghost predicate Reachable(c: Config, s: State) {
    exists r :: Reaches(c, r, s)
  }

  lemma BootKeeps(c: Config, d: Disk)
    requires DiskOk(c.g, d) && HeaderOk(c.g, d[c.g.start])
    ensures Inv(c, Booted(c.g, d))
  {
    var s := Booted(c.g, d);
    RecoveryRestarts(c.g, d, |Listed(d[c.g.start])| + 1);
    assert Recovering(c.g, d, 0) == d;
    assert s.hist[..s.durable] == [];
  }

  lemma {:induction false} RunKeeps(c: Config, r: Run, s: State)
    requires Reaches(c, r, s)
    ensures Inv(c, s)
    decreases r
  {
    match r
    case Boot(d) => BootKeeps(c, d);
    case Then(before, e) =>
      var s0 :| Reaches(c, before, s0) && Enabled(c, s0, e) && s == Do(c, s0, e);
      RunKeeps(c, before, s0);
      StepKeeps(c, s0, e);
  }

  /** Group commit.  In every reachable state, a crash followed by a recovery
      that itself crashes any number of times leaves the home blocks with the
      effect of the first `durable` updates: updates of finished operations
      only, with no other update of the same operation left out. */
  lemma CrashLeavesWholeOperations(c: Config, s: State, crashes: seq<nat>)
    requires Reachable(c, s)
    ensures DiskOk(c.g, s.disk) && HeaderOk(c.g, s.disk[c.g.start]) && s.durable <= |s.hist|
    ensures var f := CrashingRecoveries(c.g, s.disk, crashes);
            && DiskOk(c.g, f) && HeaderOk(c.g, f[c.g.start])
            && SameHome(c.g, Recover(c.g, f), Replay(s.base, s.hist[..s.durable]))
    ensures forall i :: 0 <= i < s.durable ==> s.hist[i].op in s.ended
    ensures forall i, j :: 0 <= i < s.durable <= j < |s.hist| ==> s.hist[i].op != s.hist[j].op
  {
    var r :| Reaches(c, r, s);
    RunKeeps(c, r, s);
    RecoversDurable(c, s);
    CrashingRecoveriesHarmless(c.g, s.disk, crashes);
  }

  /** Once no operation is outstanding and no commit or recovery is running,
      every update survives a crash. */
  lemma QuietIsDurable(c: Config, s: State)
    requires Reachable(c, s) && s.phase.Idle? && s.ops == []
    ensures s.durable == |s.hist| && s.blocks == [] && forall b :: b !in s.pinned
  {
    var r :| Reaches(c, r, s);
    RunKeeps(c, r, s);
    NothingPending(s.hist, s.durable, s.blocks);
  }

  lemma NothingPending(hist: seq<Update>, durable: nat, blocks: seq<int>)
    requires durable <= |hist|
    requires forall i :: durable <= i < |hist| ==> hist[i].b in blocks
    ensures blocks == [] ==> durable == |hist|
  {
    if durable < |hist| {
      assert hist[durable].b in blocks;
    }
  }

  /** The last update of block b, or none. */
  ghost predicate LatestWrite(hist: seq<Update>, b: int, i: nat) {
    i < |hist| && hist[i].b == b && forall j :: i < j < |hist| ==> hist[j].b != b
  }

  lemma {:induction false} ReplayLatest(d: Disk, us: seq<Update>, b: int, i: nat)
    requires LatestWrite(us, b, i) && 0 <= b < |d|
    ensures Replay(d, us)[b] == us[i].v
  {
    ReplayUntouched(d, us, i + 1, b);
    assert us[..i + 1][..i] == us[..i];
  }

  /** The cache over the log is one flat disk: outside recovery, bread of a home
      block returns the latest update, or the boot contents if there is none;
      a cached block is unlike the disk only if it is pinned. */
  lemma ReadReturnsLatestWrite(c: Config, s: State, b: int)
    requires Reachable(c, s) && !s.phase.Recovery? && c.g.Home(b)
    ensures b < |s.disk| && b < |s.base|
    ensures forall i: nat :: LatestWrite(s.hist, b, i) ==> Read(s, b) == s.hist[i].v
    ensures (forall i :: 0 <= i < |s.hist| ==> s.hist[i].b != b) ==> Read(s, b) == s.base[b]
    ensures b in s.cache && b !in s.pinned ==> s.cache[b] == s.disk[b]
  {
    var r :| Reaches(c, r, s);
    RunKeeps(c, r, s);
    ReplayIsLatest(s.base, s.hist, b);
  }

  lemma ReplayIsLatest(d: Disk, us: seq<Update>, b: int)
    requires 0 <= b < |d|
    ensures forall i: nat :: LatestWrite(us, b, i) ==> Replay(d, us)[b] == us[i].v
    ensures (forall i :: 0 <= i < |us| ==> us[i].b != b) ==> Replay(d, us)[b] == d[b]
  {
    forall i: nat | LatestWrite(us, b, i) ensures Replay(d, us)[b] == us[i].v {
      ReplayLatest(d, us, b, i);
    }
    if forall i :: 0 <= i < |us| ==> us[i].b != b {
      ReplayUntouched(d, us, 0, b);
    }
  }

  /** While a transaction is being built, the pinned blocks are the logged ones,
      each logged once. */
  lemma LoggedBlocksArePinned(c: Config, s: State)
    requires Reachable(c, s) && s.phase.Idle?
    ensures forall b :: b in s.pinned <==> b in s.blocks
    ensures forall i, j :: 0 <= i < j < |s.blocks| ==> s.blocks[i] != s.blocks[j]
  {
    var r :| Reaches(c, r, s);
    RunKeeps(c, r, s);
  }

  // ---------------------------------------------------------------- sleepers

  /** The steps that end outstanding operations and carry the commit on. */
  predicate Draining(e: Event) {
    e.End? || e.DiskWrite?
  }

  /** Whoever sleeps in begin_op is woken once the outstanding operations end:
      from every reachable state, ending them and letting the disk writes of the
      commit happen leads to a state without sleepers. */
  lemma {:induction false} SleepersAreWoken(c: Config, s: State) returns (es: seq<Event>, t: State)
    requires Inv(c, s) && !s.phase.Recovery?
    ensures forall i :: 0 <= i < |es| ==> Draining(es[i])
    ensures Leads(c, s, es, t) && t.sleeping == {}
    decreases |s.ops|, WritesLeft(s)
  {
    hide Inv, Enabled, Do;
    if s.sleeping == {} {
      es, t := [], s;
    } else {
      var e := if s.phase.Commit? then DiskWrite else End(0);
      DrainStep(c, s, e);
      var u := Do(c, s, e);
      var rest;
      rest, t := SleepersAreWoken(c, u);
      es := [e] + rest;
      assert es[1..] == rest;
    }
  }

  function WritesLeft(s: State): nat {
    if s.phase.Commit? && s.phase.k <= 2 * |s.blocks| + 1 then 2 * |s.blocks| + 2 - s.phase.k else 0
  }

  lemma DrainStep(c: Config, s: State, e: Event)
    requires Inv(c, s) && !s.phase.Recovery? && s.sleeping != {} && e == if s.phase.Commit? then DiskWrite else End(0)
    ensures Enabled(c, s, e) && Inv(c, Do(c, s, e)) && !Do(c, s, e).phase.Recovery?
    ensures var t := Do(c, s, e); |t.ops| < |s.ops| || (t.ops == s.ops && WritesLeft(t) < WritesLeft(s))
  {
    if s.phase.Commit? {
      DiskWriteEnabled(c, s);
    }
    assert s.phase.Idle? ==> s.ops != [];
    StepKeeps(c, s, e);
    hide Inv, SetHeader;
  }

  ghost predicate Leads(c: Config, s: State, es: seq<Event>, t: State)
    decreases |es|
  {
    if es == [] then s == t else Enabled(c, s, es[0]) && Leads(c, Do(c, s, es[0]), es[1..], t)
  }

  // ---------------------------------------------------------------- admission

  /** The blocks the operations may still add. */
  function Unused(budget: nat, ops: seq<Op>): (n: int)
    decreases |ops|
  {
    if ops == [] then 0 else Unused(budget, ops[..|ops| - 1]) + budget - ops[|ops| - 1].added
  }

  ghost predicate WithinBudgets(budget: nat, ops: seq<Op>) {
    forall i :: 0 <= i < |ops| ==> ops[i].added <= budget
  }

  lemma {:induction false} UnusedBounds(budget: nat, ops: seq<Op>)
    requires WithinBudgets(budget, ops)
    ensures 0 <= Unused(budget, ops) <= |ops| * budget
    decreases |ops|
  {
    if ops != [] {
      UnusedBounds(budget, ops[..|ops| - 1]);
    }
  }

  lemma {:induction false} UnusedChange(budget: nat, ops: seq<Op>, i: nat, op: Op)
    requires i < |ops|
    ensures Unused(budget, ops[i := op]) == Unused(budget, ops) + ops[i].added - op.added
    decreases |ops|
  {
    var n := |ops| - 1;
    if i < n {
      UnusedChange(budget, ops[..n], i, op);
      assert ops[i := op][..n] == ops[..n][i := op];
    } else {
      assert ops[i := op][..n] == ops[..n];
    }
  }

  lemma {:induction false} UnusedRemove(budget: nat, ops: seq<Op>, i: nat)
    requires i < |ops|
    ensures Unused(budget, ops[..i] + ops[i + 1..]) == Unused(budget, ops) - (budget - ops[i].added)
    decreases |ops|
  {
    var n, rest := |ops| - 1, ops[..i] + ops[i + 1..];
    if i < n {
      UnusedRemove(budget, ops[..n], i);
      assert rest[..n - 1] == ops[..n][..i] + ops[..n][i + 1..];
    } else {
      assert rest == ops[..n];
    }
  }

  /** What begin_op's test protects: the blocks logged so far and those the
      outstanding operations may still add. */
  ghost predicate SpaceOk(c: Config, s: State) {
    && WithinBudgets(c.budget, s.ops)
    && (s.ops != [] ==> |s.blocks| + Unused(c.budget, s.ops) <= MAXOPBLOCKS + 2 * c.budget)
  }

  lemma BeginSpace(c: Config, s: State, p: nat)
    requires PhaseOk(s) && SpaceOk(c, s) && Enabled(c, s, Begin(p)) && c.budget <= MAXOPBLOCKS
    ensures SpaceOk(c, Do(c, s, Begin(p)))
  {
    var t := Do(c, s, Begin(p));
    assert t.ops[..|s.ops|] == s.ops;
    UnusedBounds(c.budget, s.ops);
    if |s.ops| == 0 {
    } else if |s.ops| == 1 {
    } else {
      assert |s.ops| == 2 && |s.blocks| == 0;
    }
  }

  lemma StepSpace(c: Config, s: State, e: Event)
    requires PhaseOk(s) && SpaceOk(c, s) && Enabled(c, s, e) && c.budget <= MAXOPBLOCKS
    ensures SpaceOk(c, Do(c, s, e))
  {
    match e
    case Begin(p) => BeginSpace(c, s, p);
    case Write(i, b, v) => UnusedChange(c.budget, s.ops, i, s.ops[i].(added := s.ops[i].added + 1));
    case End(i) =>
      UnusedRemove(c.budget, s.ops, i);
      UnusedBounds(c.budget, s.ops);
    case _ =>
  }

  lemma {:induction false} RunSpace(c: Config, r: Run, s: State)
    requires Reaches(c, r, s) && c.budget <= MAXOPBLOCKS
    ensures SpaceOk(c, s)
    decreases r
  {
    match r
    case Boot(d) =>
    case Then(before, e) =>
      var s0 :| Reaches(c, before, s0) && Enabled(c, s0, e) && s == Do(c, s0, e);
      RunKeeps(c, before, s0);
      RunSpace(c, before, s0);
      StepSpace(c, s0, e);
  }

  /** Log admission.  If no operation adds more than MAXOPBLOCKS blocks, the
      blocks logged and those still promised never exceed LOGSIZE; and a log
      nobody is using is empty. */
  lemma PromisedSpaceFits(c: Config, s: State)
    requires Reachable(c, s) && c.budget <= MAXOPBLOCKS
    ensures s.ops != [] ==> |s.blocks| + Unused(c.budget, s.ops) <= LOGSIZE
    ensures forall i :: 0 <= i < |s.ops| ==> s.ops[i].added <= c.budget
    ensures s.phase.Idle? && s.ops == [] ==> s.blocks == []
  {
    var r :| Reaches(c, r, s);
    RunKeeps(c, r, s);
    RunSpace(c, r, s);
  }

  /** Some operation, keeping to its budget, is about to make log_write panic. */
  ghost predicate Panics(c: Config, s: State) {
    s.phase.Idle? && TooBig(c, s) && exists i, b :: WithinBudget(c, s, i, b) && c.g.Home(b)
  }

  /** log_write refuses a block once this many are logged. */
  function Capacity(g: Geometry): nat
    requires g.Ok()
  {
    if g.size - 1 <= LOGSIZE then g.size - 1 else LOGSIZE
  }

  lemma SmallBudgetsNeverPanic(c: Config, s: State)
    requires Reachable(c, s) && c.g.Ok() && MAXOPBLOCKS + 2 * c.budget < Capacity(c.g)
    ensures !Panics(c, s)
  {
    var r :| Reaches(c, r, s);
    RunSpace(c, r, s);
    UnusedBounds(c.budget, s.ops);
  }

  // The other half: a run that fills the log.

  /** Distinct home blocks to write. */
  ghost predicate SpareOk(c: Config, spare: seq<int>) {
    && c.g.Ok() && c.budget > 0 && |spare| > Capacity(c.g)
    && (forall i :: 0 <= i < |spare| ==> c.g.Home(spare[i]))
    && (forall i, j :: 0 <= i < j < |spare| ==> spare[i] != spare[j])
  }

  /** The first n spare blocks are logged, and there are k operations. */
  ghost predicate Filled(s: State, spare: seq<int>, n: nat, k: nat) {
    s.phase.Idle? && s.sleeping == {} && n <= |spare| && s.blocks == spare[..n] && |s.ops| == k
  }

  lemma Take(c: Config, r: Run, s: State, e: Event) returns (r': Run, t: State)
    requires Reaches(c, r, s) && Enabled(c, s, e)
    ensures Reaches(c, r', t) && t == Do(c, s, e)
  {
    r', t := Then(r, e), Do(c, s, e);
  }

  lemma BootEmpty(c: Config, spare: seq<int>) returns (r: Run, t: State)
    requires SpareOk(c, spare)
    ensures Reaches(c, r, t) && Filled(t, spare, 0, 1) && t.ops[0].added == 0
  {
    var d: Disk := seq(c.g.total, i => seq(WORDS, j => 0));
    r := Boot(d);
    var s := Booted(c.g, d);
    r, t := Take(c, r, s, DiskWrite);
    r, t := Take(c, r, t, Begin(0));
  }

  /** Operation i writes one more spare block. */
  lemma WriteNext(c: Config, r: Run, s: State, spare: seq<int>, n: nat, i: nat) returns (r': Run, t: State)
    requires SpareOk(c, spare) && Reaches(c, r, s) && Filled(s, spare, n, |s.ops|)
    requires n < Capacity(c.g) && i < |s.ops| && s.ops[i].added < c.budget
    ensures Reaches(c, r', t) && Filled(t, spare, n + 1, |s.ops|)
    ensures forall j :: 0 <= j < |s.ops| ==> t.ops[j].added == s.ops[j].added + if j == i then 1 else 0
  {
    assert spare[n] !in s.blocks;
    r', t := Take(c, r, s, Write(i, spare[n], seq(WORDS, j => 0)));
    assert spare[..n + 1] == spare[..n] + [spare[n]];
  }

  lemma {:induction false} WriteUpTo(c: Config, r: Run, s: State, spare: seq<int>, n: nat, m: nat, i: nat)
    returns (r': Run, t: State)
    requires SpareOk(c, spare) && Reaches(c, r, s) && Filled(s, spare, n, |s.ops|)
    requires n <= m <= Capacity(c.g) && i < |s.ops| && s.ops[i].added + (m - n) <= c.budget
    ensures Reaches(c, r', t) && Filled(t, spare, m, |s.ops|)
    ensures forall j :: 0 <= j < |s.ops| && j != i ==> t.ops[j].added == s.ops[j].added
    decreases m - n
  {
    if n == m {
      r', t := r, s;
    } else {
      r', t := WriteNext(c, r, s, spare, n, i);
      r', t := WriteUpTo(c, r', t, spare, n + 1, m, i);
    }
  }

  /** Operation 0 idles while others begin, write one block each and end. */
  lemma {:induction false} OneByOne(c: Config, r: Run, s: State, spare: seq<int>, n: nat, m: nat) returns (r': Run, t: State)
    requires SpareOk(c, spare) && Reaches(c, r, s) && Filled(s, spare, n, 1) && s.ops[0].added == 0
    requires n <= m <= Capacity(c.g) && m <= MAXOPBLOCKS
    ensures Reaches(c, r', t) && Filled(t, spare, m, 1) && t.ops[0].added == 0
    decreases m - n
  {
    if n == m {
      r', t := r, s;
    } else {
      r', t := Take(c, r, s, Begin(0));
      r', t := WriteNext(c, r', t, spare, n, 1);
      var u := t;
      r', t := Take(c, r', t, End(1));
      assert t.ops == u.ops[..1];
      r', t := OneByOne(c, r', t, spare, n + 1, m);
    }
  }

  lemma LargeBudgetsPanic(c: Config, spare: seq<int>) returns (r: Run, s: State)
    requires SpareOk(c, spare) && MAXOPBLOCKS + 2 * c.budget >= Capacity(c.g)
    ensures Reaches(c, r, s) && Panics(c, s)
  {
    var m := Capacity(c.g);
    r, s := BootEmpty(c, spare);
    if m <= MAXOPBLOCKS {
      r, s := OneByOne(c, r, s, spare, 0, m);
      assert WithinBudget(c, s, 0, spare[0]);
    } else {
      r, s := OneByOne(c, r, s, spare, 0, MAXOPBLOCKS);
      r, s := Take(c, r, s, Begin(0));
      var k := if m <= MAXOPBLOCKS + c.budget then m else MAXOPBLOCKS + c.budget;
      r, s := WriteUpTo(c, r, s, spare, MAXOPBLOCKS, k, 1);
      r, s := WriteUpTo(c, r, s, spare, k, m, 0);
      assert WithinBudget(c, s, 0, s.blocks[0]);
    }
  }

  /** log_write's panic is reachable, by operations that keep to their budget,
      exactly when ten blocks and two budgets reach the log's capacity. */
  lemma PanicExactlyWhen(c: Config, spare: seq<int>)
    requires SpareOk(c, spare)
    ensures (exists s :: Reachable(c, s) && Panics(c, s)) <==> MAXOPBLOCKS + 2 * c.budget >= Capacity(c.g)
  {
    if MAXOPBLOCKS + 2 * c.budget >= Capacity(c.g) {
      var r, s := LargeBudgetsPanic(c, spare);
      assert Reachable(c, s);
    } else {
      forall s | Reachable(c, s) ensures !Panics(c, s) {
        SmallBudgetsNeverPanic(c, s);
      }
    }
  }

  /** With the log that mkfs makes, the promise of MAXOPBLOCKS per operation is
      one too many: the panic is unreachable exactly for smaller budgets. */
  lemma MkfsLogPanicsAtMaxOpBlocks(c: Config, spare: seq<int>)
    requires SpareOk(c, spare) && c.g.size == LOGSIZE
    ensures (exists s :: Reachable(c, s) && Panics(c, s)) <==> c.budget >= MAXOPBLOCKS
  {
    PanicExactlyWhen(c, spare);
  }
}
