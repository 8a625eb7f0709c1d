/** What the operations asked for, told from the events of a run alone, and what the log
    makes of it: the story of a run is its begins, writes and ends, and a crash may only
    cut it between whole operations. */
module GroupCommitStory {
  import opened LogDisk
  import opened GroupCommit
  import opened GroupCommitProof
  import opened GroupCommitRuns

  /** active: the operations between begin_op and end_op, numbered in the order they
      began; writes: what was written so far; ended: the operations that have ended;
      safe: how many of the writes no crash may take back. */
  datatype Story = Story(active: seq<nat>, next: nat, writes: seq<Update>, ended: set<nat>, safe: nat)

  /** The first n writes are all the writes of some ended operations. */
  ghost predicate Whole(st: Story, n: nat) {
    && n <= |st.writes|
    && (forall i :: 0 <= i < n ==> st.writes[i].op in st.ended)
    && (forall i, j :: 0 <= i < n <= j < |st.writes| ==> st.writes[i].op != st.writes[j].op)
  }

  /** An operation that begins when no other is active finds all earlier writes safe. */
  function Begun(st: Story): Story {
    st.(active := st.active + [st.next], next := st.next + 1, safe := if st.active == [] then |st.writes| else st.safe)
  }

  /** A crash takes back the writes from the n-th on. */
  function Cut(st: Story, n: nat): Story
    requires n <= |st.writes|
  {
    Story([], st.next, st.writes[..n], st.ended, n)
  }

  ghost predicate Next(st: Story, e: Event, st': Story) {
    match e
    case Begin(_) => st' == Begun(st)
    case Write(i, b, v) => i < |st.active| && st' == st.(writes := st.writes + [Update(st.active[i], b, v)])
    case End(i) =>
      i < |st.active| && st' == st.(active := st.active[..i] + st.active[i + 1..], ended := st.ended + {st.active[i]})
    case Crash => exists n: nat :: st.safe <= n && Whole(st, n) && st' == Cut(st, n)
    case _ => st' == st
  }

  ghost predicate Tells(r: Run, st: Story)
    decreases r
  {
    match r
    case Boot(_) => st == Story([], 0, [], {}, 0)
    case Then(before, e) => exists st0 :: Tells(before, st0) && Next(st0, e, st)
  }

  function BootDisk(r: Run): Disk {
    match r
    case Boot(d) => d
    case Then(before, _) => BootDisk(before)
  }

  // ---------------------------------------------------------------- the log follows the story

  function Ids(ops: seq<Op>): (ids: seq<nat>)
    ensures |ids| == |ops| && forall i :: 0 <= i < |ops| ==> ids[i] == ops[i].id
  {
    seq(|ops|, i requires 0 <= i < |ops| => ops[i].id)
  }

  function StoryOf(s: State, safe: nat): Story {
    Story(Ids(s.ops), s.nextOp, s.hist, s.ended, safe)
  }

  lemma BeginStory(c: Config, s: State, p: nat, safe: nat)
    requires Inv(c, s) && Enabled(c, s, Begin(p)) && safe <= s.durable
    ensures var t := Do(c, s, Begin(p)); var safe' := if s.ops == [] then |s.hist| else safe;
            safe' <= t.durable && StoryOf(t, safe') == Begun(StoryOf(s, safe))
  {
    var t := Do(c, s, Begin(p));
    if s.ops == [] {
      NothingPending(s.hist, s.durable, s.blocks);
    }
    hide Inv, Enabled;
    assert Ids(t.ops) == Ids(s.ops) + [s.nextOp];
  }

  lemma WriteStory(c: Config, s: State, i: nat, b: int, v: Block, safe: nat)
    requires Enabled(c, s, Write(i, b, v)) && safe <= s.durable
    ensures var t := Do(c, s, Write(i, b, v)); safe <= t.durable && Next(StoryOf(s, safe), Write(i, b, v), StoryOf(t, safe))
  {
    var t := Do(c, s, Write(i, b, v));
    assert Ids(t.ops) == Ids(s.ops);
  }

  lemma EndStory(c: Config, s: State, i: nat, safe: nat)
    requires Enabled(c, s, End(i)) && safe <= s.durable
    ensures var t := Do(c, s, End(i)); safe <= t.durable && Next(StoryOf(s, safe), End(i), StoryOf(t, safe))
  {
    var t := Do(c, s, End(i));
    var ids := Ids(s.ops);
    assert Ids(t.ops) == ids[..i] + ids[i + 1..];
  }

  lemma DurableIsWhole(c: Config, s: State, safe: nat)
    requires Inv(c, s)
    ensures s.durable <= |s.hist| && Whole(StoryOf(s, safe), s.durable)
  {
  }

  lemma CrashStory(c: Config, s: State, safe: nat)
    requires Inv(c, s) && Enabled(c, s, Crash) && safe <= s.durable
    ensures var t := Do(c, s, Crash); s.durable <= t.durable && Next(StoryOf(s, safe), Crash, StoryOf(t, s.durable))
  {
    hide Inv, Whole;
    var t := Do(c, s, Crash);
    DurableIsWhole(c, s, safe);
    assert Ids(t.ops) == [];
    assert StoryOf(t, s.durable) == Cut(StoryOf(s, safe), s.durable);
  }

  lemma DurableOf(c: Config, s: State)
    requires Inv(c, s)
    ensures s.durable <= |s.hist|
  {
  }

  lemma DiskWriteStory(c: Config, s: State, safe: nat)
    requires Inv(c, s) && Enabled(c, s, DiskWrite) && safe <= s.durable
    ensures var t := Do(c, s, DiskWrite); safe <= t.durable && StoryOf(t, safe) == StoryOf(s, safe)
  {
    hide Inv, SetHeader, CanWrite;
    DurableOf(c, s);
  }

  lemma StoryStep(c: Config, s: State, e: Event, safe: nat) returns (safe': nat)
    requires Inv(c, s) && Enabled(c, s, e) && safe <= s.durable
    ensures safe' <= Do(c, s, e).durable && Next(StoryOf(s, safe), e, StoryOf(Do(c, s, e), safe'))
  {
    hide Inv;
    safe' := safe;
    match e
    case Begin(p) =>
      BeginStory(c, s, p, safe);
      safe' := if s.ops == [] then |s.hist| else safe;
    case Write(i, b, v) => WriteStory(c, s, i, b, v, safe);
    case End(i) => EndStory(c, s, i, safe);
    case Crash =>
      CrashStory(c, s, safe);
      safe' := s.durable;
    case DiskWrite => DiskWriteStory(c, s, safe);
    case _ =>
  }

  /** The log's own books of a run are its story. */
  lemma {:induction false} RunTells(c: Config, r: Run, s: State) returns (safe: nat)
    requires Reaches(c, r, s)
    ensures Inv(c, s) && safe <= s.durable && Tells(r, StoryOf(s, safe))
    ensures DiskOk(c.g, BootDisk(r)) && HeaderOk(c.g, BootDisk(r)[c.g.start]) && s.base == Recover(c.g, BootDisk(r))
    decreases r
  {
    hide Inv, Enabled, Do, Next, Recover;
    match r
    case Boot(d) =>
      BootKeeps(c, d);
      BootBase(c, d);
      safe := 0;
    case Then(before, e) =>
      var s0 :| Reaches(c, before, s0) && Enabled(c, s0, e) && s == Do(c, s0, e);
      var safe0 := RunTells(c, before, s0);
      safe := StoryStep(c, s0, e, safe0);
      StepKeeps(c, s0, e);
      SameBase(c, s0, e);
  }

  lemma BootBase(c: Config, d: Disk)
    requires DiskOk(c.g, d) && HeaderOk(c.g, d[c.g.start])
    ensures var s := Booted(c.g, d); s.base == Recover(c.g, d) && StoryOf(s, 0) == Story([], 0, [], {}, 0)
  {
    hide Recover;
    assert Ids([]) == [];
  }

  lemma SameBase(c: Config, s: State, e: Event)
    requires Enabled(c, s, e)
    ensures Do(c, s, e).base == s.base
  {
    hide SetHeader;
  }

  // ---------------------------------------------------------------- theorems

  /** log_write: the block reads as the caller left it, and every other block as before. */
  lemma WriteShows(c: Config, s: State, i: nat, b: int, v: Block, x: int)
    requires Reachable(c, s) && Enabled(c, s, Write(i, b, v)) && 0 <= x < |s.disk|
    ensures var t := Do(c, s, Write(i, b, v)); |t.disk| == |s.disk| && Read(t, x) == if x == b then v else Read(s, x)
  {
  }

  /** Group commit.  Whatever the interleaving of operations, a crash at any moment and
      recoveries that crash any number of times leave exactly the effect of the first n
      writes of the story: whole ended operations, and all that is safe. */
  lemma CrashLeavesWholeStory(c: Config, r: Run, s: State, crashes: seq<nat>) returns (st: Story, n: nat)
    requires Reaches(c, r, s)
    ensures Tells(r, st) && Whole(st, n) && st.safe <= n
    ensures DiskOk(c.g, BootDisk(r)) && HeaderOk(c.g, BootDisk(r)[c.g.start])
    ensures DiskOk(c.g, s.disk) && HeaderOk(c.g, s.disk[c.g.start])
    ensures var f := CrashingRecoveries(c.g, s.disk, crashes);
            && DiskOk(c.g, f) && HeaderOk(c.g, f[c.g.start])
            && SameHome(c.g, Recover(c.g, f), Replay(Recover(c.g, BootDisk(r)), st.writes[..n]))
  {
    var safe := RunTells(c, r, s);
    assert Reachable(c, s);
    CrashLeavesWholeOperations(c, s, crashes);
    st, n := StoryOf(s, safe), s.durable;
  }

  /** Outside recovery, every home block reads as the writes of the story left it. */
  lemma ReadsFollowStory(c: Config, r: Run, s: State, b: int) returns (st: Story)
    requires Reaches(c, r, s) && !s.phase.Recovery? && c.g.Home(b)
    ensures Tells(r, st) && DiskOk(c.g, BootDisk(r)) && HeaderOk(c.g, BootDisk(r)[c.g.start])
    ensures 0 <= b < |s.disk| && b < c.g.total && Read(s, b) == Replay(Recover(c.g, BootDisk(r)), st.writes)[b]
  {
    var safe := RunTells(c, r, s);
    st := StoryOf(s, safe);
    assert Read(s, b) == Logical(s)[b];
  }
}
