/** exit, wait and fork (kernel/proc.c) as steps of the processes in the table: who
    waits for whom, who is woken, and who reports which exit status.  wait_lock and the
    p->locks held across other steps are modelled; a region that takes a p->lock and
    gives it back without waiting in between is one step. */
module ExitWait {

  datatype Option<T> = None | Some(value: T)

  datatype RunState = Unused | Used | Runnable | Running | Sleeping | Zombie

  /** Where the process in a slot is. */
  datatype Pc =
    | User
    // fork of the process in slot c
    | ForkWant(c: nat) | ForkSet(c: nat) | ForkRelease(c: nat) | ForkRun(c: nat)
    // exit
    | ExitWant(status: int) | Reparent(status: int, j: nat) | WakeInit(status: int, j: nat, k: nat)
    | WakeParent(status: int, k: nat) | ExitLock(status: int) | ExitZombie(status: int) | ExitRelease | Gone
    // wait
    | WaitWant | Scan(j: nat, kids: bool) | WaitRelease
    | SleepLockP | SleepRelease | SleepSet | Switch | Away

  /** chan: the slot whose address the process sleeps on.  plock: p->lock is held. */
  datatype Proc = Proc(state: RunState, pid: nat, parent: Option<nat>, xstate: int, chan: Option<nat>, plock: bool, killed: bool, pc: Pc)

  /** wlock: who holds wait_lock.  exited and reported are history: the statuses that
      processes exited with, and those that wait has returned. */
  datatype State = State(procs: seq<Proc>, wlock: Option<nat>, nextpid: nat, exited: map<nat, int>, reported: map<nat, int>)

  /** Slot 0 is init. */
  const INIT: nat := 0

  datatype Event =
    | Step(i: nat)
    | CallFork(i: nat, c: nat)
    | CallExit(i: nat, status: int)
    | CallWait(i: nat)
    | CopyFails(i: nat)
    | Kill(i: nat)
    | Dispatch(i: nat)
    | Preempt(i: nat)

  predicate Ready(s: State, i: nat)
    requires i < |s.procs|
  {
    var p := s.procs[i];
    match p.pc
    case User => false
    case Gone => p.plock
    case ForkWant(_) => s.wlock.None?
    case ForkRun(c) => c < |s.procs| && !s.procs[c].plock
    case ForkSet(c) => c < |s.procs|
    case ExitWant(_) => s.wlock.None?
    case WaitWant => s.wlock.None?
    case WakeInit(_, _, k) => k < |s.procs| && k != i ==> !s.procs[k].plock
    case WakeParent(_, k) => k < |s.procs| && k != i ==> !s.procs[k].plock
    case ExitLock(_) => !p.plock
    case SleepLockP => !p.plock
    case Scan(j, _) => j < |s.procs| && s.procs[j].parent == Some(i) ==> !s.procs[j].plock
    case Away => p.plock || p.state.Runnable?
    case _ => true
  }

  /** A process runs its own code only while the scheduler has chosen it. */
  predicate Enabled(s: State, e: Event) {
    match e
    case Step(i) => i < |s.procs| && Ready(s, i)
    case CallFork(i, c) => Free(s, i) && c < |s.procs| && s.procs[c].state.Unused? && !s.procs[c].plock
    case CallExit(i, _) => Free(s, i) && i != INIT
    case CallWait(i) => Free(s, i)
    case CopyFails(i) =>
      && i < |s.procs| && s.procs[i].pc.Scan? && s.procs[i].pc.j < |s.procs|
      && s.procs[s.procs[i].pc.j].parent == Some(i) && s.procs[s.procs[i].pc.j].state.Zombie?
    case Kill(i) => i < |s.procs| && !s.procs[i].plock && s.procs[i].pid > 0
    case Dispatch(i) => i < |s.procs| && s.procs[i].state.Runnable? && s.procs[i].pc.User?
    case Preempt(i) => Free(s, i)
  }

  predicate Free(s: State, i: nat) {
    i < |s.procs| && s.procs[i].state.Running? && s.procs[i].pc.User?
  }

  function With(s: State, i: nat, p: Proc): State
    requires i < |s.procs|
  {
    s.(procs := s.procs[i := p])
  }

  function At(s: State, i: nat, pc: Pc): State
    requires i < |s.procs|
  {
    With(s, i, s.procs[i].(pc := pc))
  }

  /** One process of a wakeup(chan) by process i. */
  function Woken(s: State, i: nat, k: nat, chan: nat): State {
    if k < |s.procs| && k != i && s.procs[k].state.Sleeping? && s.procs[k].chan == Some(chan) then
      With(s, k, s.procs[k].(state := Runnable))
    else s
  }

  function Do(s: State, e: Event): State
    requires Enabled(s, e)
  {
    match e
    case Step(i) => DoStep(s, i)
    // allocproc: a slot and a new pid; fork goes on with the slot unlocked
    case CallFork(i, c) =>
      At(With(s, c, Proc(Used, s.nextpid, None, 0, None, false, false, User)), i, ForkWant(c)).(nextpid := s.nextpid + 1)
    case CallExit(i, status) => At(s, i, ExitWant(status))
    case CallWait(i) => At(s, i, WaitWant)
    case CopyFails(i) => At(s, i, WaitRelease)
    case Kill(i) =>
      With(s, i, s.procs[i].(killed := true, state := if s.procs[i].state.Sleeping? then Runnable else s.procs[i].state))
    // the scheduler
    case Dispatch(i) => With(s, i, s.procs[i].(state := Running))
    case Preempt(i) => With(s, i, s.procs[i].(state := Runnable))
  }

  function DoStep(s: State, i: nat): State
    requires i < |s.procs| && Ready(s, i)
  {
    var p, n := s.procs[i], |s.procs|;
    match p.pc
    case ForkWant(c) => At(s, i, ForkSet(c)).(wlock := Some(i))
    case ForkSet(c) => With(At(s, i, ForkRelease(c)), c, At(s, i, ForkRelease(c)).procs[c].(parent := Some(i)))
    case ForkRelease(c) => At(s, i, ForkRun(c)).(wlock := None)
    case ForkRun(c) => With(At(s, i, User), c, At(s, i, User).procs[c].(state := Runnable))
    case ExitWant(status) => At(s, i, Reparent(status, 0)).(wlock := Some(i))
    case Reparent(status, j) =>
      if j >= n then At(s, i, WakeParent(status, 0))
      else if s.procs[j].parent == Some(i) then
        var t := With(s, j, s.procs[j].(parent := Some(INIT)));
        At(t, i, WakeInit(status, j, 0))
      else At(s, i, Reparent(status, j + 1))
    case WakeInit(status, j, k) =>
      if k >= n then At(s, i, Reparent(status, j + 1)) else At(Woken(s, i, k, INIT), i, WakeInit(status, j, k + 1))
    case WakeParent(status, k) =>
      if k >= n then At(s, i, ExitLock(status))
      else At(if p.parent.Some? then Woken(s, i, k, p.parent.value) else s, i, WakeParent(status, k + 1))
    case ExitLock(status) => With(s, i, p.(pc := ExitZombie(status), plock := true))
    case ExitZombie(status) =>
      With(s, i, p.(pc := ExitRelease, xstate := status, state := Zombie)).(exited := s.exited[p.pid := status])
    case ExitRelease => At(s, i, Gone).(wlock := None)
    case Gone => With(s, i, p.(plock := false))
    case WaitWant => At(s, i, Scan(0, false)).(wlock := Some(i))
    case Scan(j, kids) =>
      if j >= n then if kids && !p.killed then At(s, i, SleepLockP) else At(s, i, WaitRelease)
      else if s.procs[j].parent != Some(i) then At(s, i, Scan(j + 1, kids))
      else if s.procs[j].state.Zombie? then Reap(s, i, j)
      else At(s, i, Scan(j + 1, true))
    case WaitRelease => At(s, i, User).(wlock := None)
    case SleepLockP => With(s, i, p.(pc := SleepRelease, plock := true))
    case SleepRelease => At(s, i, SleepSet).(wlock := None)
    case SleepSet => With(s, i, p.(pc := Switch, chan := Some(i), state := Sleeping))
    case Switch => At(s, i, Away)
    case Away =>
      if p.plock then With(s, i, p.(plock := false)) else With(s, i, p.(pc := WaitWant, state := Running, chan := None))
  }

  /** wait found a zombie: freeproc, and its pid and status are returned. */
  function Reap(s: State, i: nat, j: nat): State
    requires i < |s.procs| && j < |s.procs|
  {
    var c := s.procs[j];
    var t := With(s, j, Proc(Unused, 0, None, 0, None, false, false, User));
    At(t, i, WaitRelease).(reported := s.reported[c.pid := c.xstate])
  }

  // ---------------------------------------------------------------- invariant

  predicate HoldsW(pc: Pc) {
    pc.ForkSet? || pc.ForkRelease? || pc.Reparent? || pc.WakeInit? || pc.WakeParent? || pc.ExitLock? || pc.ExitZombie?
    || pc.ExitRelease? || pc.Scan? || pc.WaitRelease? || pc.SleepLockP? || pc.SleepRelease?
  }

  predicate Alive(p: Proc) {
    p.state.Runnable? || p.state.Running? || p.state.Sleeping?
  }

  predicate Forking(pc: Pc) {
    pc.ForkWant? || pc.ForkSet? || pc.ForkRelease? || pc.ForkRun?
  }

  predicate Exiting(pc: Pc) {
    pc.ExitWant? || pc.Reparent? || pc.WakeInit? || pc.WakeParent? || pc.ExitLock? || pc.ExitZombie?
  }

  /** Process q waits for its children asleep, or is on the way there without wait_lock. */
  predicate Dozing(s: State, q: nat) {
    q < |s.procs| && (s.procs[q].pc.SleepSet? || (s.procs[q].state.Sleeping? && s.procs[q].chan == Some(q)))
  }

  /** The locks and the state that go with each place. */
  ghost predicate PlaceOk(s: State, i: nat)
    requires i < |s.procs|
  {
    var p := s.procs[i];
    && (HoldsW(p.pc) <==> s.wlock == Some(i))
    && (p.plock ==> p.pc.ExitZombie? || p.pc.ExitRelease? || p.pc.Gone? || p.pc.SleepRelease? || p.pc.SleepSet? || p.pc.Switch? || p.pc.Away?)
    && (p.pc.ExitZombie? || p.pc.ExitRelease? || p.pc.SleepRelease? || p.pc.SleepSet? || p.pc.Switch? ==> p.plock)
    && (p.state.Zombie? <==> p.pc.ExitRelease? || p.pc.Gone?)
    && (p.pc.Switch? ==> p.state.Sleeping?) && (p.pc.Away? ==> p.state.Sleeping? || p.state.Runnable?)
    && (p.pc.Switch? || p.pc.Away? ==> p.chan == Some(i))
    && (p.pc.User? ==> !p.state.Sleeping?)
    && (!p.pc.User? && !p.pc.ExitRelease? && !p.pc.Gone? && !p.pc.Switch? && !p.pc.Away? ==> p.state.Running?)
    && (Exiting(p.pc) || p.state.Zombie? || p.state.Unused? || p.state.Used? ==> i != INIT)
  }

  /** Parents are live, and the table entries that a fork is filling in are its own. */
  ghost predicate FamilyOk(s: State, i: nat)
    requires i < |s.procs|
  {
    var p := s.procs[i];
    && (p.parent.Some? ==> p.parent.value < |s.procs| && Alive(s.procs[p.parent.value]) && p.parent.value != i)
    && (p.state.Unused? || i == INIT ==> p.parent.None?)
    && (Forking(p.pc) ==> p.pc.c < |s.procs| && s.procs[p.pc.c].state.Used?)
    && (p.pc.ForkWant? || p.pc.ForkSet? ==> s.procs[p.pc.c].parent.None?)
    && (p.pc.ForkRelease? || p.pc.ForkRun? ==> s.procs[p.pc.c].parent.Some?)
    && (i != INIT && (Alive(p) || p.state.Zombie?) ==> p.parent.Some?)
  }

  ghost predicate ForksApart(s: State) {
    forall i, j :: 0 <= i < j < |s.procs| && Forking(s.procs[i].pc) && Forking(s.procs[j].pc) ==> s.procs[i].pc.c != s.procs[j].pc.c
  }

  /** The children of i among the first n are none, or none of them a zombie. */
  ghost predicate NoKids(s: State, i: nat, n: nat) {
    forall c :: 0 <= c < n && c < |s.procs| ==> s.procs[c].parent != Some(i)
  }

  ghost predicate NoZombies(s: State, i: nat, n: nat) {
    forall c :: 0 <= c < n && c < |s.procs| && s.procs[c].parent == Some(i) ==> !s.procs[c].state.Zombie?
  }

  ghost predicate ProgressOk(s: State, i: nat)
    requires i < |s.procs|
  {
    var p := s.procs[i];
    match p.pc
    case Reparent(_, j) => NoKids(s, i, j)
    case WakeInit(_, j, k) => NoKids(s, i, j + 1) && (Dozing(s, INIT) ==> k <= INIT)
    case WakeParent(_, k) => NoKids(s, i, |s.procs|) && (p.parent.Some? && Dozing(s, p.parent.value) ==> k <= p.parent.value)
    case ExitLock(_) => NoKids(s, i, |s.procs|) && (p.parent.Some? ==> !Dozing(s, p.parent.value))
    case ExitZombie(_) => NoKids(s, i, |s.procs|) && (p.parent.Some? ==> !Dozing(s, p.parent.value))
    case Scan(j, kids) => NoZombies(s, i, j) && (kids <==> !NoKids(s, i, j))
    case SleepLockP => NoZombies(s, i, |s.procs|)
    case SleepRelease => NoZombies(s, i, |s.procs|)
    case _ => true
  }

  /** init is about to be woken by a process that gives it its children. */
  ghost predicate InitWillWake(s: State) {
    && s.wlock.Some? && s.wlock.value < |s.procs|
    && s.procs[s.wlock.value].pc.WakeInit? && s.procs[s.wlock.value].pc.k <= INIT
  }

  /** A zombie's parent does not doze, except for init that is about to be woken. */
  ghost predicate ZombieOk(s: State, c: nat)
    requires c < |s.procs|
  {
    s.procs[c].state.Zombie? && s.procs[c].parent.Some? && Dozing(s, s.procs[c].parent.value) ==>
      s.procs[c].parent.value == INIT && InitWillWake(s)
  }

  /** Pids name processes. */
  ghost predicate PidsOk(s: State) {
    && (forall i :: 0 <= i < |s.procs| ==> if s.procs[i].state.Unused? then s.procs[i].pid == 0 else 0 < s.procs[i].pid < s.nextpid)
    && (forall i, j :: 0 <= i < j < |s.procs| && !s.procs[i].state.Unused? ==> s.procs[i].pid != s.procs[j].pid)
    && (forall id :: id in s.exited ==> 0 < id < s.nextpid)
  }

  /** The zombies in the table are the exits not yet reported. */
  ghost predicate ExitsOk(s: State) {
    && (forall i :: 0 <= i < |s.procs| && s.procs[i].state.Zombie? ==>
          s.procs[i].pid in s.exited && s.exited[s.procs[i].pid] == s.procs[i].xstate && s.procs[i].pid !in s.reported)
    && (forall i :: 0 <= i < |s.procs| && s.procs[i].pid in s.exited ==> s.procs[i].state.Zombie?)
    && (forall id :: id in s.reported ==> id in s.exited && s.reported[id] == s.exited[id])
  }

  ghost predicate UnreportedOk(s: State) {
    forall id :: id in s.exited && id !in s.reported ==> HasZombie(s, id)
  }

  ghost predicate HistoryOk(s: State) {
    PidsOk(s) && ExitsOk(s) && UnreportedOk(s)
  }

  ghost predicate HasZombie(s: State, id: nat) {
    exists i :: 0 <= i < |s.procs| && s.procs[i].state.Zombie? && s.procs[i].pid == id
  }

  ghost predicate Inv(s: State) {
    && |s.procs| > INIT && s.nextpid > 0
    && (forall i :: 0 <= i < |s.procs| ==> PlaceOk(s, i))
    && (forall i :: 0 <= i < |s.procs| ==> FamilyOk(s, i))
    && (forall i :: 0 <= i < |s.procs| ==> ProgressOk(s, i))
    && (forall i :: 0 <= i < |s.procs| ==> ZombieOk(s, i))
    && ForksApart(s) && HistoryOk(s)
  }

  // ---------------------------------------------------------------- steps

  ghost predicate SlotOk(s: State, k: nat)
    requires k < |s.procs|
  {
    PlaceOk(s, k) && FamilyOk(s, k) && ProgressOk(s, k) && ZombieOk(s, k)
  }

  /** Process i moves on: its place, its own p->lock and wait_lock may change; a live
      process may also go to sleep, wake up, or be scheduled. */
  ghost predicate Moves(s: State, t: State, i: nat) {
    && i < |s.procs| && |t.procs| == |s.procs|
    && (forall j :: 0 <= j < |s.procs| && j != i ==> t.procs[j] == s.procs[j])
    && t.nextpid == s.nextpid && t.exited == s.exited && t.reported == s.reported
    && t.procs[i] == s.procs[i].(pc := t.procs[i].pc, plock := t.procs[i].plock, killed := t.procs[i].killed,
                                 state := t.procs[i].state, chan := t.procs[i].chan)
    && (t.procs[i].state == s.procs[i].state || (Alive(s.procs[i]) && Alive(t.procs[i])))
    && (t.wlock == s.wlock || (s.wlock.None? && t.wlock == Some(i)) || (s.wlock == Some(i) && t.wlock.None?))
    && (Forking(t.procs[i].pc) ==> Forking(s.procs[i].pc) && t.procs[i].pc.c == s.procs[i].pc.c)
    && (t.procs[i].pc.ForkWant? || t.procs[i].pc.ForkSet? ==> s.procs[i].pc.ForkWant? || s.procs[i].pc.ForkSet?)
    && (t.procs[i].pc.ForkRelease? || t.procs[i].pc.ForkRun? ==> s.procs[i].pc.ForkRelease? || s.procs[i].pc.ForkRun?)
  }

  /** It falls asleep only after it has looked at all its children. */
  ghost predicate MovesSafely(s: State, t: State, i: nat) {
    && Moves(s, t, i)
    && (Dozing(t, i) && !Dozing(s, i) ==> s.wlock == Some(i) && NoZombies(s, i, |s.procs|))
    && (Dozing(s, INIT) && InitWillWake(s) ==> InitWillWake(t))
  }

  lemma SameKids(s: State, t: State, i: nat, n: nat)
    requires |t.procs| == |s.procs| && forall c :: 0 <= c < |s.procs| ==> t.procs[c].parent == s.procs[c].parent
    ensures NoKids(s, i, n) <==> NoKids(t, i, n)
  {
    if !NoKids(s, i, n) {
      var c :| 0 <= c < n && c < |s.procs| && s.procs[c].parent == Some(i);
      assert t.procs[c].parent == Some(i);
    }
  }

  lemma MovePlace(s: State, t: State, i: nat, k: nat)
    requires Inv(s) && Moves(s, t, i) && PlaceOk(t, i) && k < |s.procs|
    ensures PlaceOk(t, k)
  {
    hide FamilyOk, ProgressOk, ZombieOk, HistoryOk, ForksApart;
    assert PlaceOk(s, k) && PlaceOk(s, i);
  }

  lemma MoveFamily(s: State, t: State, i: nat, k: nat)
    requires Inv(s) && Moves(s, t, i) && k < |s.procs|
    ensures FamilyOk(t, k)
  {
    hide PlaceOk, ProgressOk, ZombieOk, HistoryOk, ForksApart;
    assert FamilyOk(s, k);
  }

  lemma MoveProgress(s: State, t: State, i: nat, k: nat)
    requires Inv(s) && MovesSafely(s, t, i) && ProgressOk(t, i) && k < |s.procs|
    ensures ProgressOk(t, k)
  {
    hide FamilyOk, ZombieOk, HistoryOk, ForksApart;
    assert PlaceOk(s, k) && ProgressOk(s, k);
  }

  lemma MoveZombie(s: State, t: State, i: nat, k: nat)
    requires Inv(s) && MovesSafely(s, t, i) && k < |s.procs|
    ensures ZombieOk(t, k)
  {
    hide PlaceOk, FamilyOk, ProgressOk, HistoryOk, ForksApart;
    assert ZombieOk(s, k);
  }

  lemma MoveForks(s: State, t: State, i: nat)
    requires ForksApart(s) && Moves(s, t, i)
    ensures ForksApart(t)
  {
  }

  lemma Assemble(t: State)
    requires |t.procs| > INIT && t.nextpid > 0 && ForksApart(t) && HistoryOk(t)
    requires forall k: nat :: k < |t.procs| ==> SlotOk(t, k)
    ensures Inv(t)
  {
    hide PlaceOk, FamilyOk, ProgressOk, ZombieOk, HistoryOk;
    forall k: nat | k < |t.procs| ensures PlaceOk(t, k) && FamilyOk(t, k) && ProgressOk(t, k) && ZombieOk(t, k) {
      assert SlotOk(t, k);
    }
  }

  lemma MoveKeeps(s: State, t: State, i: nat)
    requires Inv(s) && MovesSafely(s, t, i) && PlaceOk(t, i) && ProgressOk(t, i)
    ensures Inv(t)
  {
    hide PlaceOk, FamilyOk, ProgressOk, ZombieOk, HistoryOk;
    forall k: nat | k < |t.procs| ensures SlotOk(t, k) {
      MovePlace(s, t, i, k);
      MoveFamily(s, t, i, k);
      MoveProgress(s, t, i, k);
      MoveZombie(s, t, i, k);
    }
    SameHistory(s, t);
    MoveForks(s, t, i);
    Assemble(t);
  }

  lemma SameHistory(s: State, t: State)
    requires HistoryOk(s) && |t.procs| == |s.procs| && t.nextpid == s.nextpid && t.exited == s.exited && t.reported == s.reported
    requires forall i :: 0 <= i < |s.procs| ==>
               t.procs[i].pid == s.procs[i].pid && t.procs[i].xstate == s.procs[i].xstate
               && (t.procs[i].state.Zombie? <==> s.procs[i].state.Zombie?) && (t.procs[i].state.Unused? <==> s.procs[i].state.Unused?)
    ensures HistoryOk(t)
  {
    forall id | id in t.exited && id !in t.reported ensures HasZombie(t, id) {
      var i :| 0 <= i < |s.procs| && s.procs[i].state.Zombie? && s.procs[i].pid == id;
      assert t.procs[i].pid == id;
    }
  }

  // ---------------------------------------------------------------- the moves

  lemma ForkMoves(s: State, t: State, i: nat)
    requires |s.procs| > INIT && i < |s.procs| && Ready(s, i) && t == DoStep(s, i)
    requires PlaceOk(s, i) && ProgressOk(s, i) && FamilyOk(s, i)
    requires var pc := s.procs[i].pc; pc.ForkWant? || pc.ForkRelease?
    ensures MovesSafely(s, t, i) && PlaceOk(t, i) && ProgressOk(t, i)
  {
  }

  lemma ReparentMoves(s: State, t: State, i: nat)
    requires |s.procs| > INIT && i < |s.procs| && Ready(s, i) && t == DoStep(s, i)
    requires PlaceOk(s, i) && ProgressOk(s, i) && FamilyOk(s, i)
    requires var pc := s.procs[i].pc;
             pc.ExitWant? || (pc.Reparent? && (pc.j >= |s.procs| || s.procs[pc.j].parent != Some(i)))
    ensures MovesSafely(s, t, i) && PlaceOk(t, i) && ProgressOk(t, i)
  {
  }

  lemma WakeMoves(s: State, t: State, i: nat)
    requires |s.procs| > INIT && i < |s.procs| && Ready(s, i) && t == DoStep(s, i)
    requires PlaceOk(s, i) && ProgressOk(s, i) && FamilyOk(s, i)
    requires var pc := s.procs[i].pc; (pc.WakeInit? && pc.k >= |s.procs|) || (pc.WakeParent? && pc.k >= |s.procs|)
    ensures MovesSafely(s, t, i) && PlaceOk(t, i) && ProgressOk(t, i)
  {
  }

  lemma ExitMoves(s: State, t: State, i: nat)
    requires |s.procs| > INIT && i < |s.procs| && Ready(s, i) && t == DoStep(s, i)
    requires PlaceOk(s, i) && ProgressOk(s, i) && FamilyOk(s, i)
    requires var pc := s.procs[i].pc; pc.ExitLock? || pc.ExitRelease? || pc.Gone?
    ensures MovesSafely(s, t, i) && PlaceOk(t, i) && ProgressOk(t, i)
  {
  }

  lemma WaitMoves(s: State, t: State, i: nat)
    requires |s.procs| > INIT && i < |s.procs| && Ready(s, i) && t == DoStep(s, i)
    requires PlaceOk(s, i) && ProgressOk(s, i) && FamilyOk(s, i)
    requires var pc := s.procs[i].pc; pc.WaitWant? || pc.WaitRelease?
    ensures MovesSafely(s, t, i) && PlaceOk(t, i) && ProgressOk(t, i)
  {
  }

  lemma ScanMoves(s: State, t: State, i: nat)
    requires |s.procs| > INIT && i < |s.procs| && Ready(s, i) && t == DoStep(s, i)
    requires PlaceOk(s, i) && ProgressOk(s, i) && FamilyOk(s, i)
    requires var pc := s.procs[i].pc;
             pc.Scan? && (pc.j >= |s.procs| || s.procs[pc.j].parent != Some(i) || !s.procs[pc.j].state.Zombie?)
    ensures MovesSafely(s, t, i) && PlaceOk(t, i) && ProgressOk(t, i)
  {
  }

  lemma DozeMoves(s: State, t: State, i: nat)
    requires |s.procs| > INIT && i < |s.procs| && Ready(s, i) && t == DoStep(s, i)
    requires PlaceOk(s, i) && ProgressOk(s, i) && FamilyOk(s, i)
    requires var pc := s.procs[i].pc; pc.SleepLockP? || pc.SleepRelease?
    ensures MovesSafely(s, t, i) && PlaceOk(t, i) && ProgressOk(t, i)
  {
  }

  lemma SleepMoves(s: State, t: State, i: nat)
    requires |s.procs| > INIT && i < |s.procs| && Ready(s, i) && t == DoStep(s, i)
    requires PlaceOk(s, i) && ProgressOk(s, i) && FamilyOk(s, i)
    requires var pc := s.procs[i].pc; pc.SleepSet? || pc.Switch? || pc.Away?
    ensures MovesSafely(s, t, i) && PlaceOk(t, i) && ProgressOk(t, i)
  {
  }

  lemma CallMoves(s: State, t: State, e: Event)
    requires |s.procs| > INIT && Enabled(s, e) && !e.Step? && !e.CallFork? && t == Do(s, e)
    requires PlaceOk(s, e.i) && ProgressOk(s, e.i) && FamilyOk(s, e.i)
    ensures MovesSafely(s, t, e.i) && PlaceOk(t, e.i) && ProgressOk(t, e.i)
  {
  }

  // ---------------------------------------------------------------- the other steps

  /** fork makes the new process a child. */
  ghost predicate IsForkSet(s: State, t: State, i: nat, c: nat) {
    i < |s.procs| && c < |s.procs| && s.procs[i].pc == ForkSet(c) && t == DoStep(s, i)
  }

  lemma ForkSetPlace(s: State, t: State, i: nat, c: nat, k: nat)
    requires Inv(s) && IsForkSet(s, t, i, c) && k < |s.procs|
    ensures |t.procs| == |s.procs| && PlaceOk(t, k)
  {
    hide FamilyOk, ProgressOk, ZombieOk, HistoryOk, ForksApart;
    assert PlaceOk(s, k) && PlaceOk(s, i) && PlaceOk(s, c) && PlaceOk(s, INIT);
  }

  lemma ForkSetFamily(s: State, t: State, i: nat, c: nat, k: nat)
    requires Inv(s) && IsForkSet(s, t, i, c) && k < |s.procs|
    ensures |t.procs| == |s.procs| && FamilyOk(t, k)
  {
    hide ProgressOk, ZombieOk, HistoryOk;
    assert FamilyOk(s, k) && FamilyOk(s, i) && FamilyOk(s, c) && FamilyOk(s, INIT) && PlaceOk(s, k) && PlaceOk(s, i) && PlaceOk(s, c) && PlaceOk(s, INIT);
  }

  lemma ForkSetProgress(s: State, t: State, i: nat, c: nat, k: nat)
    requires Inv(s) && IsForkSet(s, t, i, c) && k < |s.procs|
    ensures |t.procs| == |s.procs| && ProgressOk(t, k)
  {
    hide ZombieOk, HistoryOk, ForksApart;
    assert ProgressOk(s, k) && ProgressOk(s, i) && ProgressOk(s, c) && ProgressOk(s, INIT) && PlaceOk(s, k) && PlaceOk(s, i) && PlaceOk(s, c) && PlaceOk(s, INIT) && FamilyOk(s, k) && FamilyOk(s, i) && FamilyOk(s, c) && FamilyOk(s, INIT);
  }

  lemma ForkSetZombie(s: State, t: State, i: nat, c: nat, k: nat)
    requires Inv(s) && IsForkSet(s, t, i, c) && k < |s.procs|
    ensures |t.procs| == |s.procs| && ZombieOk(t, k)
  {
    hide HistoryOk, ForksApart;
    assert ZombieOk(s, k) && ZombieOk(s, i) && ZombieOk(s, c) && ZombieOk(s, INIT) && PlaceOk(s, k) && PlaceOk(s, i) && PlaceOk(s, c) && PlaceOk(s, INIT) && ProgressOk(s, k) && ProgressOk(s, i) && ProgressOk(s, c) && ProgressOk(s, INIT) && FamilyOk(s, k) && FamilyOk(s, i) && FamilyOk(s, c) && FamilyOk(s, INIT);
  }

  lemma ForkSetHistory(s: State, t: State, i: nat, c: nat)
    requires Inv(s) && IsForkSet(s, t, i, c)
    ensures |t.procs| > INIT && t.nextpid > 0 && ForksApart(t) && HistoryOk(t)
  {
    hide ProgressOk, ZombieOk, PlaceOk, FamilyOk;
    SameHistory(s, t);
  }

  lemma ForkSetKeeps(s: State, t: State, i: nat, c: nat)
    requires Inv(s) && IsForkSet(s, t, i, c)
    ensures Inv(t)
  {
    hide PlaceOk, FamilyOk, ProgressOk, ZombieOk, HistoryOk, ForksApart, InitWillWake, Dozing;
    forall k: nat | k < |s.procs| ensures |t.procs| == |s.procs| && SlotOk(t, k) {
      ForkSetPlace(s, t, i, c, k);
      ForkSetFamily(s, t, i, c, k);
      ForkSetProgress(s, t, i, c, k);
      ForkSetZombie(s, t, i, c, k);
    }
    ForkSetHistory(s, t, i, c);
    Assemble(t);
  }

  /** fork makes the new process runnable. */
  ghost predicate IsForkRun(s: State, t: State, i: nat, c: nat) {
    i < |s.procs| && c < |s.procs| && s.procs[i].pc == ForkRun(c) && Ready(s, i) && t == DoStep(s, i)
  }

  lemma ForkRunPlace(s: State, t: State, i: nat, c: nat, k: nat)
    requires Inv(s) && IsForkRun(s, t, i, c) && k < |s.procs|
    ensures |t.procs| == |s.procs| && PlaceOk(t, k)
  {
    hide ProgressOk, ZombieOk, HistoryOk, ForksApart;
    assert FamilyOk(s, i) && PlaceOk(s, k) && PlaceOk(s, i) && PlaceOk(s, c);
  }

  lemma ForkRunFamily(s: State, t: State, i: nat, c: nat, k: nat)
    requires Inv(s) && IsForkRun(s, t, i, c) && k < |s.procs|
    ensures |t.procs| == |s.procs| && FamilyOk(t, k)
  {
    hide ProgressOk, ZombieOk, HistoryOk;
    assert FamilyOk(s, k) && FamilyOk(s, i) && FamilyOk(s, c) && PlaceOk(s, k) && PlaceOk(s, i) && PlaceOk(s, c);
  }

  lemma ForkRunProgress(s: State, t: State, i: nat, c: nat, k: nat)
    requires Inv(s) && IsForkRun(s, t, i, c) && k < |s.procs|
    ensures |t.procs| == |s.procs| && ProgressOk(t, k)
  {
    hide ZombieOk, HistoryOk, ForksApart;
    assert ProgressOk(s, k) && ProgressOk(s, i) && ProgressOk(s, c) && PlaceOk(s, k) && PlaceOk(s, i) && PlaceOk(s, c) && FamilyOk(s, k) && FamilyOk(s, i) && FamilyOk(s, c);
    if s.procs[k].pc.Scan? {
      SameKids(s, t, k, s.procs[k].pc.j);
    }
  }

  lemma ForkRunZombie(s: State, t: State, i: nat, c: nat, k: nat)
    requires Inv(s) && IsForkRun(s, t, i, c) && k < |s.procs|
    ensures |t.procs| == |s.procs| && ZombieOk(t, k)
  {
    hide HistoryOk, ForksApart;
    assert ZombieOk(s, k) && ZombieOk(s, i) && ZombieOk(s, c) && PlaceOk(s, k) && PlaceOk(s, i) && PlaceOk(s, c) && ProgressOk(s, k) && ProgressOk(s, i) && ProgressOk(s, c) && FamilyOk(s, k) && FamilyOk(s, i) && FamilyOk(s, c);
  }

  lemma ForkRunHistory(s: State, t: State, i: nat, c: nat)
    requires Inv(s) && IsForkRun(s, t, i, c)
    ensures |t.procs| > INIT && t.nextpid > 0 && ForksApart(t) && HistoryOk(t)
  {
    hide ProgressOk, ZombieOk;
    assert FamilyOk(s, i) && PlaceOk(s, i) && PlaceOk(s, c);
    SameHistory(s, t);
  }

  lemma ForkRunKeeps(s: State, t: State, i: nat, c: nat)
    requires Inv(s) && IsForkRun(s, t, i, c)
    ensures Inv(t)
  {
    hide PlaceOk, FamilyOk, ProgressOk, ZombieOk, HistoryOk, ForksApart, InitWillWake, Dozing;
    forall k: nat | k < |s.procs| ensures |t.procs| == |s.procs| && SlotOk(t, k) {
      ForkRunPlace(s, t, i, c, k);
      ForkRunFamily(s, t, i, c, k);
      ForkRunProgress(s, t, i, c, k);
      ForkRunZombie(s, t, i, c, k);
    }
    ForkRunHistory(s, t, i, c);
    Assemble(t);
  }

  /** fork takes an unused slot. */
  ghost predicate IsCallFork(s: State, t: State, i: nat, c: nat) {
    Enabled(s, CallFork(i, c)) && t == Do(s, CallFork(i, c))
  }

  lemma CallForkPlace(s: State, t: State, i: nat, c: nat, k: nat)
    requires Inv(s) && IsCallFork(s, t, i, c) && k < |s.procs|
    ensures |t.procs| == |s.procs| && PlaceOk(t, k)
  {
    hide FamilyOk, ProgressOk, ZombieOk, HistoryOk, ForksApart;
    assert PlaceOk(s, k) && PlaceOk(s, i) && PlaceOk(s, c);
  }

  lemma CallForkFamily(s: State, t: State, i: nat, c: nat, k: nat)
    requires Inv(s) && IsCallFork(s, t, i, c) && k < |s.procs|
    ensures |t.procs| == |s.procs| && FamilyOk(t, k)
  {
    hide ProgressOk, ZombieOk, HistoryOk;
    assert FamilyOk(s, k) && FamilyOk(s, i) && FamilyOk(s, c) && PlaceOk(s, k) && PlaceOk(s, i) && PlaceOk(s, c);
  }

  lemma CallForkProgress(s: State, t: State, i: nat, c: nat, k: nat)
    requires Inv(s) && IsCallFork(s, t, i, c) && k < |s.procs|
    ensures |t.procs| == |s.procs| && ProgressOk(t, k)
  {
    hide ZombieOk, HistoryOk, ForksApart;
    assert ProgressOk(s, k) && ProgressOk(s, i) && ProgressOk(s, c) && PlaceOk(s, k) && PlaceOk(s, i) && PlaceOk(s, c) && FamilyOk(s, k) && FamilyOk(s, i) && FamilyOk(s, c);
    if s.procs[k].pc.Scan? {
      SameKids(s, t, k, s.procs[k].pc.j);
    }
  }

  lemma CallForkZombie(s: State, t: State, i: nat, c: nat, k: nat)
    requires Inv(s) && IsCallFork(s, t, i, c) && k < |s.procs|
    ensures |t.procs| == |s.procs| && ZombieOk(t, k)
  {
    hide HistoryOk, ForksApart;
    assert ZombieOk(s, k) && ZombieOk(s, i) && ZombieOk(s, c) && PlaceOk(s, k) && PlaceOk(s, i) && PlaceOk(s, c) && ProgressOk(s, k) && ProgressOk(s, i) && ProgressOk(s, c) && FamilyOk(s, k) && FamilyOk(s, i) && FamilyOk(s, c);
  }

  lemma CallForkHistory(s: State, t: State, i: nat, c: nat)
    requires Inv(s) && IsCallFork(s, t, i, c)
    ensures |t.procs| > INIT && t.nextpid > 0 && ForksApart(t) && HistoryOk(t)
  {
    hide ProgressOk, ZombieOk;
    assert PlaceOk(s, i) && FamilyOk(s, i);
    forall j: nat | j < |s.procs| && Forking(s.procs[j].pc) ensures s.procs[j].pc.c != c {
      assert FamilyOk(s, j);
    }
    NewPid(s, t, i, c);
  }

  lemma CallForkKeeps(s: State, t: State, i: nat, c: nat)
    requires Inv(s) && IsCallFork(s, t, i, c)
    ensures Inv(t)
  {
    hide PlaceOk, FamilyOk, ProgressOk, ZombieOk, HistoryOk, ForksApart, InitWillWake, Dozing;
    forall k: nat | k < |s.procs| ensures |t.procs| == |s.procs| && SlotOk(t, k) {
      CallForkPlace(s, t, i, c, k);
      CallForkFamily(s, t, i, c, k);
      CallForkProgress(s, t, i, c, k);
      CallForkZombie(s, t, i, c, k);
    }
    CallForkHistory(s, t, i, c);
    Assemble(t);
  }

  /** exit gives a child to init. */
  ghost predicate IsGive(s: State, t: State, i: nat, j: nat) {
    && i < |s.procs| && j < |s.procs| && s.procs[i].pc.Reparent? && s.procs[i].pc.j == j
    && s.procs[j].parent == Some(i) && t == DoStep(s, i)
  }

  lemma GivePlace(s: State, t: State, i: nat, j: nat, k: nat)
    requires Inv(s) && IsGive(s, t, i, j) && k < |s.procs|
    ensures |t.procs| == |s.procs| && PlaceOk(t, k)
  {
    hide FamilyOk, ProgressOk, ZombieOk, HistoryOk, ForksApart;
    assert PlaceOk(s, k) && PlaceOk(s, i) && PlaceOk(s, j) && PlaceOk(s, INIT);
  }

  lemma GiveFamily(s: State, t: State, i: nat, j: nat, k: nat)
    requires Inv(s) && IsGive(s, t, i, j) && k < |s.procs|
    ensures |t.procs| == |s.procs| && FamilyOk(t, k)
  {
    hide ProgressOk, ZombieOk, HistoryOk;
    assert FamilyOk(s, k) && FamilyOk(s, i) && FamilyOk(s, j) && FamilyOk(s, INIT) && PlaceOk(s, k) && PlaceOk(s, i) && PlaceOk(s, j) && PlaceOk(s, INIT);
  }

  lemma GiveProgress(s: State, t: State, i: nat, j: nat, k: nat)
    requires Inv(s) && IsGive(s, t, i, j) && k < |s.procs|
    ensures |t.procs| == |s.procs| && ProgressOk(t, k)
  {
    hide ZombieOk, HistoryOk, ForksApart;
    assert ProgressOk(s, k) && ProgressOk(s, i) && ProgressOk(s, j) && ProgressOk(s, INIT) && PlaceOk(s, k) && PlaceOk(s, i) && PlaceOk(s, j) && PlaceOk(s, INIT) && FamilyOk(s, k) && FamilyOk(s, i) && FamilyOk(s, j) && FamilyOk(s, INIT);
  }

  lemma GiveZombie(s: State, t: State, i: nat, j: nat, k: nat)
    requires Inv(s) && IsGive(s, t, i, j) && k < |s.procs|
    ensures |t.procs| == |s.procs| && ZombieOk(t, k)
  {
    hide HistoryOk, ForksApart;
    assert ZombieOk(s, k) && ZombieOk(s, i) && ZombieOk(s, j) && ZombieOk(s, INIT) && PlaceOk(s, k) && PlaceOk(s, i) && PlaceOk(s, j) && PlaceOk(s, INIT) && ProgressOk(s, k) && ProgressOk(s, i) && ProgressOk(s, j) && ProgressOk(s, INIT) && FamilyOk(s, k) && FamilyOk(s, i) && FamilyOk(s, j) && FamilyOk(s, INIT);
  }

  lemma GiveHistory(s: State, t: State, i: nat, j: nat)
    requires Inv(s) && IsGive(s, t, i, j)
    ensures |t.procs| > INIT && t.nextpid > 0 && ForksApart(t) && HistoryOk(t)
  {
    hide ProgressOk, ZombieOk, PlaceOk, FamilyOk;
    SameHistory(s, t);
  }

  lemma GiveKeeps(s: State, t: State, i: nat, j: nat)
    requires Inv(s) && IsGive(s, t, i, j)
    ensures Inv(t)
  {
    hide PlaceOk, FamilyOk, ProgressOk, ZombieOk, HistoryOk, ForksApart, InitWillWake, Dozing;
    forall k: nat | k < |s.procs| ensures |t.procs| == |s.procs| && SlotOk(t, k) {
      GivePlace(s, t, i, j, k);
      GiveFamily(s, t, i, j, k);
      GiveProgress(s, t, i, j, k);
      GiveZombie(s, t, i, j, k);
    }
    GiveHistory(s, t, i, j);
    Assemble(t);
  }

  /** exit makes the process a zombie. */
  ghost predicate IsZombie(s: State, t: State, i: nat) {
    i < |s.procs| && s.procs[i].pc.ExitZombie? && t == DoStep(s, i)
  }

  lemma ZombiePlace(s: State, t: State, i: nat, k: nat)
    requires Inv(s) && IsZombie(s, t, i) && k < |s.procs|
    ensures |t.procs| == |s.procs| && PlaceOk(t, k)
  {
    hide FamilyOk, ProgressOk, ZombieOk, HistoryOk, ForksApart;
    assert PlaceOk(s, k) && PlaceOk(s, i);
  }

  lemma ZombieFamily(s: State, t: State, i: nat, k: nat)
    requires Inv(s) && IsZombie(s, t, i) && k < |s.procs|
    ensures |t.procs| == |s.procs| && FamilyOk(t, k)
  {
    hide ZombieOk, HistoryOk;
    assert ProgressOk(s, i) && FamilyOk(s, k) && FamilyOk(s, i) && PlaceOk(s, k) && PlaceOk(s, i);
  }

  lemma ZombieProgress(s: State, t: State, i: nat, k: nat)
    requires Inv(s) && IsZombie(s, t, i) && k < |s.procs|
    ensures |t.procs| == |s.procs| && ProgressOk(t, k)
  {
    hide ZombieOk, HistoryOk, ForksApart;
    assert ProgressOk(s, k) && ProgressOk(s, i) && PlaceOk(s, k) && PlaceOk(s, i) && FamilyOk(s, k) && FamilyOk(s, i);
  }

  lemma ZombieZombie(s: State, t: State, i: nat, k: nat)
    requires Inv(s) && IsZombie(s, t, i) && k < |s.procs|
    ensures |t.procs| == |s.procs| && ZombieOk(t, k)
  {
    hide HistoryOk, ForksApart;
    assert ZombieOk(s, k) && ZombieOk(s, i) && PlaceOk(s, k) && PlaceOk(s, i) && ProgressOk(s, k) && ProgressOk(s, i) && FamilyOk(s, k) && FamilyOk(s, i);
  }

  lemma ZombieHistory(s: State, t: State, i: nat)
    requires Inv(s) && IsZombie(s, t, i)
    ensures |t.procs| > INIT && t.nextpid > 0 && ForksApart(t) && HistoryOk(t)
  {
    hide ProgressOk, ZombieOk, FamilyOk;
    assert PlaceOk(s, i);
    NewExit(s, t, i);
  }

  lemma ZombieKeeps(s: State, t: State, i: nat)
    requires Inv(s) && IsZombie(s, t, i)
    ensures Inv(t)
  {
    hide PlaceOk, FamilyOk, ProgressOk, ZombieOk, HistoryOk, ForksApart, InitWillWake, Dozing;
    forall k: nat | k < |s.procs| ensures |t.procs| == |s.procs| && SlotOk(t, k) {
      ZombiePlace(s, t, i, k);
      ZombieFamily(s, t, i, k);
      ZombieProgress(s, t, i, k);
      ZombieZombie(s, t, i, k);
    }
    ZombieHistory(s, t, i);
    Assemble(t);
  }

  /** wait frees a zombie child and reports it. */
  ghost predicate IsReap(s: State, t: State, i: nat, j: nat) {
    && i < |s.procs| && j < |s.procs| && s.procs[i].pc.Scan? && s.procs[i].pc.j == j && Ready(s, i)
    && s.procs[j].parent == Some(i) && s.procs[j].state.Zombie? && t == DoStep(s, i)
  }

  lemma ReapPlace(s: State, t: State, i: nat, j: nat, k: nat)
    requires Inv(s) && IsReap(s, t, i, j) && k < |s.procs|
    ensures |t.procs| == |s.procs| && PlaceOk(t, k)
  {
    hide FamilyOk, ProgressOk, ZombieOk, HistoryOk, ForksApart;
    assert PlaceOk(s, k) && PlaceOk(s, i) && PlaceOk(s, j);
  }

  lemma ReapFamily(s: State, t: State, i: nat, j: nat, k: nat)
    requires Inv(s) && IsReap(s, t, i, j) && k < |s.procs|
    ensures |t.procs| == |s.procs| && FamilyOk(t, k)
  {
    hide ProgressOk, ZombieOk, HistoryOk;
    assert FamilyOk(s, k) && FamilyOk(s, i) && FamilyOk(s, j) && PlaceOk(s, k) && PlaceOk(s, i) && PlaceOk(s, j);
  }

  lemma ReapProgress(s: State, t: State, i: nat, j: nat, k: nat)
    requires Inv(s) && IsReap(s, t, i, j) && k < |s.procs|
    ensures |t.procs| == |s.procs| && ProgressOk(t, k)
  {
    hide ZombieOk, HistoryOk, ForksApart;
    assert ProgressOk(s, k) && ProgressOk(s, i) && ProgressOk(s, j) && PlaceOk(s, k) && PlaceOk(s, i) && PlaceOk(s, j) && FamilyOk(s, k) && FamilyOk(s, i) && FamilyOk(s, j);
  }

  lemma ReapZombie(s: State, t: State, i: nat, j: nat, k: nat)
    requires Inv(s) && IsReap(s, t, i, j) && k < |s.procs|
    ensures |t.procs| == |s.procs| && ZombieOk(t, k)
  {
    hide HistoryOk, ForksApart;
    assert ZombieOk(s, k) && ZombieOk(s, i) && ZombieOk(s, j) && PlaceOk(s, k) && PlaceOk(s, i) && PlaceOk(s, j) && ProgressOk(s, k) && ProgressOk(s, i) && ProgressOk(s, j) && FamilyOk(s, k) && FamilyOk(s, i) && FamilyOk(s, j);
  }

  lemma ReapHistory(s: State, t: State, i: nat, j: nat)
    requires Inv(s) && IsReap(s, t, i, j)
    ensures |t.procs| > INIT && t.nextpid > 0 && ForksApart(t) && HistoryOk(t)
  {
    hide ProgressOk, ZombieOk, FamilyOk;
    assert PlaceOk(s, i) && PlaceOk(s, j);
    NewReport(s, t, j);
  }

  lemma ReapKeeps(s: State, t: State, i: nat, j: nat)
    requires Inv(s) && IsReap(s, t, i, j)
    ensures Inv(t)
  {
    hide PlaceOk, FamilyOk, ProgressOk, ZombieOk, HistoryOk, ForksApart, InitWillWake, Dozing;
    forall k: nat | k < |s.procs| ensures |t.procs| == |s.procs| && SlotOk(t, k) {
      ReapPlace(s, t, i, j, k);
      ReapFamily(s, t, i, j, k);
      ReapProgress(s, t, i, j, k);
      ReapZombie(s, t, i, j, k);
    }
    ReapHistory(s, t, i, j);
    Assemble(t);
  }

  /** A slot that was not a zombie changes, and keeps its pid if it exits. */
  lemma ZombiesStay(s: State, t: State, i: nat, added: set<nat>)
    requires UnreportedOk(s) && i < |s.procs| == |t.procs| && !s.procs[i].state.Zombie? && t.reported == s.reported
    requires forall x :: 0 <= x < |s.procs| && s.procs[x].state.Zombie? ==> t.procs[x].state.Zombie? && t.procs[x].pid == s.procs[x].pid
    requires forall id :: id in t.exited ==> id in s.exited || id in added
    requires forall id :: id in added ==> id == t.procs[i].pid && t.procs[i].state.Zombie?
    ensures UnreportedOk(t)
  {
    forall id | id in t.exited && id !in t.reported ensures HasZombie(t, id) {
      if id in added {
        assert t.procs[i].pid == id;
      } else {
        assert HasZombie(s, id);
        var x :| 0 <= x < |s.procs| && s.procs[x].state.Zombie? && s.procs[x].pid == id;
        assert t.procs[x].pid == id;
      }
    }
  }

  lemma NewPid(s: State, t: State, i: nat, c: nat)
    requires HistoryOk(s) && s.nextpid > 0 && i < |s.procs| && c < |s.procs| == |t.procs| && s.procs[c].state.Unused?
    requires t.procs[c].state.Used? && t.procs[c].pid == s.nextpid && t.nextpid == s.nextpid + 1 && t.exited == s.exited && t.reported == s.reported
    requires forall x :: 0 <= x < |s.procs| && x != c ==>
               t.procs[x].state == s.procs[x].state && t.procs[x].pid == s.procs[x].pid && t.procs[x].xstate == s.procs[x].xstate
    ensures HistoryOk(t)
  {
    ZombiesStay(s, t, c, {});
    hide UnreportedOk;
  }

  lemma NewExit(s: State, t: State, i: nat)
    requires HistoryOk(s) && i < |s.procs| == |t.procs| && s.procs[i].state.Running? && t.procs[i].state.Zombie?
    requires t.procs[i].pid == s.procs[i].pid && t.nextpid == s.nextpid && t.reported == s.reported
    requires t.exited == s.exited[s.procs[i].pid := t.procs[i].xstate]
    requires forall x :: 0 <= x < |s.procs| && x != i ==> t.procs[x] == s.procs[x]
    ensures HistoryOk(t)
  {
    ZombiesStay(s, t, i, {s.procs[i].pid});
    hide UnreportedOk;
  }

  lemma NewReport(s: State, t: State, j: nat)
    requires HistoryOk(s) && j < |s.procs| == |t.procs| && s.procs[j].state.Zombie? && t.procs[j].state.Unused? && t.procs[j].pid == 0
    requires t.nextpid == s.nextpid && t.exited == s.exited && t.reported == s.reported[s.procs[j].pid := s.procs[j].xstate]
    requires forall x :: 0 <= x < |s.procs| && x != j ==>
               t.procs[x].state == s.procs[x].state && t.procs[x].pid == s.procs[x].pid && t.procs[x].xstate == s.procs[x].xstate
    ensures HistoryOk(t)
  {
    forall id | id in t.exited && id !in t.reported ensures HasZombie(t, id) {
      var x :| 0 <= x < |s.procs| && s.procs[x].state.Zombie? && s.procs[x].pid == id;
      assert t.procs[x].pid == id;
    }
  }

  // ---------------------------------------------------------------- wakeups

  lemma WokenMoves(s: State, t: State, i: nat, k: nat, chan: nat)
    requires |s.procs| > INIT && k < |s.procs| && t == Woken(s, i, k, chan) && PlaceOk(s, k) && ProgressOk(s, k)
    requires k != i ==> !s.procs[k].plock
    ensures MovesSafely(s, t, k) && PlaceOk(t, k) && ProgressOk(t, k) && (k != i && chan == k ==> !Dozing(t, k))
    ensures forall x :: 0 <= x < |s.procs| ==> t.procs[x].pc == s.procs[x].pc && t.procs[x].parent == s.procs[x].parent && (Dozing(t, x) ==> Dozing(s, x))
  {
  }

  lemma WakeInitMoves(s: State, u: State, t: State, i: nat, k: nat)
    requires |s.procs| > INIT && i < |s.procs| && s.procs[i].pc.WakeInit? && s.procs[i].pc.k == k < |s.procs| == |u.procs|
    requires u == Woken(s, i, k, INIT) && t == At(u, i, WakeInit(s.procs[i].pc.status, s.procs[i].pc.j, k + 1)) && i != INIT
    requires PlaceOk(u, i) && ProgressOk(u, i) && (k == INIT ==> !Dozing(u, INIT))
    ensures MovesSafely(u, t, i) && PlaceOk(t, i) && ProgressOk(t, i)
  {
  }

  lemma WakeParentMoves(u: State, t: State, i: nat, k: nat)
    requires |u.procs| > INIT && i < |u.procs| && u.procs[i].pc.WakeParent? && u.procs[i].pc.k == k < |u.procs|
    requires t == At(u, i, WakeParent(u.procs[i].pc.status, k + 1))
    requires PlaceOk(u, i) && ProgressOk(u, i) && (u.procs[i].parent == Some(k) ==> !Dozing(u, k))
    ensures MovesSafely(u, t, i) && PlaceOk(t, i) && ProgressOk(t, i)
  {
  }

  lemma WakeInitKeeps(s: State, t: State, i: nat)
    requires Inv(s) && i < |s.procs| && s.procs[i].pc.WakeInit? && s.procs[i].pc.k < |s.procs| && Ready(s, i) && t == DoStep(s, i)
    ensures Inv(t)
  {
    var k := s.procs[i].pc.k;
    var u := Woken(s, i, k, INIT);
    assert PlaceOk(s, i) && PlaceOk(s, k) && ProgressOk(s, k);
    WokenMoves(s, u, i, k, INIT);
    hide PlaceOk, FamilyOk, ProgressOk, ZombieOk, HistoryOk, ForksApart, MovesSafely;
    MoveKeeps(s, u, k);
    assert PlaceOk(u, i) && ProgressOk(u, i);
    WakeInitMoves(s, u, t, i, k);
    MoveKeeps(u, t, i);
  }

  lemma WakeParentKeeps(s: State, t: State, i: nat)
    requires Inv(s) && i < |s.procs| && s.procs[i].pc.WakeParent? && s.procs[i].pc.k < |s.procs| && Ready(s, i) && t == DoStep(s, i)
    ensures Inv(t)
  {
    hide PlaceOk, FamilyOk, ProgressOk, ZombieOk, HistoryOk, ForksApart, MovesSafely;
    var k := s.procs[i].pc.k;
    assert PlaceOk(s, i) && ProgressOk(s, i) && PlaceOk(s, k) && ProgressOk(s, k) && FamilyOk(s, i);
    if s.procs[i].parent.Some? {
      var u := Woken(s, i, k, s.procs[i].parent.value);
      NotOwnParent(s, i);
      WokenMoves(s, u, i, k, s.procs[i].parent.value);
      MoveKeeps(s, u, k);
      assert PlaceOk(u, i) && ProgressOk(u, i);
      WakeParentMoves(u, t, i, k);
      MoveKeeps(u, t, i);
    } else {
      WakeParentMoves(s, t, i, k);
      MoveKeeps(s, t, i);
    }
  }

  lemma NotOwnParent(s: State, i: nat)
    requires i < |s.procs| && FamilyOk(s, i)
    ensures s.procs[i].parent != Some(i)
  {
  }

  // ---------------------------------------------------------------- every step

  lemma StepKeeps(s: State, i: nat)
    requires Inv(s) && i < |s.procs| && Ready(s, i)
    ensures Inv(DoStep(s, i))
  {
    hide PlaceOk, FamilyOk, ProgressOk, ZombieOk, HistoryOk, ForksApart, MovesSafely;
    var t, pc, n := DoStep(s, i), s.procs[i].pc, |s.procs|;
    assert PlaceOk(s, i) && ProgressOk(s, i) && FamilyOk(s, i);
    if pc.ForkSet? {
      ForkSetKeeps(s, t, i, pc.c);
    } else if pc.ForkRun? {
      ForkRunKeeps(s, t, i, pc.c);
    } else if pc.Reparent? && pc.j < n && s.procs[pc.j].parent == Some(i) {
      GiveKeeps(s, t, i, pc.j);
    } else if pc.WakeInit? && pc.k < n {
      WakeInitKeeps(s, t, i);
    } else if pc.WakeParent? && pc.k < n {
      WakeParentKeeps(s, t, i);
    } else if pc.ExitZombie? {
      ZombieKeeps(s, t, i);
    } else if pc.Scan? && pc.j < n && s.procs[pc.j].parent == Some(i) && s.procs[pc.j].state.Zombie? {
      ReapKeeps(s, t, i, pc.j);
    } else {
      if pc.ForkWant? || pc.ForkRelease? {
        ForkMoves(s, t, i);
      } else if pc.ExitWant? || pc.Reparent? {
        ReparentMoves(s, t, i);
      } else if pc.WakeInit? || pc.WakeParent? {
        WakeMoves(s, t, i);
      } else if pc.ExitLock? || pc.ExitRelease? || pc.Gone? {
        ExitMoves(s, t, i);
      } else if pc.WaitWant? || pc.WaitRelease? {
        WaitMoves(s, t, i);
      } else if pc.Scan? {
        ScanMoves(s, t, i);
      } else if pc.SleepLockP? || pc.SleepRelease? {
        DozeMoves(s, t, i);
      } else {
        SleepMoves(s, t, i);
      }
      MoveKeeps(s, t, i);
    }
  }

  lemma EventKeeps(s: State, e: Event)
    requires Inv(s) && Enabled(s, e)
    ensures Inv(Do(s, e))
  {
    hide PlaceOk, FamilyOk, ProgressOk, ZombieOk, HistoryOk, ForksApart, MovesSafely, DoStep;
    if e.Step? {
      StepKeeps(s, e.i);
    } else if e.CallFork? {
      CallForkKeeps(s, Do(s, e), e.i, e.c);
    } else {
      assert PlaceOk(s, e.i) && ProgressOk(s, e.i) && FamilyOk(s, e.i);
      CallMoves(s, Do(s, e), e);
      MoveKeeps(s, Do(s, e), e.i);
    }
  }

  // ---------------------------------------------------------------- runs

  /** init alone. */
  predicate Init(s: State) {
    && |s.procs| > INIT && s.wlock.None? && s.nextpid == 2 && s.exited == map[] && s.reported == map[]
    && s.procs[INIT] == Proc(Running, 1, None, 0, None, false, false, User)
    && forall i :: 0 <= i < |s.procs| && i != INIT ==> s.procs[i] == Proc(Unused, 0, None, 0, None, false, false, User)
  }

  ghost predicate Reaches(s: State, es: seq<Event>, t: State)
    decreases |es|
  {
    if es == [] then s == t else Enabled(s, es[0]) && Reaches(Do(s, es[0]), es[1..], t)
  }

  lemma {:induction false} RunKeeps(s: State, es: seq<Event>, t: State)
    requires Inv(s) && Reaches(s, es, t)
    ensures Inv(t)
    decreases |es|
  {
    if es != [] {
      EventKeeps(s, es[0]);
      RunKeeps(Do(s, es[0]), es[1..], t);
    }
  }

  lemma RunFromInit(s: State, es: seq<Event>, t: State)
    requires Init(s) && Reaches(s, es, t)
    ensures Inv(t)
  {
    RunKeeps(s, es, t);
  }

  /** Over every run: whenever wait_lock is free, no parent sleeps in wait, or is on
      the way to sleep, while it has a zombie child; that goes for init too, which is
      given the children of others. */
  lemma NoForgottenZombie(s: State, es: seq<Event>, t: State, c: nat, q: nat)
    requires Init(s) && Reaches(s, es, t) && t.wlock.None?
    requires c < |t.procs| && t.procs[c].state.Zombie? && t.procs[c].parent == Some(q)
    ensures !Dozing(t, q)
  {
    RunFromInit(s, es, t);
    assert ZombieOk(t, c);
  }

  /** No process, live or zombie, has a parent that is not live; and all but init have
      one. */
  lemma ParentsAreLive(s: State, es: seq<Event>, t: State, c: nat)
    requires Init(s) && Reaches(s, es, t) && c < |t.procs| && (Alive(t.procs[c]) || t.procs[c].state.Zombie?) && c != INIT
    ensures t.procs[c].parent.Some? && t.procs[c].parent.value < |t.procs| && Alive(t.procs[t.procs[c].parent.value])
  {
    RunFromInit(s, es, t);
    assert FamilyOk(t, c);
  }

  /** wait gives up after a whole scan only if the process has no children or is killed;
      otherwise it goes to sleep. */
  lemma WaitGivesUp(s: State, es: seq<Event>, t: State, i: nat)
    requires Init(s) && Reaches(s, es, t) && i < |t.procs| && t.procs[i].pc.Scan? && t.procs[i].pc.j >= |t.procs|
    ensures DoStep(t, i).procs[i].pc.WaitRelease? <==> t.procs[i].killed || forall c :: 0 <= c < |t.procs| ==> t.procs[c].parent != Some(i)
    ensures !DoStep(t, i).procs[i].pc.WaitRelease? ==> DoStep(t, i).procs[i].pc.SleepLockP?
  {
    RunFromInit(s, es, t);
    assert ProgressOk(t, i);
    hide Inv, Reaches;
  }

  /** Only a wait that finds a zombie child reports. */
  lemma WhoReports(t: State, i: nat)
    requires i < |t.procs| && Ready(t, i)
    ensures var pc, u := t.procs[i].pc, DoStep(t, i);
            if pc.Scan? && pc.j < |t.procs| && t.procs[pc.j].parent == Some(i) && t.procs[pc.j].state.Zombie?
            then u.reported == t.reported[t.procs[pc.j].pid := t.procs[pc.j].xstate] else u.reported == t.reported
  {
  }

  /** Each exit is reported once, by wait of the parent, with its own status: a report
      is of a pid not reported before, and carries the status that process exited
      with. */
  lemma ReportedOnce(s: State, es: seq<Event>, t: State, i: nat)
    requires Init(s) && Reaches(s, es, t) && i < |t.procs| && Ready(t, i)
    ensures var u := DoStep(t, i);
            u.reported == t.reported
            || exists id :: id in t.exited && id !in t.reported && u.reported == t.reported[id := t.exited[id]]
  {
    RunFromInit(s, es, t);
    WhoReports(t, i);
    hide PlaceOk, FamilyOk, ProgressOk, ZombieOk, ForksApart, DoStep;
    var pc := t.procs[i].pc;
    if pc.Scan? && pc.j < |t.procs| && t.procs[pc.j].parent == Some(i) && t.procs[pc.j].state.Zombie? {
      var id := t.procs[pc.j].pid;
      assert id in t.exited && id !in t.reported;
    }
  }

  /** An exit not yet reported is still there to be found by a live parent. */
  lemma ExitIsNotLost(s: State, es: seq<Event>, t: State, id: nat)
    requires Init(s) && Reaches(s, es, t) && id in t.exited && id !in t.reported
    ensures exists c :: 0 <= c < |t.procs| && t.procs[c].state.Zombie? && t.procs[c].pid == id && t.procs[c].xstate == t.exited[id]
                        && t.procs[c].parent.Some? && t.procs[c].parent.value < |t.procs| && Alive(t.procs[t.procs[c].parent.value])
  {
    RunFromInit(s, es, t);
    assert HasZombie(t, id);
    var c :| 0 <= c < |t.procs| && t.procs[c].state.Zombie? && t.procs[c].pid == id;
    assert PlaceOk(t, c) && FamilyOk(t, c);
  }
}
