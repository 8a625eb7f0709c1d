/** Sleep locks over sleep and wakeup (kernel/sleeplock.c, kernel/proc.c), as steps of
    many processes.  The lock's inner spin lock and each process's p->lock are taken
    and given back one step at a time; a region that takes a p->lock and gives it back
    without waiting in between is one step. */
module SleepLock {

  datatype RunState = Running | Runnable | Sleeping

  /** Where a process is.  Between SleepRelease and Switch it holds its own p->lock,
      which the scheduler gives back (Away) after the switch. */
  datatype Pc =
    | Outside
    | Want | Check | Got
    | SleepLockP | SleepRelease | SleepSet | Switch | Away | Back
    | ReleaseWant | ReleaseClear | Wakeup(j: nat) | ReleaseDone

  /** onLock: p->chan is the sleep lock.  plock: p->lock is held. */
  datatype Proc = Proc(state: RunState, onLock: bool, plock: bool, pc: Pc)

  datatype Option<T> = None | Some(value: T)

  /** inner: who holds lk->lk; locked and pid are the fields of the sleep lock. */
  datatype State = State(procs: seq<Proc>, inner: Option<nat>, locked: bool, pid: Option<nat>)

  datatype Event =
    | Step(i: nat)
    | Kill(i: nat)
    | Acquire(i: nat)
    | Release(i: nat)

  /** The steps a process waits for: a lock that is free, or the scheduler choosing it. */
  predicate Ready(s: State, i: nat)
    requires i < |s.procs|
  {
    var p := s.procs[i];
    match p.pc
    case Outside => false
    case Want => s.inner.None?
    case ReleaseWant => s.inner.None?
    case Back => s.inner.None?
    case SleepLockP => !p.plock
    case Away => p.plock || p.state.Runnable?
    case Wakeup(j) => j < |s.procs| && j != i ==> !s.procs[j].plock
    case _ => true
  }

  predicate Enabled(s: State, e: Event) {
    match e
    case Step(i) => i < |s.procs| && Ready(s, i)
    case Kill(i) => i < |s.procs| && !s.procs[i].plock
    case Acquire(i) => i < |s.procs| && s.procs[i].pc.Outside?
    case Release(i) => i < |s.procs| && s.procs[i].pc.Outside?
  }

  /** Among the events so far, the last call of process i is acquiresleep. */
  predicate Acquired(es: seq<Event>, i: nat)
    decreases |es|
  {
    es != [] &&
    var e := es[|es| - 1];
    e == Acquire(i) || (e != Release(i) && Acquired(es[..|es| - 1], i))
  }

  /** The callers' side: a process calls acquiresleep and releasesleep in turn. */
  predicate Allowed(past: seq<Event>, e: Event) {
    (e.Acquire? ==> !Acquired(past, e.i)) && (e.Release? ==> Acquired(past, e.i))
  }

  function With(s: State, i: nat, p: Proc): State
    requires i < |s.procs|
  {
    s.(procs := s.procs[i := p])
  }

  function Do(s: State, e: Event): State
    requires Enabled(s, e)
  {
    match e
    case Acquire(i) => With(s, i, s.procs[i].(pc := Want))
    case Release(i) => With(s, i, s.procs[i].(pc := ReleaseWant))
    case Kill(i) => if s.procs[i].state.Sleeping? then With(s, i, s.procs[i].(state := Runnable)) else s
    case Step(i) => DoStep(s, i)
  }

  function DoStep(s: State, i: nat): State
    requires i < |s.procs| && Ready(s, i)
  {
    var p := s.procs[i];
    match p.pc
    // acquiresleep
    case Want => With(s, i, p.(pc := Check)).(inner := Some(i))
    case Check =>
      if s.locked then With(s, i, p.(pc := SleepLockP))
      else With(s, i, p.(pc := Got)).(locked := true, pid := Some(i))
    case Got => With(s, i, p.(pc := Outside)).(inner := None)
    // sleep(lk, &lk->lk)
    case SleepLockP => With(s, i, p.(pc := SleepRelease, plock := true))
    case SleepRelease => With(s, i, p.(pc := SleepSet)).(inner := None)
    case SleepSet => With(s, i, p.(pc := Switch, onLock := true, state := Sleeping))
    case Switch => With(s, i, p.(pc := Away))
    // the scheduler gives p->lock back, and later takes it to resume the process
    case Away =>
      if p.plock then With(s, i, p.(plock := false))
      else With(s, i, p.(pc := Back, state := Running, onLock := false))
    case Back => With(s, i, p.(pc := Check)).(inner := Some(i))
    // releasesleep
    case ReleaseWant => With(s, i, p.(pc := ReleaseClear)).(inner := Some(i))
    case ReleaseClear => With(s, i, p.(pc := Wakeup(0))).(locked := false, pid := None)
    case Wakeup(j) =>
      if j >= |s.procs| then With(s, i, p.(pc := ReleaseDone))
      else
        var t := With(s, i, p.(pc := Wakeup(j + 1)));
        if j != i && s.procs[j].state.Sleeping? && s.procs[j].onLock then With(t, j, t.procs[j].(state := Runnable)) else t
    case ReleaseDone => With(s, i, p.(pc := Outside)).(inner := None)
  }

  // ---------------------------------------------------------------- invariant

  /** The places where a process holds the inner lock. */
  predicate HoldsInner(pc: Pc) {
    pc.Check? || pc.Got? || pc.SleepLockP? || pc.SleepRelease? || pc.ReleaseClear? || pc.Wakeup? || pc.ReleaseDone?
  }

  /** The process sleeps on the lock, or is on the way there without the inner lock. */
  predicate Dozing(p: Proc) {
    p.pc.SleepSet? || (p.state.Sleeping? && p.onLock)
  }

  /** A process about to be reached by the wakeup of a releasesleep under way. */
  ghost predicate WillWake(s: State, i: nat) {
    s.inner.Some? && s.inner.value < |s.procs|
    && s.procs[s.inner.value].pc.Wakeup? && s.procs[s.inner.value].pc.j <= i
  }

  /** The sleep lock is closed and names process i. */
  predicate HasLock(s: State, i: nat) {
    s.locked && s.pid == Some(i)
  }

  /** What holds of process i; called says that its last call was acquiresleep. */
  ghost predicate ProcOk(s: State, i: nat, called: bool)
    requires i < |s.procs|
  {
    var p := s.procs[i];
    && (HoldsInner(p.pc) <==> s.inner == Some(i))
    && (p.pc.Outside? ==> (called <==> HasLock(s, i)))
    && (p.pc.Got? ==> called && HasLock(s, i))
    && (p.pc.ReleaseWant? || p.pc.ReleaseClear? ==> !called && HasLock(s, i))
    && (p.pc.Wakeup? || p.pc.ReleaseDone? ==> !called && !HasLock(s, i))
    && (Acquiring(p.pc) ==> called && !HasLock(s, i))
    && (p.pc.SleepLockP? || p.pc.SleepRelease? ==> s.locked)
    && (p.plock ==> p.pc.SleepRelease? || p.pc.SleepSet? || p.pc.Switch? || p.pc.Away?)
    && (p.pc.SleepRelease? || p.pc.SleepSet? || p.pc.Switch? ==> p.plock)
    && (!p.state.Running? ==> p.pc.Switch? || p.pc.Away?)
    && (p.pc.Switch? || p.pc.Away? ==> p.onLock && !p.state.Running?)
    && (Dozing(p) ==> s.locked || WillWake(s, i))
  }

  /** In acquiresleep, before the lock is taken. */
  predicate Acquiring(pc: Pc) {
    pc.Want? || pc.Check? || pc.SleepLockP? || pc.SleepRelease? || pc.SleepSet? || pc.Switch? || pc.Away? || pc.Back?
  }

  ghost predicate Inv(s: State, past: seq<Event>) {
    && (s.inner.Some? ==> s.inner.value < |s.procs|)
    && (s.locked <==> s.pid.Some?) && (s.pid.Some? ==> s.pid.value < |s.procs|)
    && forall i: nat :: i < |s.procs| ==> ProcOk(s, i, Acquired(past, i))
  }

  lemma AcquiredNext(past: seq<Event>, e: Event, i: nat)
    ensures Acquired(past + [e], i) <==> e == Acquire(i) || (e != Release(i) && Acquired(past, i))
  {
    assert (past + [e])[..|past|] == past;
  }

  lemma LockSteps(s: State, i: nat, k: nat, a: bool, b: bool)
    requires i < |s.procs| && k < |s.procs| && Ready(s, i) && ProcOk(s, i, a) && ProcOk(s, k, b) && (i == k ==> a == b)
    requires (s.locked <==> s.pid.Some?) && (s.inner.Some? ==> s.inner.value < |s.procs|)
    requires var pc := s.procs[i].pc; pc.Want? || pc.Check? || pc.Got? || pc.Back?
    ensures ProcOk(DoStep(s, i), k, b)
  {
  }

  lemma SleepSteps(s: State, i: nat, k: nat, a: bool, b: bool)
    requires i < |s.procs| && k < |s.procs| && Ready(s, i) && ProcOk(s, i, a) && ProcOk(s, k, b) && (i == k ==> a == b)
    requires (s.locked <==> s.pid.Some?) && (s.inner.Some? ==> s.inner.value < |s.procs|)
    requires var pc := s.procs[i].pc; pc.SleepLockP? || pc.SleepRelease? || pc.SleepSet? || pc.Switch? || pc.Away?
    ensures ProcOk(DoStep(s, i), k, b)
  {
  }

  lemma ReleaseSteps(s: State, i: nat, k: nat, a: bool, b: bool)
    requires i < |s.procs| && k < |s.procs| && Ready(s, i) && ProcOk(s, i, a) && ProcOk(s, k, b) && (i == k ==> a == b)
    requires (s.locked <==> s.pid.Some?) && (s.inner.Some? ==> s.inner.value < |s.procs|)
    requires var pc := s.procs[i].pc; pc.ReleaseWant? || pc.ReleaseClear? || pc.ReleaseDone? || pc.Wakeup?
    ensures ProcOk(DoStep(s, i), k, b)
  {
  }

  lemma OtherSteps(s: State, e: Event, k: nat, b: bool, b': bool)
    requires Enabled(s, e) && !e.Step? && k < |s.procs| && ProcOk(s, k, b)
    requires b' <==> e == Acquire(k) || (e != Release(k) && b)
    requires (e == Acquire(k) ==> !b) && (e == Release(k) ==> b)
    ensures ProcOk(Do(s, e), k, b')
  {
  }

  /** Every step keeps the invariant. */
  lemma StepKeeps(s: State, past: seq<Event>, e: Event)
    requires Inv(s, past) && Enabled(s, e) && Allowed(past, e)
    ensures Inv(Do(s, e), past + [e])
  {
    var t := Do(s, e);
    forall k: nat | k < |t.procs| ensures ProcOk(t, k, Acquired(past + [e], k)) {
      hide ProcOk, Acquired;
      AcquiredNext(past, e, k);
      var b := Acquired(past, k);
      match e
      case Step(i) =>
        var pc, a := s.procs[i].pc, Acquired(past, i);
        if pc.ReleaseWant? || pc.ReleaseClear? || pc.ReleaseDone? || pc.Wakeup? {
          ReleaseSteps(s, i, k, a, b);
        } else if pc.Want? || pc.Check? || pc.Got? || pc.Back? {
          LockSteps(s, i, k, a, b);
        } else {
          SleepSteps(s, i, k, a, b);
        }
      case _ => OtherSteps(s, e, k, b, Acquired(past + [e], k));
    }
    hide ProcOk;
  }

  // ---------------------------------------------------------------- runs

  /** n processes outside, and the lock open. */
  predicate Init(s: State) {
    && s.inner.None? && !s.locked && s.pid.None?
    && forall i :: 0 <= i < |s.procs| ==> s.procs[i] == Proc(Running, false, false, Outside)
  }

  /** The state after a series of steps that can happen, after those of the past. */
  ghost predicate Reaches(s: State, past: seq<Event>, es: seq<Event>, t: State)
    decreases |es|
  {
    if es == [] then s == t
    else Enabled(s, es[0]) && Allowed(past, es[0]) && Reaches(Do(s, es[0]), past + [es[0]], es[1..], t)
  }

  lemma {:induction false} RunKeeps(s: State, past: seq<Event>, es: seq<Event>, t: State)
    requires Inv(s, past) && Reaches(s, past, es, t)
    ensures Inv(t, past + es)
    decreases |es|
  {
    if es == [] {
      assert past + es == past;
    } else {
      StepKeeps(s, past, es[0]);
      RunKeeps(Do(s, es[0]), past + [es[0]], es[1..], t);
      assert past + [es[0]] + es[1..] == past + es;
    }
  }

  lemma RunFromInit(s: State, es: seq<Event>, t: State)
    requires Init(s) && Reaches(s, [], es, t)
    ensures Inv(t, es)
  {
    RunKeeps(s, [], es, t);
    assert [] + es == es;
  }

  /** No lost wakeup: over every interleaving, whenever the inner lock is free and the
      sleep lock is open, nobody sleeps on it, nor is on the way to sleep. */
  lemma NoLostWakeup(s: State, es: seq<Event>, t: State, i: nat)
    requires Init(s) && Reaches(s, [], es, t) && i < |t.procs|
    ensures t.inner.None? && !t.locked ==> !(t.procs[i].state.Sleeping? && t.procs[i].onLock) && !t.procs[i].pc.SleepSet?
  {
    RunFromInit(s, es, t);
    assert ProcOk(t, i, Acquired(es, i));
  }

  /** A process that has returned from its calls has the lock exactly when the last of
      them was acquiresleep. */
  lemma ReturnMeansLock(s: State, es: seq<Event>, t: State, i: nat)
    requires Init(s) && Reaches(s, [], es, t) && i < |t.procs| && t.procs[i].pc.Outside?
    ensures Acquired(es, i) <==> t.locked && t.pid == Some(i)
  {
    RunFromInit(s, es, t);
    assert ProcOk(t, i, Acquired(es, i));
  }

  /** Mutual exclusion: of all processes that called acquiresleep and not yet
      releasesleep, at most one has returned. */
  lemma MutualExclusion(s: State, es: seq<Event>, t: State, i: nat, j: nat)
    requires Init(s) && Reaches(s, [], es, t) && i < |t.procs| && j < |t.procs| && i != j
    requires Acquired(es, i) && Acquired(es, j)
    ensures !t.procs[i].pc.Outside? || !t.procs[j].pc.Outside?
  {
    if t.procs[i].pc.Outside? {
      ReturnMeansLock(s, es, t, i);
      if t.procs[j].pc.Outside? {
        ReturnMeansLock(s, es, t, j);
      }
    }
  }

  /** Some more steps of process i lead from s to t. */
  ghost predicate Alone(s: State, i: nat, n: nat, t: State)
    decreases n
  {
    if n == 0 then s == t else i < |s.procs| && Ready(s, i) && Alone(DoStep(s, i), i, n - 1, t)
  }

  /** A call of acquiresleep on an open lock returns with it, and so does one that was
      woken and finds it open. */
  lemma OpenLockIsTaken(s: State, i: nat) returns (n: nat, t: State)
    requires i < |s.procs| && (s.procs[i].pc.Want? || s.procs[i].pc.Back?) && s.inner.None? && !s.locked
    ensures Alone(s, i, n, t) && |t.procs| == |s.procs| && t.procs[i].pc.Outside? && t.locked && t.pid == Some(i) && t.inner.None?
    ensures forall j :: 0 <= j < |s.procs| && j != i ==> t.procs[j] == s.procs[j]
  {
    var a := DoStep(s, i);
    var b := DoStep(a, i);
    t := DoStep(b, i);
    n := 3;
    assert Alone(t, i, 0, t) && Alone(b, i, 1, t) && Alone(a, i, 2, t);
  }

  /** Every process before j that sleeps on the lock in s can run in t. */
  ghost predicate Roused(s: State, t: State, i: nat, j: nat) {
    && |t.procs| == |s.procs|
    && forall k :: 0 <= k < |s.procs| && k != i ==>
         t.procs[k] == if k < j && s.procs[k].state.Sleeping? && s.procs[k].onLock then s.procs[k].(state := Runnable) else s.procs[k]
  }

  lemma {:induction false} WakeupRest(s: State, u: State, i: nat, j: nat) returns (n: nat, t: State)
    requires i < |u.procs| && u.procs[i].pc == Wakeup(j) && j <= |u.procs| && Roused(s, u, i, j) && !u.locked
    requires forall k :: 0 <= k < |u.procs| && k != i ==> !u.procs[k].plock
    ensures Alone(u, i, n, t) && i < |t.procs| && t.procs[i].pc.Outside? && t.inner.None? && !t.locked && Roused(s, t, i, |s.procs|)
    decreases |u.procs| - j
  {
    var a := DoStep(u, i);
    if j == |u.procs| {
      t := DoStep(a, i);
      n := 2;
      assert Alone(t, i, 0, t) && Alone(a, i, 1, t);
    } else {
      assert Roused(s, a, i, j + 1);
      var m;
      m, t := WakeupRest(s, a, i, j + 1);
      n := m + 1;
    }
  }

  /** A call of releasesleep opens the lock and makes every sleeper runnable. */
  lemma ReleaseIsComplete(s: State, i: nat) returns (n: nat, t: State)
    requires i < |s.procs| && s.procs[i].pc.ReleaseWant? && s.inner.None? && forall k :: 0 <= k < |s.procs| && k != i ==> !s.procs[k].plock
    ensures Alone(s, i, n, t) && i < |t.procs| && t.procs[i].pc.Outside? && t.inner.None? && !t.locked && Roused(s, t, i, |s.procs|)
  {
    var a := DoStep(s, i);
    var b := DoStep(a, i);
    var m;
    m, t := WakeupRest(s, b, i, 0);
    assert Alone(b, i, m, t) && Alone(a, i, m + 1, t);
    n := m + 2;
  }

  /** A process that found the lock closed and sleeps can be reached by the wakeup of
      whoever opens it: the lock is closed, or that wakeup has not passed it yet. */
  lemma SleeperIsReached(s: State, es: seq<Event>, t: State, i: nat)
    requires Init(s) && Reaches(s, [], es, t) && i < |t.procs| && t.procs[i].state.Sleeping? && t.procs[i].onLock
    ensures t.locked || WillWake(t, i)
  {
    RunFromInit(s, es, t);
    assert ProcOk(t, i, Acquired(es, i));
  }
}
