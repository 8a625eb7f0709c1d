/** fork, wait and exit get done: what the table holds when the steps of one process have
    carried a call to its end. */
module ExitService {
  import opened ExitWait

  /** n steps of process i lead from s to t. */
  ghost predicate Alone(s: State, i: nat, n: nat, t: State)
    decreases n
  {
    if n == 0 then s == t else i < |s.procs| && Ready(s, i) && Alone(DoStep(s, i), i, n - 1, t)
  }

  lemma NoSteps(s: State, i: nat)
    ensures Alone(s, i, 0, s)
  {
  }

  lemma OneStep(s: State, i: nat, n: nat, t: State)
    requires i < |s.procs| && Ready(s, i) && Alone(DoStep(s, i), i, n, t)
    ensures Alone(s, i, n + 1, t)
  {
  }

  /** fork, once it has wait_lock: the child is the caller's and can run, with the pid it
      was given, and nothing else changes. */
  lemma ForkIsComplete(s: State, i: nat, c: nat) returns (t: State)
    requires i < |s.procs| && c < |s.procs| && i != c && s.procs[i].pc == ForkWant(c) && s.wlock.None? && !s.procs[c].plock
    ensures Alone(s, i, 4, t) && |t.procs| == |s.procs| && t == s.(procs := t.procs)
    ensures t.procs[c] == s.procs[c].(parent := Some(i), state := Runnable) && t.procs[i] == s.procs[i].(pc := User)
    ensures forall k :: 0 <= k < |s.procs| && k != i && k != c ==> t.procs[k] == s.procs[k]
  {
    hide Alone;
    var a := DoStep(s, i);
    var b := DoStep(a, i);
    var d := DoStep(b, i);
    t := DoStep(d, i);
    NoSteps(t, i);
    OneStep(d, i, 0, t);
    OneStep(b, i, 1, t);
    OneStep(a, i, 2, t);
    OneStep(s, i, 3, t);
  }

  /** Slot c is the first zombie child of i from j on, and the children before it are not
      locked. */
  predicate FirstZombie(s: State, i: nat, j: nat, c: nat) {
    && j <= c < |s.procs| && s.procs[c].parent == Some(i) && s.procs[c].state.Zombie? && !s.procs[c].plock
    && forall k :: j <= k < c && s.procs[k].parent == Some(i) ==> !s.procs[k].state.Zombie? && !s.procs[k].plock
  }

  /** The slot of a reaped child, and what its parent is told. */
  ghost predicate Reaped(s: State, t: State, i: nat, c: nat) {
    && i < |s.procs| == |t.procs| && c < |s.procs| && i != c
    && t.reported == s.reported[s.procs[c].pid := s.procs[c].xstate] && t.wlock.None?
    && t.procs[c].state.Unused? && t.procs[c].pid == 0 && t.procs[c].parent.None? && t.procs[i] == s.procs[i].(pc := User)
    && forall k :: 0 <= k < |s.procs| && k != i && k != c ==> t.procs[k] == s.procs[k]
  }

  lemma {:induction false} ScanReaps(s: State, i: nat, j: nat, c: nat) returns (n: nat, t: State)
    requires i < |s.procs| && i != c && s.procs[i].pc.Scan? && s.procs[i].pc.j == j && FirstZombie(s, i, j, c)
    ensures Alone(s, i, n, t) && Reaped(s, t, i, c)
    decreases c - j
  {
    hide Alone;
    var a := DoStep(s, i);
    if j == c {
      t := DoStep(a, i);
      NoSteps(t, i);
      OneStep(a, i, 0, t);
      OneStep(s, i, 1, t);
      n := 2;
    } else {
      NextScanned(s, i, j, a);
      var m;
      m, t := ScanReaps(a, i, j + 1, c);
      OneStep(s, i, m, t);
      n := m + 1;
    }
  }

  lemma NextScanned(s: State, i: nat, j: nat, a: State)
    requires i < |s.procs| && s.procs[i].pc.Scan? && s.procs[i].pc.j == j < |s.procs|
    requires s.procs[j].parent == Some(i) ==> !s.procs[j].state.Zombie? && !s.procs[j].plock
    requires Ready(s, i) && a == DoStep(s, i)
    ensures a == s.(procs := s.procs[i := s.procs[i].(pc := a.procs[i].pc)]) && a.procs[i].pc.Scan? && a.procs[i].pc.j == j + 1
  {
  }

  /** wait, once it has wait_lock, frees its first zombie child and returns its pid and
      status. */
  lemma WaitReaps(s: State, i: nat, c: nat) returns (n: nat, t: State)
    requires i < |s.procs| && i != c && s.procs[i].pc.WaitWant? && s.wlock.None? && FirstZombie(s, i, 0, c)
    ensures Alone(s, i, n, t) && Reaped(s, t, i, c)
  {
    hide Alone;
    var a := DoStep(s, i);
    var m;
    m, t := ScanReaps(a, i, 0, c);
    OneStep(s, i, m, t);
    n := m + 1;
  }

  /** How far a process in exit is from its end: the part of exit, and within it the slots
      still to be looked at. */
  function Stage(pc: Pc): nat {
    match pc
    case ExitWant(_) => 7
    case Reparent(_, _) => 6
    case WakeInit(_, _, _) => 6
    case WakeParent(_, _) => 5
    case ExitLock(_) => 4
    case ExitZombie(_) => 3
    case ExitRelease => 2
    case Gone => 1
    case _ => 0
  }

  function Slots(pc: Pc, n: nat): int {
    match pc
    case Reparent(_, j) => n - j
    case WakeInit(_, j, _) => n - j
    case WakeParent(_, k) => n - k
    case _ => 0
  }

  function Calls(pc: Pc, n: nat): int {
    match pc
    case Reparent(_, _) => n + 1
    case WakeInit(_, _, k) => n - k
    case _ => 0
  }

  lemma LoopPc(s: State, i: nat)
    requires i < |s.procs| && Ready(s, i)
    ensures var n, a, b := |s.procs|, s.procs[i].pc, DoStep(s, i).procs[i].pc;
            && (a.Reparent? ==> if a.j >= n then b == WakeParent(a.status, 0) else b == WakeInit(a.status, a.j, 0) || b == Reparent(a.status, a.j + 1))
            && (a.WakeInit? ==> b == if a.k >= n then Reparent(a.status, a.j + 1) else WakeInit(a.status, a.j, a.k + 1))
            && (a.WakeParent? ==> b == if a.k >= n then ExitLock(a.status) else WakeParent(a.status, a.k + 1))
  {
  }

  lemma LinePc(s: State, i: nat)
    requires i < |s.procs| && Ready(s, i)
    ensures var a, b := s.procs[i].pc, DoStep(s, i).procs[i].pc;
            && (a.ExitWant? ==> b == Reparent(a.status, 0)) && (a.ExitLock? ==> b == ExitZombie(a.status))
            && (a.ExitZombie? ==> b.ExitRelease?) && (a.ExitRelease? ==> b.Gone?)
  {
  }

  /** Every step of a process in exit brings it nearer to its end, where it is a zombie. */
  lemma ExitGoesOn(s: State, i: nat)
    requires i < |s.procs| && Ready(s, i) && Stage(s.procs[i].pc) > 1 && (s.procs[i].pc.WakeInit? ==> s.procs[i].pc.j < |s.procs|)
    ensures var n, a, b := |s.procs|, s.procs[i].pc, DoStep(s, i).procs[i].pc;
            || 1 <= Stage(b) < Stage(a)
            || (Stage(b) == Stage(a) && 0 <= Slots(b, n) < Slots(a, n))
            || (Stage(b) == Stage(a) && Slots(b, n) == Slots(a, n) && 0 <= Calls(b, n) < Calls(a, n))
  {
    hide DoStep, Ready;
    LoopPc(s, i);
    LinePc(s, i);
  }
}
