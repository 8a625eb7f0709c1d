/** The statuses that wait reports, against the calls of exit in the run. */
module ExitStatus {
  import opened ExitWait

  /** The calls of exit after one more event: pid and status of each. */
  function Asking(s: State, asked: map<nat, int>, e: Event): map<nat, int> {
    if e.CallExit? && e.i < |s.procs| then asked[s.procs[e.i].pid := e.status] else asked
  }

  /** The calls of exit in a run: the pid of the caller, and the status it gave. */
  ghost function Asked(s: State, asked: map<nat, int>, es: seq<Event>): map<nat, int>
    decreases |es|
  {
    if es == [] || !Enabled(s, es[0]) then asked
    else Asked(Do(s, es[0]), Asking(s, asked, es[0]), es[1..])
  }

  /** The process in a slot is exiting with the status it gave, or is a zombie with it, or
      has not called exit. */
  predicate SlotAsked(p: Proc, asked: map<nat, int>) {
    && (Exiting(p.pc) ==> p.pid in asked && asked[p.pid] == p.pc.status)
    && (p.state.Zombie? ==> p.pid in asked && asked[p.pid] == p.xstate)
    && (!p.state.Unused? && p.pid in asked ==> Exiting(p.pc) || p.state.Zombie?)
  }

  ghost predicate SlotsAsked(s: State, asked: map<nat, int>) {
    forall i :: 0 <= i < |s.procs| ==> SlotAsked(s.procs[i], asked)
  }

  /** Every call of exit is under way, is a zombie, or was reported with its status. */
  ghost predicate ReportsAsked(s: State, asked: map<nat, int>) {
    && (forall id :: id in asked ==> 0 < id < s.nextpid)
    && (forall id :: id in s.reported ==> id in asked && s.reported[id] == asked[id])
    && (forall id :: id in asked ==> id in s.reported || InTable(s, id))
  }

  ghost predicate InTable(s: State, id: nat) {
    exists i :: 0 <= i < |s.procs| && !s.procs[i].state.Unused? && s.procs[i].pid == id
  }

  ghost predicate StatusOk(s: State, asked: map<nat, int>) {
    SlotsAsked(s, asked) && ReportsAsked(s, asked)
  }

  // ---------------------------------------------------------------- steps

  /** Nothing that a status depends on changes, except that slots may go on in exit. */
  ghost predicate Quiet(s: State, t: State) {
    && |t.procs| == |s.procs| && t.reported == s.reported && t.nextpid >= s.nextpid
    && forall i :: 0 <= i < |s.procs| ==> QuietSlot(s.procs[i], t.procs[i])
  }

  predicate QuietSlot(p: Proc, q: Proc) {
    && q.pid == p.pid && q.xstate == p.xstate && q.state.Zombie? == p.state.Zombie? && q.state.Unused? == p.state.Unused?
    && Exiting(q.pc) == Exiting(p.pc) && (Exiting(p.pc) ==> q.pc.status == p.pc.status)
  }

  lemma QuietKeeps(s: State, t: State, asked: map<nat, int>)
    requires StatusOk(s, asked) && Quiet(s, t)
    ensures StatusOk(t, asked)
  {
    forall i | 0 <= i < |t.procs| ensures SlotAsked(t.procs[i], asked) {
      assert SlotAsked(s.procs[i], asked) && QuietSlot(s.procs[i], t.procs[i]);
    }
    forall id | id in asked && id !in t.reported ensures InTable(t, id) {
      var i :| 0 <= i < |s.procs| && !s.procs[i].state.Unused? && s.procs[i].pid == id;
      assert QuietSlot(s.procs[i], t.procs[i]);
      assert t.procs[i].pid == id;
    }
  }

  lemma ForkLockQuiet(s: State, i: nat)
    requires i < |s.procs| && Ready(s, i) && (s.procs[i].pc.ForkWant? || s.procs[i].pc.ForkRelease?)
    ensures Quiet(s, DoStep(s, i))
  {
    hide QuietSlot;
    var t := DoStep(s, i);
    forall k: nat | k < |s.procs| ensures QuietSlot(s.procs[k], t.procs[k]) {
      SlotQuiet(s.procs[k], t.procs[k]);
    }
  }

  lemma ForkSetQuiet(s: State, i: nat)
    requires Inv(s) && i < |s.procs| && Ready(s, i) && s.procs[i].pc.ForkSet?
    ensures Quiet(s, DoStep(s, i))
  {
    hide Inv, QuietSlot;
    FamilyOf(s, i);
    PlaceOf(s, i);
    var t := DoStep(s, i);
    forall k: nat | k < |s.procs| ensures QuietSlot(s.procs[k], t.procs[k]) {
      SlotQuiet(s.procs[k], t.procs[k]);
    }
  }

  lemma ForkRunQuiet(s: State, i: nat)
    requires Inv(s) && i < |s.procs| && Ready(s, i) && s.procs[i].pc.ForkRun?
    ensures Quiet(s, DoStep(s, i))
  {
    hide Inv, QuietSlot;
    FamilyOf(s, i);
    PlaceOf(s, i);
    var t := DoStep(s, i);
    forall k: nat | k < |s.procs| ensures QuietSlot(s.procs[k], t.procs[k]) {
      SlotQuiet(s.procs[k], t.procs[k]);
    }
  }

  lemma ReparentQuiet(s: State, i: nat)
    requires i < |s.procs| && Ready(s, i) && (s.procs[i].pc.ExitWant? || s.procs[i].pc.Reparent? || s.procs[i].pc.ExitLock?)
    ensures Quiet(s, DoStep(s, i))
  {
    hide QuietSlot;
    var t := DoStep(s, i);
    forall k: nat | k < |s.procs| ensures QuietSlot(s.procs[k], t.procs[k]) {
      SlotQuiet(s.procs[k], t.procs[k]);
    }
  }

  lemma WakeInitQuiet(s: State, i: nat)
    requires i < |s.procs| && Ready(s, i) && s.procs[i].pc.WakeInit?
    ensures Quiet(s, DoStep(s, i))
  {
    hide QuietSlot;
    var t := DoStep(s, i);
    forall k: nat | k < |s.procs| ensures QuietSlot(s.procs[k], t.procs[k]) {
      SlotQuiet(s.procs[k], t.procs[k]);
    }
  }

  lemma WakeParentQuiet(s: State, i: nat)
    requires i < |s.procs| && Ready(s, i) && s.procs[i].pc.WakeParent?
    ensures Quiet(s, DoStep(s, i))
  {
    hide QuietSlot;
    var t := DoStep(s, i);
    forall k: nat | k < |s.procs| ensures QuietSlot(s.procs[k], t.procs[k]) {
      SlotQuiet(s.procs[k], t.procs[k]);
    }
  }

  lemma ScanQuiet(s: State, i: nat)
    requires i < |s.procs| && Ready(s, i) && s.procs[i].pc.Scan?
    requires var j := s.procs[i].pc.j; !(j < |s.procs| && s.procs[j].parent == Some(i) && s.procs[j].state.Zombie?)
    ensures Quiet(s, DoStep(s, i))
  {
    hide QuietSlot;
    var t := DoStep(s, i);
    forall k: nat | k < |s.procs| ensures QuietSlot(s.procs[k], t.procs[k]) {
      SlotQuiet(s.procs[k], t.procs[k]);
    }
  }

  lemma SleepQuiet(s: State, i: nat)
    requires Inv(s) && i < |s.procs| && Ready(s, i)
    requires var pc := s.procs[i].pc; pc.SleepLockP? || pc.SleepRelease? || pc.SleepSet? || pc.Switch? || pc.Away?
    ensures Quiet(s, DoStep(s, i))
  {
    hide Inv, QuietSlot;
    PlaceOf(s, i);
    var t := DoStep(s, i);
    forall k: nat | k < |s.procs| ensures QuietSlot(s.procs[k], t.procs[k]) {
      SlotQuiet(s.procs[k], t.procs[k]);
    }
  }

  lemma LockQuiet(s: State, i: nat)
    requires i < |s.procs| && Ready(s, i)
    requires var pc := s.procs[i].pc; pc.WaitWant? || pc.WaitRelease? || pc.ExitRelease? || pc.Gone?
    ensures Quiet(s, DoStep(s, i))
  {
    hide QuietSlot;
    var t := DoStep(s, i);
    forall k: nat | k < |s.procs| ensures QuietSlot(s.procs[k], t.procs[k]) {
      SlotQuiet(s.procs[k], t.procs[k]);
    }
  }

  lemma SlotQuiet(p: Proc, q: Proc)
    requires q.pid == p.pid && q.xstate == p.xstate
    requires q.pc == p.pc || (!Exiting(p.pc) && !Exiting(q.pc)) || (Exiting(p.pc) && Exiting(q.pc) && q.pc.status == p.pc.status)
    requires q.state == p.state || (Alive(p) && Alive(q)) || (p.state.Used? && q.state.Runnable?)
    ensures QuietSlot(p, q)
  {
  }

  lemma OtherQuiet(s: State, e: Event)
    requires Enabled(s, e) && !e.Step? && !e.CallExit? && !e.CallFork?
    ensures Quiet(s, Do(s, e))
  {
    hide QuietSlot, DoStep;
    var t := Do(s, e);
    forall k: nat | k < |s.procs| ensures QuietSlot(s.procs[k], t.procs[k]) {
      SlotQuiet(s.procs[k], t.procs[k]);
    }
  }

  lemma FamilyOf(s: State, i: nat)
    requires Inv(s) && i < |s.procs|
    ensures FamilyOk(s, i)
  {
    hide PlaceOk, ProgressOk, ZombieOk, ForksApart, HistoryOk;
  }

  lemma SlotOfPid(s: State, i: nat, j: nat)
    requires Inv(s) && i < |s.procs| && j < |s.procs| && i != j && !s.procs[i].state.Unused?
    ensures s.procs[i].pid != s.procs[j].pid && 0 < s.procs[i].pid < s.nextpid
  {
    hide PlaceOk, FamilyOk, ProgressOk, ZombieOk, ForksApart, ExitsOk, UnreportedOk;
    if s.procs[j].state.Unused? {
      assert s.procs[j].pid == 0;
    }
  }

  lemma PlaceOf(s: State, i: nat)
    requires Inv(s) && i < |s.procs|
    ensures PlaceOk(s, i)
  {
    hide FamilyOk, ProgressOk, ZombieOk, ForksApart, HistoryOk;
  }

  /** A process becomes a zombie with the status it gave to exit. */
  lemma ZombieKeepsStatus(s: State, asked: map<nat, int>, i: nat)
    requires Inv(s) && StatusOk(s, asked) && i < |s.procs| && s.procs[i].pc.ExitZombie?
    ensures StatusOk(DoStep(s, i), asked)
  {
    hide Inv;
    PlaceOf(s, i);
    var t := DoStep(s, i);
    assert SlotAsked(s.procs[i], asked);
    forall id | id in asked && id !in t.reported ensures InTable(t, id) {
      var j :| 0 <= j < |s.procs| && !s.procs[j].state.Unused? && s.procs[j].pid == id;
      assert t.procs[j].pid == id;
    }
  }

  /** wait reports the status of the zombie it frees. */
  lemma ReapKeepsStatus(s: State, asked: map<nat, int>, i: nat, j: nat)
    requires Inv(s) && StatusOk(s, asked) && i < |s.procs| && j < |s.procs| && s.procs[i].pc.Scan? && s.procs[j].state.Zombie? && i != j
    ensures StatusOk(Reap(s, i, j), asked)
  {
    hide Inv;
    var t := Reap(s, i, j);
    PlaceOf(s, i);
    PlaceOf(s, j);
    assert SlotAsked(s.procs[j], asked) && SlotAsked(s.procs[i], asked);
    forall id | id in asked && id !in t.reported ensures InTable(t, id) {
      var k :| 0 <= k < |s.procs| && !s.procs[k].state.Unused? && s.procs[k].pid == id;
      assert k != j;
      assert t.procs[k].pid == id;
    }
  }

  /** A call of exit is the first of its process. */
  lemma ExitCallKeepsStatus(s: State, asked: map<nat, int>, i: nat, status: int)
    requires Inv(s) && StatusOk(s, asked) && Enabled(s, CallExit(i, status))
    ensures s.procs[i].pid !in asked && StatusOk(Do(s, CallExit(i, status)), asked[s.procs[i].pid := status])
  {
    hide Inv;
    var t, pid := Do(s, CallExit(i, status)), s.procs[i].pid;
    var asked' := asked[pid := status];
    PlaceOf(s, i);
    assert SlotAsked(s.procs[i], asked);
    forall k: nat | k < |t.procs| ensures SlotAsked(t.procs[k], asked') {
      assert SlotAsked(s.procs[k], asked);
      if k != i {
        SlotOfPid(s, i, k);
      }
    }
    CallReports(s, t, asked, i, status);
  }

  lemma CallReports(s: State, t: State, asked: map<nat, int>, i: nat, status: int)
    requires Inv(s) && ReportsAsked(s, asked) && Enabled(s, CallExit(i, status)) && t == Do(s, CallExit(i, status)) && s.procs[i].pid !in asked
    ensures ReportsAsked(t, asked[s.procs[i].pid := status])
  {
    var pid := s.procs[i].pid;
    assert 0 < pid < s.nextpid;
    hide Inv;
    forall id | id in asked[pid := status] && id !in t.reported ensures InTable(t, id) {
      if id == pid {
        assert t.procs[i].pid == id;
      } else {
        var k :| 0 <= k < |s.procs| && !s.procs[k].state.Unused? && s.procs[k].pid == id;
        assert t.procs[k].pid == id;
      }
    }
  }

  /** fork gives a pid that no call of exit has used. */
  lemma ForkCallKeepsStatus(s: State, asked: map<nat, int>, i: nat, c: nat)
    requires Inv(s) && StatusOk(s, asked) && Enabled(s, CallFork(i, c))
    ensures StatusOk(Do(s, CallFork(i, c)), asked)
  {
    hide Inv;
    var t := Do(s, CallFork(i, c));
    forall k: nat | k < |t.procs| ensures SlotAsked(t.procs[k], asked) {
      assert SlotAsked(s.procs[k], asked);
    }
    forall id | id in asked && id !in t.reported ensures InTable(t, id) {
      var k :| 0 <= k < |s.procs| && !s.procs[k].state.Unused? && s.procs[k].pid == id;
      assert t.procs[k].pid == id;
    }
  }

  /** The steps that change no pid, status or zombie. */
  lemma StepIsQuiet(s: State, i: nat)
    requires Inv(s) && i < |s.procs| && Ready(s, i) && !s.procs[i].pc.ExitZombie?
    requires var pc := s.procs[i].pc; !(pc.Scan? && pc.j < |s.procs| && s.procs[pc.j].parent == Some(i) && s.procs[pc.j].state.Zombie?)
    ensures Quiet(s, DoStep(s, i))
  {
    hide Inv, DoStep, Quiet;
    var pc := s.procs[i].pc;
    if pc.ForkWant? || pc.ForkRelease? {
      ForkLockQuiet(s, i);
    } else if pc.ForkSet? {
      ForkSetQuiet(s, i);
    } else if pc.ForkRun? {
      ForkRunQuiet(s, i);
    } else if pc.WakeInit? {
      WakeInitQuiet(s, i);
    } else if pc.WakeParent? {
      WakeParentQuiet(s, i);
    } else if pc.ExitWant? || pc.Reparent? || pc.ExitLock? {
      ReparentQuiet(s, i);
    } else if pc.Scan? {
      ScanQuiet(s, i);
    } else if pc.WaitWant? || pc.WaitRelease? || pc.ExitRelease? || pc.Gone? {
      LockQuiet(s, i);
    } else {
      SleepQuiet(s, i);
    }
  }

  lemma StepKeepsStatus(s: State, asked: map<nat, int>, i: nat)
    requires Inv(s) && StatusOk(s, asked) && i < |s.procs| && Ready(s, i)
    ensures StatusOk(DoStep(s, i), asked)
  {
    hide Inv, StatusOk;
    var pc := s.procs[i].pc;
    PlaceOf(s, i);
    if pc.ExitZombie? {
      ZombieKeepsStatus(s, asked, i);
    } else if pc.Scan? && pc.j < |s.procs| && s.procs[pc.j].parent == Some(i) && s.procs[pc.j].state.Zombie? {
      ReapKeepsStatus(s, asked, i, pc.j);
    } else {
      StepIsQuiet(s, i);
      QuietKeeps(s, DoStep(s, i), asked);
    }
  }

  lemma EventKeepsStatus(s: State, asked: map<nat, int>, e: Event)
    requires Inv(s) && StatusOk(s, asked) && Enabled(s, e)
    ensures StatusOk(Do(s, e), Asking(s, asked, e))
  {
    hide Inv, StatusOk, DoStep;
    match e
    case Step(i) => StepKeepsStatus(s, asked, i);
    case CallExit(i, status) => ExitCallKeepsStatus(s, asked, i, status);
    case CallFork(i, c) => ForkCallKeepsStatus(s, asked, i, c);
    case _ =>
      OtherQuiet(s, e);
      QuietKeeps(s, Do(s, e), asked);
  }

  // ---------------------------------------------------------------- runs

  lemma {:induction false} RunKeepsStatus(s: State, asked: map<nat, int>, es: seq<Event>, t: State)
    requires Inv(s) && StatusOk(s, asked) && Reaches(s, es, t)
    ensures StatusOk(t, Asked(s, asked, es))
    decreases |es|
  {
    hide Inv, StatusOk;
    if es != [] {
      EventKeeps(s, es[0]);
      EventKeepsStatus(s, asked, es[0]);
      RunKeepsStatus(Do(s, es[0]), Asking(s, asked, es[0]), es[1..], t);
    }
  }

  lemma InitStatus(s: State)
    requires Init(s)
    ensures Inv(s) && StatusOk(s, map[])
  {
    RunFromInit(s, [], s);
    hide Inv;
  }

  /** Over every run, a report of wait is of a process that called exit, with the status
      it gave; and every call of exit was reported with its status, or its process is
      still in the table, in exit or a zombie, and has that status. */
  lemma ReportsAreCalls(s: State, es: seq<Event>, t: State, id: nat)
    requires Init(s) && Reaches(s, es, t)
    ensures var asked := Asked(s, map[], es);
            && (id in t.reported ==> id in asked && t.reported[id] == asked[id])
            && (id in asked && id !in t.reported ==>
                  exists c :: 0 <= c < |t.procs| && t.procs[c].pid == id && !t.procs[c].state.Unused?
                              && (if t.procs[c].state.Zombie? then t.procs[c].xstate == asked[id]
                                  else Exiting(t.procs[c].pc) && t.procs[c].pc.status == asked[id]))
  {
    InitStatus(s);
    RunKeepsStatus(s, map[], es, t);
    RunFromInit(s, es, t);
    var asked := Asked(s, map[], es);
    hide Inv, Asked;
    if id in asked && id !in t.reported {
      var c :| 0 <= c < |t.procs| && !t.procs[c].state.Unused? && t.procs[c].pid == id;
      assert SlotAsked(t.procs[c], asked);
      ZombieIsNotExiting(t, c);
    }
  }

  lemma ZombieIsNotExiting(s: State, c: nat)
    requires Inv(s) && c < |s.procs|
    ensures s.procs[c].state.Zombie? ==> !Exiting(s.procs[c].pc)
  {
    PlaceOf(s, c);
    hide Inv;
  }

  /** No process calls exit twice: each pid has one status. */
  lemma ExitIsCalledOnce(s: State, es: seq<Event>, t: State, i: nat, status: int)
    requires Init(s) && Reaches(s, es, t) && Enabled(t, CallExit(i, status))
    ensures t.procs[i].pid !in Asked(s, map[], es)
  {
    InitStatus(s);
    RunKeepsStatus(s, map[], es, t);
    RunFromInit(s, es, t);
    hide Asked;
    ExitCallKeepsStatus(t, Asked(s, map[], es), i, status);
  }
}
