/** Whole runs of the copy-on-write protocol: the reference-count invariant holds
    in every reachable state, and no kernel routine ever panics or gets stuck. */
module CowSafety {
  import opened CowProtocol
  import opened CowInvariant
  import opened CowFrames
  import opened CowSteps

  /** Slot p goes to another program counter and may fill memory, holding the
      same references as before. */
  lemma QuietKeeps(s: State, t: State, p: nat)
    requires Inv(s) && Shape(t) && p in s.pc && p in s.sz && p in t.pc
    requires t == s.(pc := s.pc[p := t.pc[p]], mem := t.mem)
    requires Plain(s.pc[p], t.pc[p]) && Hand(t.pc[p]) == Hand(s.pc[p]) && Limbo(t.pc[p]) == Limbo(s.pc[p])
    requires forall v :: Counted(t.pc[p], v) == Counted(s.pc[p], v)
    requires forall v :: Mapped(t.pc[p], t.sz[p], v) == Mapped(s.pc[p], s.sz[p], v)
    requires t.pc[p].FreeDec? || (s.pc[p].FreeDec? ==> t.pc[p].FreeDec?)
    requires SlotOk(t, p) && UpgradeOk(t, p)
    ensures Inv(t)
  {
    hide Inv;
    SlotOf(s, p);
    ShapeOf(s);
    SilentKeeps(s, t, p);
  }

  lemma TrapKeeps(s: State, p: nat, pc: Pc)
    requires Inv(s) && p in s.pc && p in s.sz && s.pc[p] == User
    requires pc.CowCheck? || pc.Zombie? || pc == AllocPop(ForKernel)
    ensures Inv(Goto(s, p, pc))
  {
    hide Inv;
    ShapeOf(s);
    QuietKeeps(s, Goto(s, p, pc), p);
  }

  lemma GrowCallKeeps(s: State, p: nat, lim: nat)
    requires Inv(s) && p in s.pc && p in s.sz && s.pc[p] == User && s.sz[p] < lim
    ensures Inv(Goto(s, p, AllocPop(ForGrow(s.sz[p], lim))))
  {
    hide Inv;
    ShapeOf(s);
    QuietKeeps(s, Goto(s, p, AllocPop(ForGrow(s.sz[p], lim))), p);
  }

  lemma ShrinkCallKeeps(s: State, p: nat, n: nat)
    requires Inv(s) && p in s.pc && p in s.sz && s.pc[p] == User && n < s.sz[p]
    ensures Inv(Goto(s, p, Unmap(n, s.sz[p], BackToUser(n))))
  {
    hide Inv;
    ShapeOf(s);
    QuietKeeps(s, Goto(s, p, Unmap(n, s.sz[p], BackToUser(n))), p);
  }

  lemma ReapKeeps(s: State, p: nat)
    requires Inv(s) && p in s.pc && p in s.sz && s.pc[p] == Zombie
    ensures Inv(Goto(s, p, Unmap(0, s.sz[p], Reaped)))
  {
    hide Inv;
    ShapeOf(s);
    QuietKeeps(s, Goto(s, p, Unmap(0, s.sz[p], Reaped)), p);
  }

  lemma KernelFreeKeeps(s: State, p: nat, page: nat)
    requires Inv(s) && p in s.pc && p in s.sz && s.pc[p] == Holding(page)
    ensures Inv(Goto(s, p, FreeDec(page, Resume)))
  {
    hide Inv;
    ShapeOf(s);
    QuietKeeps(s, Goto(s, p, FreeDec(page, Resume)), p);
  }

  /** System calls, faults and stores of a process in user space. */
  lemma UserEventKeeps(s: State, p: nat, e: Event)
    requires Inv(s) && Enabled(s, p, e) && !e.Kernel?
    ensures Inv(Do(s, p, e))
  {
    hide Inv, Tick, CanTick;
    match e
    case Store(v, i, b) => WriteKeeps(s, p, s.pt[Key(p, v)].page, i, b);
    case CopyoutByte(v, i, b) => WriteKeeps(s, p, s.pt[Key(p, v)].page, i, b);
    case Fault(v, trap) => TrapKeeps(s, p, CowCheck(v, trap));
    case ForkCall(c) => ForkCallKeeps(s, Do(s, p, e), p, c);
    case Grow(lim) => GrowCallKeeps(s, p, lim);
    case Shrink(n) => ShrinkCallKeeps(s, p, n);
    case Exit => TrapKeeps(s, p, Zombie);
    case Reap => ReapKeeps(s, p);
    case KernelAlloc => TrapKeeps(s, p, AllocPop(ForKernel));
    case KernelFree => KernelFreeKeeps(s, p, s.pc[p].page);
    case UvmClear(v) => UvmClearKeeps(s, Do(s, p, e), p, v);
  }

  lemma WriteKeeps(s: State, p: nat, page: nat, i: nat, b: Byte)
    requires Inv(s) && p in s.pc && p in s.sz && s.pc[p].User? && page < |s.mem| && i < |s.mem[page]|
    ensures Inv(WriteByte(s, page, i, b))
  {
    hide Inv;
    ShapeOf(s);
    var t := WriteByte(s, page, i, b);
    assert t.pc == s.pc[p := t.pc[p]];
    QuietKeeps(s, t, p);
  }

  lemma CowCheckKeeps(s: State, p: nat, v: nat, trap: bool)
    requires Inv(s) && p in s.pc && p in s.sz && s.pc[p] == CowCheck(v, trap)
    ensures HasPte(s, p, v) ==> HasPage(s, p, v)
    ensures Inv(TickCowCheck(s, p, v, trap))
  {
    hide Inv;
    ShapeOf(s);
    if HasPte(s, p, v) {
      EntryOf(s, Key(p, v));
      TableOf(s, p, v);
    }
    QuietKeeps(s, TickCowCheck(s, p, v, trap), p);
  }

  lemma AllocFailKeeps(s: State, p: nat, why: Why)
    requires Inv(s) && p in s.pc && p in s.sz && s.pc[p] == AllocPop(why) && s.free == []
    ensures Inv(TickAllocPop(s, p, why))
  {
    hide Inv;
    SlotOf(s, p);
    ShapeOf(s);
    QuietKeeps(s, TickAllocPop(s, p, why), p);
  }

  lemma AllocJunkKeeps(s: State, p: nat, page: nat, why: Why)
    requires Inv(s) && p in s.pc && p in s.sz && s.pc[p] == AllocJunk(page, why)
    ensures IsPage(s, page) && Inv(Goto(Fill(s, page, 5), p, AfterAlloc(page, why)))
  {
    hide Inv;
    SlotOf(s, p);
    ShapeOf(s);
    QuietKeeps(s, Goto(Fill(s, page, 5), p, AfterAlloc(page, why)), p);
  }

  lemma GrowZeroKeeps(s: State, p: nat, page: nat, v: nat, lim: nat)
    requires Inv(s) && p in s.pc && p in s.sz && s.pc[p] == GrowZero(page, v, lim)
    ensures IsPage(s, page) && Inv(Goto(Fill(s, page, 0), p, GrowMap(page, v, lim)))
  {
    hide Inv;
    SlotOf(s, p);
    ShapeOf(s);
    QuietKeeps(s, Goto(Fill(s, page, 0), p, GrowMap(page, v, lim)), p);
  }

  lemma GrowMapFailKeeps(s: State, p: nat, page: nat, v: nat, lim: nat)
    requires Inv(s) && p in s.pc && p in s.sz && s.pc[p] == GrowMap(page, v, lim)
    ensures Inv(TickGrowMap(s, p, page, v, lim, false))
  {
    hide Inv;
    SlotOf(s, p);
    ShapeOf(s);
    QuietKeeps(s, TickGrowMap(s, p, page, v, lim, false), p);
  }

  lemma ForkMapFailKeeps(s: State, c: nat, par: nat, v: nat)
    requires Inv(s) && c in s.pc && c in s.sz && s.pc[c] == ForkMap(par, v)
    ensures Inv(Goto(s, c, Unmap(0, v, Abort(par))))
  {
    hide Inv;
    SlotOf(s, c);
    ShapeOf(s);
    QuietKeeps(s, Goto(s, c, Unmap(0, v, Abort(par))), c);
  }

  lemma FreeJunkKeeps(s: State, p: nat, page: nat, th: Then)
    requires Inv(s) && p in s.pc && p in s.sz && s.pc[p] == FreeJunk(page, th)
    ensures IsPage(s, page) && Inv(Goto(Fill(s, page, 1), p, FreePush(page, th)))
  {
    hide Inv;
    SlotOf(s, p);
    LimboOf(s, p);
    ShapeOf(s);
    QuietKeeps(s, Goto(Fill(s, page, 1), p, FreePush(page, th)), p);
  }

  /** One byte of the page copy. */
  lemma CopyByteKeeps(s: State, p: nat, v: nat, page: nat, i: nat, b: Byte)
    requires Inv(s) && p in s.pc && p in s.sz && s.pc[p] == CowCopy(v, page, i) && i < PGSIZE
    ensures IsPage(s, page) && Inv(Goto(WriteByte(s, page, i, b), p, CowCopy(v, page, i + 1)))
  {
    hide Inv;
    SlotOf(s, p);
    ShapeOf(s);
    QuietKeeps(s, Goto(WriteByte(s, page, i, b), p, CowCopy(v, page, i + 1)), p);
  }

  lemma ShrunkKeeps(s: State, p: nat, j: nat, lim: nat, n: nat)
    requires Inv(s) && p in s.pc && p in s.sz && s.pc[p] == Unmap(j, lim, BackToUser(n)) && j >= lim
    ensures Inv(Goto(s.(sz := s.sz[p := n]), p, User))
  {
    hide Inv;
    SlotOf(s, p);
    ShapeOf(s);
    var t := Goto(s.(sz := s.sz[p := n]), p, User);
    SilentKeeps(s, t, p);
  }

  /** The slot is executing a kernel routine rather than waiting. */
  predicate InKernel(pc: Pc) {
    !pc.User? && !pc.Zombie? && !pc.InFork? && !pc.Holding?
  }

  /** No panic in kalloc, kfree, krefinc, mappages, uvmcopy or uvmunmap is
      reachable: the next step of every kernel routine is always possible. */
  lemma NeverPanics(s: State, p: nat)
    requires Inv(s) && p in s.pc && InKernel(s.pc[p])
    ensures p in s.sz && CanTick(s, p)
  {
    hide Inv, CountOk;
    SlotOf(s, p);
    LimboOf(s, p);
    ShapeOf(s);
    match s.pc[p]
    case ForkMark(par, v) =>
      TableOf(s, par, v);
    case ForkMap(par, v) =>
      TableOf(s, p, v);
    case ForkInc(par, v) =>
      EntryOf(s, Key(par, v));
      ForkIncUndisturbed(s, p, par, v);
    case CowCheck(v, _) =>
      if HasPte(s, p, v) {
        EntryOf(s, Key(p, v));
      }
    case CowCopy(v, page, i) =>
      EntryOf(s, Key(p, v));
    case GrowMap(page, v, _) =>
      TableOf(s, p, v);
    case Unmap(j, lim, after) =>
      TableOf(s, p, j);
      if j < lim {
        EntryOf(s, Key(p, j));
      }
    case ClearPte(j, lim, after) =>
      TableOf(s, p, j);
    case FreeDec(page, th) =>
      CountOf(s, page);
      assert HandOwns(s, p, page);
      HandCounts(s, page, p);
    case _ =>
  }

  lemma ForkTickKeeps(s: State, p: nat, ok: bool)
    requires Inv(s) && p in s.pc && p in s.sz && CanTick(s, p)
    requires s.pc[p].ForkMark? || s.pc[p].ForkMap? || s.pc[p].ForkInc?
    ensures Inv(Tick(s, p, ok))
  {
    hide Inv;
    match s.pc[p]
    case ForkMark(par, v) =>
      if v < s.sz[par] {
        ForkMarkKeeps(s, p, par, v);
      } else {
        ForkReturnKeeps(s, Tick(s, p, ok), p, par, v);
      }
    case ForkMap(par, v) =>
      if ok {
        ForkMapKeeps(s, Tick(s, p, ok), p, par, v);
      } else {
        ForkMapFailKeeps(s, p, par, v);
      }
    case ForkInc(par, v) =>
      ForkIncKeeps(s, Tick(s, p, ok), p, par, v, s.pt[Key(par, v)].page);
  }

  lemma CowTickKeeps(s: State, p: nat, ok: bool)
    requires Inv(s) && p in s.pc && p in s.sz && CanTick(s, p)
    requires s.pc[p].CowCheck? || s.pc[p].CowUpgrade?
    ensures Inv(Tick(s, p, ok))
  {
    hide Inv;
    match s.pc[p]
    case CowCheck(v, trap) => CowCheckKeeps(s, p, v, trap);
    case CowUpgrade(v) => CowUpgradeKeeps(s, Tick(s, p, ok), p, v);
  }

  lemma CopyTickKeeps(s: State, p: nat, v: nat, page: nat, i: nat)
    requires Inv(s) && p in s.pc && p in s.sz && s.pc[p] == CowCopy(v, page, i)
    requires IsPage(s, page) && HasPage(s, p, v) && i <= PGSIZE
    requires |s.mem[page]| == |s.mem[s.pt[Key(p, v)].page]| == PGSIZE
    ensures Inv(TickCowCopy(s, p, v, page, i))
  {
    hide Inv;
    var pte := s.pt[Key(p, v)];
    if i < PGSIZE {
      CopyByteKeeps(s, p, v, page, i, s.mem[pte.page][i]);
    } else {
      CowSetKeeps(s, TickCowCopy(s, p, v, page, i), p, v, page, i, pte.(page := page, w := true, cow := false));
    }
  }

  lemma AllocTickKeeps(s: State, p: nat, ok: bool)
    requires Inv(s) && p in s.pc && p in s.sz && CanTick(s, p)
    requires s.pc[p].AllocPop? || s.pc[p].AllocRef? || s.pc[p].AllocJunk?
    ensures Inv(Tick(s, p, ok))
  {
    hide Inv;
    match s.pc[p]
    case AllocPop(why) =>
      if s.free == [] {
        AllocFailKeeps(s, p, why);
      } else {
        AllocPopKeeps(s, Tick(s, p, ok), p, why);
      }
    case AllocRef(page, why) => AllocRefKeeps(s, Tick(s, p, ok), p, page, why);
    case AllocJunk(page, why) => AllocJunkKeeps(s, p, page, why);
  }

  lemma GrowTickKeeps(s: State, p: nat, ok: bool)
    requires Inv(s) && p in s.pc && p in s.sz && CanTick(s, p)
    requires s.pc[p].GrowZero? || s.pc[p].GrowMap?
    ensures Inv(Tick(s, p, ok))
  {
    hide Inv;
    match s.pc[p]
    case GrowZero(page, v, lim) => GrowZeroKeeps(s, p, page, v, lim);
    case GrowMap(page, v, lim) =>
      if ok {
        GrowMapKeeps(s, Tick(s, p, ok), p, page, v, lim);
      } else {
        GrowMapFailKeeps(s, p, page, v, lim);
      }
  }

  lemma UnmapTickKeeps(s: State, p: nat, ok: bool)
    requires Inv(s) && p in s.pc && p in s.sz && CanTick(s, p)
    requires s.pc[p].Unmap? || s.pc[p].ClearPte?
    ensures Inv(Tick(s, p, ok))
  {
    hide Inv;
    match s.pc[p]
    case Unmap(j, lim, after) =>
      if j < lim {
        UnmapKeeps(s, Tick(s, p, ok), p, j, lim, after);
      } else if after.BackToUser? {
        ShrunkKeeps(s, p, j, lim, after.size);
      } else {
        UnmapDoneKeeps(s, Tick(s, p, ok), p, j, lim, after);
      }
    case ClearPte(j, lim, after) => ClearPteKeeps(s, Tick(s, p, ok), p, j, lim, after);
  }

  lemma FreeTickKeeps(s: State, p: nat, ok: bool)
    requires Inv(s) && p in s.pc && p in s.sz && CanTick(s, p)
    requires s.pc[p].FreeDec? || s.pc[p].FreeJunk? || s.pc[p].FreePush?
    ensures Inv(Tick(s, p, ok))
  {
    hide Inv;
    match s.pc[p]
    case FreeDec(page, th) => FreeDecKeeps(s, Tick(s, p, ok), p, page, th);
    case FreeJunk(page, th) => FreeJunkKeeps(s, p, page, th);
    case FreePush(page, th) => FreePushKeeps(s, Tick(s, p, ok), p, page, th);
  }

  lemma TickKeeps(s: State, p: nat, ok: bool)
    requires Inv(s) && p in s.pc && p in s.sz && CanTick(s, p)
    ensures Inv(Tick(s, p, ok))
  {
    hide Inv;
    var pc := s.pc[p];
    if pc.ForkMark? || pc.ForkMap? || pc.ForkInc? {
      ForkTickKeeps(s, p, ok);
    } else if pc.CowCheck? || pc.CowUpgrade? {
      CowTickKeeps(s, p, ok);
    } else if pc.CowCopy? {
      CopyTickKeeps(s, p, pc.v, pc.page, pc.i);
    } else if pc.AllocPop? || pc.AllocRef? || pc.AllocJunk? {
      AllocTickKeeps(s, p, ok);
    } else if pc.GrowZero? || pc.GrowMap? {
      GrowTickKeeps(s, p, ok);
    } else if pc.Unmap? || pc.ClearPte? {
      UnmapTickKeeps(s, p, ok);
    } else {
      FreeTickKeeps(s, p, ok);
    }
  }

  /** Every step of every slot keeps the reference-count invariant. */
  lemma StepKeeps(s: State, p: nat, e: Event)
    requires Inv(s) && Enabled(s, p, e)
    ensures Inv(Do(s, p, e))
  {
    hide Inv, Tick, CanTick;
    if e.Kernel? {
      TickKeeps(s, p, e.ok);
    } else {
      UserEventKeeps(s, p, e);
    }
  }
}
