/** The refinement theorem over whole runs. */
module CowRuns {
  import opened CowProtocol
  import opened CowInvariant
  import opened CowFrames
  import opened CowSteps
  import opened CowSafety
  import opened CowRefinement

  // ---------------------------------------------------------------- slots

  lemma ForkCallRefines(s: State, t: State, p: nat, c: nat)
    requires Inv(s) && Content(s) && p in s.pc && p in s.sz && s.pc[p] == User && c !in s.pc
    requires t == s.(pc := s.pc[p := InFork(c)][c := ForkMark(p, 0)], sz := s.sz[c := 0])
    ensures Content(t) && Abs(t) == Abs(s)
  {
    hide Inv, Abs;
    forall q | q in t.pc && q in t.sz ensures ContentOk(t, q) {
      if q != p && q != c {
        OtherContent(s, t, p, q);
      }
    }
    forall k | k in s.pt ensures k.pid != c {
      EntryOf(s, k);
    }
    AbsSame(s, t);
  }

  lemma CopyAllKey(s: State, t: State, c: nat, par: nat, v: nat, k: Key)
    requires c in s.pc && c in s.sz && s.pc[c] == ForkMark(par, v) && c != par
    requires par in s.pc && par in s.sz && v == s.sz[par] && s.pc[par] == InFork(c)
    requires SameEntries(s, c, par, v)
    requires t == s.(pc := s.pc[c := User][par := User], sz := s.sz[c := s.sz[par]])
    ensures Visible(t, k) <==> Visible(s, k) || (k.pid == c && Visible(s, Key(par, k.vpn)))
    ensures k.pid == c && Visible(t, k) ==> s.pt[k].page == s.pt[Key(par, k.vpn)].page
  {
    if k.pid == c && k.vpn < v {
      assert SameEntry(s, c, par, k.vpn) && k == Key(c, k.vpn);
    }
  }

  lemma CopyAllAbs(s: State, t: State, c: nat, par: nat, v: nat)
    requires c in s.pc && c in s.sz && s.pc[c] == ForkMark(par, v) && c != par
    requires par in s.pc && par in s.sz && v == s.sz[par] && s.pc[par] == InFork(c)
    requires SameEntries(s, c, par, v)
    requires t == s.(pc := s.pc[c := User][par := User], sz := s.sz[c := s.sz[par]])
    ensures Abs(t) == Apply(Abs(s), CopyAll(par, c))
  {
    var m, copies := Abs(s), Copies(Abs(s), par, c);
    forall k: Key
      ensures k in Abs(t) <==> k in m || k in copies
      ensures k in copies ==> k in Abs(t) && Abs(t)[k] == copies[k]
      ensures k in m && k !in copies ==> k in Abs(t) && Abs(t)[k] == m[k]
    {
      CopyAllKey(s, t, c, par, v, k);
      assert k == Key(k.pid, k.vpn);
    }
  }

  /** fork returns: the child reads what the parent reads. */
  lemma ForkReturnRefines(s: State, t: State, c: nat, par: nat, v: nat)
    requires Inv(s) && Content(s) && c in s.pc && c in s.sz && s.pc[c] == ForkMark(par, v)
    requires par in s.pc && par in s.sz && v >= s.sz[par]
    requires t == s.(pc := s.pc[c := User][par := User], sz := s.sz[c := s.sz[par]])
    ensures Content(t) && Abs(t) == Apply(Abs(s), CopyAll(par, c))
  {
    hide Inv, Abs, Apply;
    SlotOf(s, c);
    ContentOf(s, c);
    forall q | q in t.pc && q in t.sz ensures ContentOk(t, q) {
      if q != par && q != c {
        SlotOf(s, q);
        OtherContent(s, t, c, q);
      }
    }
    CopyAllAbs(s, t, c, par, v);
  }

  lemma UnmapDoneAbs(s: State, t: State, p: nat, j: nat, lim: nat, after: After)
    requires p in s.pc && p in s.sz && s.pc[p] == Unmap(j, lim, after) && j >= lim && !after.BackToUser?
    requires after.Abort? ==> after.parent in s.pc && s.pc[after.parent] == InFork(p)
    requires t == TickUnmap(s, p, j, lim, after)
    ensures Abs(t) == Abs(s)
  {
    AbsSame(s, t);
  }

  /** A failed fork or a reaped process leaves no trace. */
  lemma UnmapDoneRefines(s: State, t: State, p: nat, j: nat, lim: nat, after: After)
    requires Inv(s) && Content(s) && p in s.pc && p in s.sz && s.pc[p] == Unmap(j, lim, after) && j >= lim && !after.BackToUser?
    requires after.Abort? ==> after.parent in s.pc
    requires t == TickUnmap(s, p, j, lim, after)
    ensures Content(t) && Abs(t) == Abs(s)
  {
    hide Inv, Abs;
    SlotOf(s, p);
    forall q | q in t.pc && q in t.sz ensures ContentOk(t, q) {
      if !(after.Abort? && q == after.parent) {
        SlotOf(s, q);
        OtherContent(s, t, p, q);
      }
    }
    UnmapDoneAbs(s, t, p, j, lim, after);
  }

  // ---------------------------------------------------------------- steps

  /** The state t is what the specification has after op. */
  ghost predicate Refined(s: State, t: State, op: EagerOp) {
    Content(t) && Abs(t) == Apply(Abs(s), op)
  }

  lemma NothingHappens(s: State)
    ensures Apply(Abs(s), Nothing) == Abs(s)
  {
  }

  /** p only goes to another program counter, which does not show. */
  lemma GotoRefines(s: State, p: nat, pc: Pc)
    requires Inv(s) && Content(s) && p in s.pc && p in s.sz && !s.pc[p].InFork?
    requires Limit(pc, s.sz[p]) == Limit(s.pc[p], s.sz[p]) && ContentOk(Goto(s, p, pc), p)
    ensures Refined(s, Goto(s, p, pc), Nothing)
  {
    hide Inv, Content, Abs, Limit;
    Invisible(s, Goto(s, p, pc), p);
  }

  /** As GotoRefines, with a change to the allocator's books. */
  lemma BooksRefine(s: State, t: State, p: nat)
    requires Inv(s) && Content(s) && p in s.pc && p in s.sz && !s.pc[p].InFork? && p in t.pc
    requires t == s.(pc := s.pc[p := t.pc[p]], count := t.count, free := t.free) && |t.count| == |s.count|
    requires Limit(t.pc[p], s.sz[p]) == Limit(s.pc[p], s.sz[p]) && ContentOk(t, p)
    ensures Refined(s, t, Nothing)
  {
    hide Inv, Content, Abs;
    Invisible(s, t, p);
  }

  lemma GrowCallRefines(s: State, p: nat, lim: nat)
    requires Inv(s) && Content(s) && p in s.pc && p in s.sz && s.pc[p] == User
    ensures Refined(s, Goto(s, p, AllocPop(ForGrow(s.sz[p], lim))), Nothing)
  {
    hide Inv, Content, Abs, Apply;
    GotoRefines(s, p, AllocPop(ForGrow(s.sz[p], lim)));
  }

  lemma SyscallRefines(s: State, p: nat, e: Event)
    requires Inv(s) && Content(s) && Enabled(s, p, e)
    requires e.Fault? || e.Reap? || e.KernelAlloc? || e.KernelFree?
    ensures Refined(s, Do(s, p, e), Effect(s, p, e))
  {
    hide Inv, Refined, Apply, Tick, TickEffect, CanTick;
    match e
    case Fault(v, trap) => GotoRefines(s, p, CowCheck(v, trap));
    case Reap => GotoRefines(s, p, Unmap(0, s.sz[p], Reaped));
    case KernelAlloc => GotoRefines(s, p, AllocPop(ForKernel));
    case KernelFree => GotoRefines(s, p, FreeDec(s.pc[p].page, Resume));
  }

  lemma UserEventRefines(s: State, p: nat, e: Event)
    requires Inv(s) && Content(s) && Enabled(s, p, e) && !e.Kernel?
    ensures Refined(s, Do(s, p, e), Effect(s, p, e))
  {
    hide Inv, Content, Abs, Apply, Tick, TickEffect, CanTick;
    NothingHappens(s);
    var t := Do(s, p, e);
    match e
    case Store(v, i, b) => StoreRefines(s, t, p, v, i, b);
    case CopyoutByte(v, i, b) =>
      EntryOf(s, Key(p, v));
      StoreRefines(s, t, p, v, i, b);
    case ForkCall(c) => ForkCallRefines(s, t, p, c);
    case Grow(lim) => GrowCallRefines(s, p, lim);
    case Shrink(n) => Drops(s, t, p, n);
    case Exit => Drops(s, t, p, 0);
    case UvmClear(v) => UvmClearRefines(s, t, p, v);
    case _ => SyscallRefines(s, p, e);
  }

  lemma ForkTickRefines(s: State, p: nat, ok: bool)
    requires Inv(s) && Content(s) && p in s.pc && p in s.sz && CanTick(s, p)
    requires s.pc[p].ForkMark? || s.pc[p].ForkMap? || s.pc[p].ForkInc?
    ensures Refined(s, Tick(s, p, ok), TickEffect(s, p, ok))
  {
    hide Inv, Content, Abs, Enabled;
    var t := Tick(s, p, ok);
    ContentOf(s, p);
    match s.pc[p]
    case ForkMark(par, v) =>
      if v < s.sz[par] {
        ForkMarkRefines(s, t, p, par, v);
      } else {
        ForkReturnRefines(s, t, p, par, v);
      }
    case ForkMap(par, v) =>
      if ok {
        ForkMapRefines(s, t, p, par, v);
      } else {
        GotoRefines(s, p, Unmap(0, v, Abort(par)));
      }
    case ForkInc(par, v) => ForkIncRefines(s, t, p, par, v);
  }

  lemma ForkIncRefines(s: State, t: State, c: nat, par: nat, v: nat)
    requires Inv(s) && Content(s) && c in s.pc && c in s.sz && s.pc[c] == ForkInc(par, v)
    requires t == s.(pc := s.pc[c := ForkMark(par, v + 1)], count := t.count) && |t.count| == |s.count|
    ensures Refined(s, t, Nothing)
  {
    hide Inv, Content, Abs, Refined;
    ContentOf(s, c);
    forall x | 0 <= x < v + 1 ensures SameEntry(t, c, par, x) {
      assert SameEntry(s, c, par, x);
    }
    BooksRefine(s, t, c);
  }

  lemma CowCheckRefines(s: State, p: nat, v: nat, trap: bool)
    requires Inv(s) && Content(s) && p in s.pc && p in s.sz && s.pc[p] == CowCheck(v, trap) && CanTick(s, p)
    ensures Refined(s, TickCowCheck(s, p, v, trap), TickEffect(s, p, true))
  {
    hide Inv, Content, Abs, Apply, Tick;
    NothingHappens(s);
    if !CowEntry(s, p, v) {
      if trap {
        Drops(s, Goto(s, p, Zombie), p, 0);
      } else {
        GotoRefines(s, p, User);
      }
    } else if s.count[s.pt[Key(p, v)].page] == 1 {
      GotoRefines(s, p, CowUpgrade(v));
    } else {
      GotoRefines(s, p, AllocPop(ForCow(v, trap)));
    }
  }

  lemma OneByteMore(dst: seq<Byte>, src: seq<Byte>, i: nat, j: nat)
    requires i < |dst| && i < |src| && j == i + 1 && dst[..i] == src[..i]
    ensures dst[i := src[i]][..j] == src[..j]
  {
    assert dst[i := src[i]][..j] == dst[..i] + [src[i]];
    assert src[..j] == src[..i] + [src[i]];
  }

  /** A copied byte lands in a page nobody can read yet. */
  lemma CopyByteRefines(s: State, t: State, p: nat, v: nat, page: nat, i: nat)
    requires Inv(s) && Content(s) && p in s.pc && p in s.sz && s.pc[p] == CowCopy(v, page, i) && i < PGSIZE
    requires CanTick(s, p) && t == TickCowCopy(s, p, v, page, i)
    ensures Refined(s, t, Nothing)
  {
    hide Inv, Content, Abs;
    assert HandOwns(s, p, page);
    ContentOf(s, p);
    HandIsPrivate(s, p, page);
    CopyIsElsewhere(s, p, v, page, i);
    OneByteMore(s.mem[page], s.mem[s.pt[Key(p, v)].page], i, i + 1);
    InvisibleWrite(s, t, p, page);
  }

  lemma CowTickRefines(s: State, p: nat, ok: bool)
    requires Inv(s) && Content(s) && p in s.pc && p in s.sz && CanTick(s, p)
    requires s.pc[p].CowCheck? || s.pc[p].CowUpgrade? || s.pc[p].CowCopy?
    ensures Refined(s, Tick(s, p, ok), TickEffect(s, p, ok))
  {
    hide Inv, Content, Abs, Enabled;
    var t := Tick(s, p, ok);
    match s.pc[p]
    case CowCheck(v, trap) => CowCheckRefines(s, p, v, trap);
    case CowUpgrade(v) =>
      CowUpgradeRetables(s, t, p, v);
      RetabledRefines(s, t, p, Key(p, v));
    case CowCopy(v, page, i) =>
      if i < PGSIZE {
        CopyByteRefines(s, t, p, v, page, i);
      } else {
        CowSetRefines(s, t, p, v, page);
      }
  }

  lemma FreshStays(s: State, t: State, p: nat, lo: nat, hi: nat, page: nat)
    requires Fresh(s, p, lo, hi) && t.pt == s.pt && |t.mem| == |s.mem| && |t.count| == |s.count|
    requires forall pg :: 0 <= pg < |s.mem| && pg != page ==> t.mem[pg] == s.mem[pg]
    requires p in s.pc && (forall v :: Counted(s.pc[p], v)) && Unseen(s, page)
    ensures Fresh(t, p, lo, hi)
  {
    forall v | lo <= v < hi ensures ZeroPage(t, p, v) {
      assert ZeroPage(s, p, v);
      assert KeyOwns(s, Key(p, v), s.pt[Key(p, v)].page);
    }
  }

  lemma AllocPopRefines(s: State, p: nat, why: Why)
    requires Inv(s) && Content(s) && p in s.pc && p in s.sz && s.pc[p] == AllocPop(why)
    ensures Refined(s, TickAllocPop(s, p, why), TickEffect(s, p, true))
  {
    hide Inv, Content, Abs, Apply, Tick, CanTick;
    NothingHappens(s);
    var t := TickAllocPop(s, p, why);
    ContentOf(s, p);
    SlotOf(s, p);
    if s.free != [] {
      if why.ForGrow? {
        forall v | s.sz[p] <= v < why.v ensures ZeroPage(t, p, v) {
          assert ZeroPage(s, p, v);
        }
      }
      BooksRefine(s, t, p);
    } else if why.ForCow? && why.trap {
      Drops(s, t, p, 0);
    } else {
      GotoRefines(s, p, t.pc[p]);
    }
  }

  lemma AllocRefRefines(s: State, t: State, p: nat, page: nat, why: Why)
    requires Inv(s) && Content(s) && p in s.pc && p in s.sz && s.pc[p] == AllocRef(page, why) && page < |s.count|
    requires t == Goto(s.(count := s.count[page := 1]), p, AllocJunk(page, why))
    ensures Refined(s, t, Nothing)
  {
    hide Inv, Content, Abs, Refined;
    ContentOf(s, p);
    if why.ForGrow? {
      forall v | s.sz[p] <= v < why.v ensures ZeroPage(t, p, v) {
        assert ZeroPage(s, p, v);
      }
    }
    BooksRefine(s, t, p);
  }

  lemma AllocJunkRefines(s: State, t: State, p: nat, page: nat, why: Why)
    requires Inv(s) && Content(s) && p in s.pc && p in s.sz && s.pc[p] == AllocJunk(page, why) && page < |s.mem|
    requires t == Goto(Fill(s, page, 5), p, AfterAlloc(page, why))
    ensures Refined(s, t, Nothing)
  {
    hide Inv, Content, Abs;
    ContentOf(s, p);
    SlotOf(s, p);
    ShapeOf(s);
    assert HandOwns(s, p, page);
    HandIsPrivate(s, p, page);
    if why.ForGrow? {
      FreshStays(s, t, p, s.sz[p], why.v, page);
    }
    if why.ForCow? {
      EntryOf(s, Key(p, why.v));
    }
    InvisibleWrite(s, t, p, page);
  }

  lemma GrowZeroRefines(s: State, t: State, p: nat, page: nat, v: nat, lim: nat)
    requires Inv(s) && Content(s) && p in s.pc && p in s.sz && s.pc[p] == GrowZero(page, v, lim) && page < |s.mem|
    requires t == Goto(Fill(s, page, 0), p, GrowMap(page, v, lim))
    ensures Refined(s, t, Nothing)
  {
    hide Inv, Content, Abs;
    ContentOf(s, p);
    ShapeOf(s);
    assert HandOwns(s, p, page);
    HandIsPrivate(s, p, page);
    FreshStays(s, t, p, s.sz[p], v, page);
    InvisibleWrite(s, t, p, page);
  }

  lemma GrowMapRefines(s: State, p: nat, page: nat, v: nat, lim: nat, ok: bool)
    requires Inv(s) && Content(s) && p in s.pc && p in s.sz && s.pc[p] == GrowMap(page, v, lim) && Key(p, v) !in s.pt
    ensures Refined(s, TickGrowMap(s, p, page, v, lim, ok), TickEffect(s, p, ok))
  {
    hide Inv, Content, Abs, Apply, Tick;
    NothingHappens(s);
    var t := TickGrowMap(s, p, page, v, lim, ok);
    SlotOf(s, p);
    ContentOf(s, p);
    if !ok {
      GotoRefines(s, p, t.pc[p]);
    } else if v + 1 < lim {
      GrowMapRetables(s, t, p, page, v, lim);
      RetabledRefines(s, t, p, Key(p, v));
    } else {
      GrowDoneRefines(s, t, p, page, v, lim);
    }
  }

  lemma AllocTickRefines(s: State, p: nat, ok: bool)
    requires Inv(s) && Content(s) && p in s.pc && p in s.sz && CanTick(s, p)
    requires s.pc[p].AllocPop? || s.pc[p].AllocRef? || s.pc[p].AllocJunk? || s.pc[p].GrowZero? || s.pc[p].GrowMap?
    ensures Refined(s, Tick(s, p, ok), TickEffect(s, p, ok))
  {
    hide Inv, Content, Abs, Refined, Enabled;
    var t := Tick(s, p, ok);
    match s.pc[p]
    case AllocPop(why) => AllocPopRefines(s, p, why);
    case AllocRef(page, why) => AllocRefRefines(s, t, p, page, why);
    case AllocJunk(page, why) => AllocJunkRefines(s, t, p, page, why);
    case GrowZero(page, v, lim) => GrowZeroRefines(s, t, p, page, v, lim);
    case GrowMap(page, v, lim) => GrowMapRefines(s, p, page, v, lim, ok);
  }

  lemma ShrunkRefines(s: State, t: State, p: nat, j: nat, lim: nat, n: nat)
    requires Inv(s) && Content(s) && p in s.pc && p in s.sz && s.pc[p] == Unmap(j, lim, BackToUser(n))
    requires t == Goto(s.(sz := s.sz[p := n]), p, User)
    ensures Refined(s, t, Nothing)
  {
    hide Inv, Content, Abs;
    Invisible(s, t, p);
  }

  lemma UnmapTickRefines(s: State, p: nat, ok: bool)
    requires Inv(s) && Content(s) && p in s.pc && p in s.sz && CanTick(s, p)
    requires s.pc[p].Unmap? || s.pc[p].ClearPte?
    ensures Refined(s, Tick(s, p, ok), TickEffect(s, p, ok))
  {
    hide Inv, Content, Abs, Apply, Enabled;
    NothingHappens(s);
    var t := Tick(s, p, ok);
    match s.pc[p]
    case Unmap(j, lim, after) =>
      if j < lim {
        GotoRefines(s, p, FreeDec(s.pt[Key(p, j)].page, ThenClear(j, lim, after)));
      } else if after.BackToUser? {
        ShrunkRefines(s, t, p, j, lim, after.size);
      } else {
        UnmapDoneRefines(s, t, p, j, lim, after);
      }
    case ClearPte(j, lim, after) =>
      SlotOf(s, p);
      ClearPteRetables(s, t, p, j, lim, after);
      RetabledRefines(s, t, p, Key(p, j));
  }

  lemma FreeJunkRefines(s: State, t: State, p: nat, page: nat, th: Then)
    requires Inv(s) && Content(s) && p in s.pc && p in s.sz && s.pc[p] == FreeJunk(page, th) && page < |s.mem|
    requires t == Goto(Fill(s, page, 1), p, FreePush(page, th))
    ensures Refined(s, t, Nothing)
  {
    hide Inv, Content, Abs;
    ShapeOf(s);
    LimboIsPrivate(s, p, page);
    InvisibleWrite(s, t, p, page);
  }

  lemma FreeDecRefines(s: State, t: State, p: nat, page: nat, th: Then)
    requires Inv(s) && Content(s) && p in s.pc && p in s.sz && s.pc[p] == FreeDec(page, th) && p in t.pc
    requires t.pc[p] == ThenPc(th) || t.pc[p] == FreeJunk(page, th)
    requires t == s.(pc := s.pc[p := t.pc[p]], count := t.count) && |t.count| == |s.count|
    ensures Refined(s, t, Nothing)
  {
    hide Inv, Content, Abs, Refined;
    BooksRefine(s, t, p);
  }

  lemma FreePushRefines(s: State, t: State, p: nat, page: nat, th: Then)
    requires Inv(s) && Content(s) && p in s.pc && p in s.sz && s.pc[p] == FreePush(page, th)
    requires t == Goto(s.(free := [page] + s.free), p, ThenPc(th))
    ensures Refined(s, t, Nothing)
  {
    hide Inv, Content, Abs, Refined;
    BooksRefine(s, t, p);
  }

  lemma FreeTickRefines(s: State, p: nat, ok: bool)
    requires Inv(s) && Content(s) && p in s.pc && p in s.sz && CanTick(s, p)
    requires s.pc[p].FreeDec? || s.pc[p].FreeJunk? || s.pc[p].FreePush?
    ensures Refined(s, Tick(s, p, ok), TickEffect(s, p, ok))
  {
    hide Inv, Content, Abs, Refined, Enabled;
    var t := Tick(s, p, ok);
    match s.pc[p]
    case FreeDec(page, th) => FreeDecRefines(s, t, p, page, th);
    case FreeJunk(page, th) => FreeJunkRefines(s, t, p, page, th);
    case FreePush(page, th) => FreePushRefines(s, t, p, page, th);
  }

  /** Every step of every slot is one operation of the specification, or none. */
  lemma StepRefines(s: State, p: nat, e: Event)
    requires Inv(s) && Content(s) && Enabled(s, p, e)
    ensures Refined(s, Do(s, p, e), Effect(s, p, e))
  {
    hide Inv, Content, Refined;
    if e.Kernel? {
      var pc := s.pc[p];
      if pc.ForkMark? || pc.ForkMap? || pc.ForkInc? {
        ForkTickRefines(s, p, e.ok);
      } else if pc.CowCheck? || pc.CowUpgrade? || pc.CowCopy? {
        CowTickRefines(s, p, e.ok);
      } else if pc.Unmap? || pc.ClearPte? {
        UnmapTickRefines(s, p, e.ok);
      } else if pc.FreeDec? || pc.FreeJunk? || pc.FreePush? {
        FreeTickRefines(s, p, e.ok);
      } else {
        AllocTickRefines(s, p, e.ok);
      }
    } else {
      UserEventRefines(s, p, e);
    }
  }

  // ---------------------------------------------------------------- runs

  /** All pages free, no process has any memory. */
  ghost predicate Init(s: State) {
    && Shape(s) && s.pt == map[] && s.pc.Keys == s.sz.Keys
    && (forall p :: p in s.pc ==> s.pc[p] == User && p in s.sz && s.sz[p] == 0)
    && (forall page :: 0 <= page < |s.count| ==> s.count[page] == 0 && page in s.free)
    && (forall i :: 0 <= i < |s.free| ==> s.free[i] < |s.count|)
    && (forall i, j :: 0 <= i < j < |s.free| ==> s.free[i] != s.free[j])
  }

  lemma InitHolds(s: State)
    requires Init(s)
    ensures Inv(s) && Content(s) && Abs(s) == map[]
  {
    forall page | 0 <= page < |s.count| ensures CountOk(s, page) {
      assert KeyOwners(s, page) == {} && HandOwners(s, page) == {};
    }
  }

  /** A run: the slot and event of each step, any interleaving. */
  datatype Run = Start(s: State) | Then(run: Run, p: nat, e: Event) {
    ghost predicate Legal()
      decreases this, 0
    {
      match this
      case Start(s) => Init(s)
      case Then(run, p, e) => run.Legal() && Enabled(run.Last(), p, e)
    }

    ghost function Last(): State
      requires Legal()
      decreases this, 1
    {
      match this
      case Start(s) => s
      case Then(run, p, e) => Do(run.Last(), p, e)
    }

    /** The same run in the specification. */
    ghost function Spec(): Eager
      requires Legal()
      decreases this, 1
    {
      match this
      case Start(s) => map[]
      case Then(run, p, e) => Apply(run.Spec(), Effect(run.Last(), p, e))
    }
  }

  /** Over every interleaved run, what the processes read is what they read in
      the memory where fork copies everything; and the reference counts agree
      with the holders throughout. */
  lemma {:induction false} CowRefinesEager(run: Run)
    requires run.Legal()
    ensures Inv(run.Last()) && Content(run.Last())
    ensures Abs(run.Last()) == run.Spec()
    decreases run
  {
    match run
    case Start(s) => InitHolds(s);
    case Then(r, p, e) =>
      CowRefinesEager(r);
      StepKeeps(r.Last(), p, e);
      StepRefines(r.Last(), p, e);
  }

  /** In no reachable state can a kernel routine panic or lack its next step. */
  lemma RunNeverPanics(run: Run, p: nat)
    requires run.Legal() && p in run.Last().pc && InKernel(run.Last().pc[p])
    ensures Enabled(run.Last(), p, Kernel(true)) && Enabled(run.Last(), p, Kernel(false))
  {
    CowRefinesEager(run);
    NeverPanics(run.Last(), p);
  }

  /** The count of a page is the number of its holders; a free page has count
      zero and no holder; a page that some process can write has no other holder. */
  lemma CountsAreHolders(run: Run, page: nat)
    requires run.Legal() && page < |run.Last().count|
    ensures var s := run.Last();
            && s.count[page] == |KeyOwners(s, page)| + |HandOwners(s, page)|
            && (page in s.free ==> s.count[page] == 0 && KeyOwners(s, page) == {} && HandOwners(s, page) == {})
            && forall k :: KeyOwns(s, k, page) && s.pt[k].UserWritable() ==>
                 KeyOwners(s, page) == {k} && HandOwners(s, page) == {}
  {
    CowRefinesEager(run);
    var s := run.Last();
    assert CountOk(s, page);
    forall k | KeyOwns(s, k, page) && s.pt[k].UserWritable()
      ensures KeyOwners(s, page) == {k} && HandOwners(s, page) == {}
    {
      WritableIsPrivate(s, k);
      assert KeyOk(s, k);
      assert k in KeyOwners(s, page);
      assert |KeyOwners(s, page)| >= 1 by { OneMember(KeyOwners(s, page), k); }
    }
  }

  predicate Touches(op: EagerOp, pid: nat) {
    match op
    case Nothing => false
    case Put(k, _, _) => k.pid == pid
    case CopyAll(_, dst) => dst == pid
    case Extend(p, _, _) => p == pid
    case Truncate(p, _) => p == pid
    case Hide(k) => k.pid == pid
  }

  lemma UntouchedStays(m: Eager, op: EagerOp, k: Key)
    requires k in m && !Touches(op, k.pid)
    ensures k in Apply(m, op) && Apply(m, op)[k] == m[k]
  {
  }

  lemma StepTouchesItself(s: State, p: nat, e: Event, q: nat)
    requires Enabled(s, p, e) && q != p
    ensures !Touches(Effect(s, p, e), q)
  {
  }

  /** A step of one slot never changes what another process reads. */
  lemma Isolation(run: Run, p: nat, e: Event, k: Key)
    requires run.Legal() && Enabled(run.Last(), p, e) && k in Abs(run.Last()) && k.pid != p
    ensures k in Abs(Do(run.Last(), p, e)) && Abs(Do(run.Last(), p, e))[k] == Abs(run.Last())[k]
  {
    CowRefinesEager(run);
    StepRefines(run.Last(), p, e);
    StepTouchesItself(run.Last(), p, e, k.pid);
    UntouchedStays(Abs(run.Last()), Effect(run.Last(), p, e), k);
  }
}
