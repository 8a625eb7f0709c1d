/** Every step keeps the reference-count invariant, and no step panics. */
module CowSteps {
  import opened CowProtocol
  import opened CowInvariant
  import opened CowFrames

  // ---------------------------------------------------------------- uvmcopy

  /** Entry k gets other permissions on the same page. */
  ghost predicate Reflag(s: State, t: State, k: Key) {
    && k in s.pt && k in t.pt && k.pid in s.pc && t == s.(pt := s.pt[k := t.pt[k]])
    && t.pt[k].page == s.pt[k].page
    && (t.pt[k].u ==> t.pt[k].w != t.pt[k].cow)
    && match s.pc[k.pid] {
         case User => true
         case InFork(c) => c in s.pc && s.pc[c].ForkMark?
         case _ => false
       }
  }

  lemma ReflagSlots(s: State, t: State, k: Key)
    requires Slots(s) && Reflag(s, t, k)
    ensures Slots(t)
  {
    forall q | q in t.pc ensures SlotOk(t, q) && ParentOk(t, q) {
      assert SlotOk(s, q) && ParentOk(s, q);
    }
  }

  lemma ReflagHolders(s: State, t: State, k: Key)
    requires Reflag(s, t, k) && Keys(s) && Hands(s) && KeyOk(t, k)
    ensures Keys(t) && Hands(t)
  {
    forall l | l in t.pt ensures KeyOk(t, l) {
      assert KeyOk(s, l);
    }
    forall q | q in t.pc ensures HandOk(t, q) && UpgradeOk(t, q) {
      assert HandOk(s, q) && UpgradeOk(s, q);
    }
  }

  lemma ReflagCounts(s: State, t: State, k: Key)
    requires Counts(s) && Reflag(s, t, k)
    ensures Counts(t)
  {
    assert OthersHold(s, t, k.pid, k);
    CountsChange(s, t, k.pid, k);
  }

  lemma ReflagKeeps(s: State, t: State, k: Key)
    requires Inv(s) && Reflag(s, t, k) && KeyOk(t, k)
    ensures Inv(t)
  {
    ReflagSlots(s, t, k);
    ReflagHolders(s, t, k);
    ReflagCounts(s, t, k);
    ListsKeep(s, t, k.pid);
  }

  /** The parent's writable page becomes a copy-on-write page. */
  lemma ForkMarkKeeps(s: State, c: nat, par: nat, v: nat)
    requires Inv(s) && c in s.pc && c in s.sz && s.pc[c] == ForkMark(par, v)
    requires par in s.sz && v < s.sz[par]
    ensures HasPte(s, par, v) && Inv(TickForkMark(s, c, par, v))
  {
    assert SlotOk(s, c) && ParentOk(s, c);
    var k := Key(par, v);
    assert Mapped(s.pc[par], s.sz[par], v);
    assert KeyOk(s, k);
    var pte := s.pt[k];
    var u := s.(pt := s.pt[k := if pte.UserWritable() then pte.(w := false, cow := true) else pte]);
    ReflagKeeps(s, u, k);
    ForkMarkMoves(u, c, par, v);
    SilentKeeps(u, Goto(u, c, ForkMap(par, v)), c);
  }

  lemma ForkMarkMoves(s: State, c: nat, par: nat, v: nat)
    requires c in s.pc && c in s.sz && s.pc[c] == ForkMark(par, v)
    ensures Silent(s, Goto(s, c, ForkMap(par, v)), c)
  {
  }

  lemma ForkMapMoves(s: State, t: State, c: nat, par: nat, v: nat)
    requires c in s.pc && c in s.sz && s.pc[c] == ForkMap(par, v) && SlotOk(s, c)
    requires Key(c, v) !in s.pt && Key(par, v) in s.pt && c != par
    requires t == Goto(s.(pt := s.pt[Key(c, v) := s.pt[Key(par, v)]]), c, ForkInc(par, v))
    ensures Move(s, t, c, Key(c, v)) && Passes(s, t, c, Key(c, v)) && SlotOk(t, c)
  {
    assert t.pt - {Key(c, v)} == s.pt - {Key(c, v)};
  }

  /** The child's entry is added before it is counted. */
  lemma ForkMapKeeps(s: State, t: State, c: nat, par: nat, v: nat)
    requires Inv(s) && c in s.pc && c in s.sz && s.pc[c] == ForkMap(par, v) && Key(par, v) in s.pt
    requires t == Goto(s.(pt := s.pt[Key(c, v) := s.pt[Key(par, v)]]), c, ForkInc(par, v))
    ensures Key(c, v) !in s.pt && Inv(t)
  {
    assert SlotOk(s, c) && ParentOk(s, c);
    assert !Mapped(s.pc[c], s.sz[c], v);
    assert KeyOk(s, Key(par, v));
    ForkMapMoves(s, t, c, par, v);
    MoveKeeps(s, t, c, Key(c, v));
  }

  /** While fork is about to count its new mapping, the parent's own mapping
      keeps the page shared: nobody takes it for private. */
  lemma ForkIncUndisturbed(s: State, c: nat, par: nat, v: nat)
    requires Inv(s) && c in s.pc && c in s.sz && s.pc[c] == ForkInc(par, v)
    requires SharedEntry(s, par, v) && par in s.pc && s.pc[par] == InFork(c) && s.pt[Key(par, v)].page < |s.count|
    ensures s.count[s.pt[Key(par, v)].page] >= 1
    ensures Undisturbed(s, c, Key(c, v), s.pt[Key(par, v)].page)
  {
    var k, page := Key(par, v), s.pt[Key(par, v)].page;
    assert KeyOwns(s, k, page);
    KeyCounts(s, page, k);
    forall l | l != Key(c, v) && KeyOwns(s, l, page) ensures !s.pt[l].UserWritable() {
      assert KeyOk(s, l);
      if s.pt[l].UserWritable() {
        TwoKeys(s, page, k, l);
      }
    }
    forall q | q != c && HandOwns(s, q, page) ensures s.pc[q].FreeDec? {
      assert HandOk(s, q);
      KeyAndHand(s, page, k, q);
    }
    forall q | q != c && q in s.pc && s.pc[q].CowUpgrade? && Key(q, s.pc[q].v) in s.pt
      ensures s.pt[Key(q, s.pc[q].v)].page != page
    {
      assert UpgradeOk(s, q);
      if s.pt[Key(q, s.pc[q].v)].page == page {
        TwoKeys(s, page, k, Key(q, s.pc[q].v));
      }
    }
    forall q | q != c && q in s.pc ensures Limbo(s.pc[q]) != Some(page) {
      assert LimboOk(s, q);
    }
  }

  lemma ForkIncKeeps(s: State, t: State, c: nat, par: nat, v: nat, page: nat)
    requires Inv(s) && c in s.pc && c in s.sz && s.pc[c] == ForkInc(par, v)
    requires Key(par, v) in s.pt && s.pt[Key(par, v)].page == page < |s.count|
    requires t == Goto(s.(count := s.count[page := s.count[page] + 1]), c, ForkMark(par, v + 1))
    ensures s.count[page] >= 1 && Inv(t)
  {
    assert SlotOk(s, c) && ParentOk(s, c) && KeyOk(s, Key(c, v));
    ForkIncUndisturbed(s, c, par, v);
    ForkIncRecounts(s, t, c, par, v, page);
    RecountKeeps(s, t, c, Key(c, v), page);
  }

  lemma ForkIncRecounts(s: State, t: State, c: nat, par: nat, v: nat, page: nat)
    requires c in s.pc && c in s.sz && s.pc[c] == ForkInc(par, v) && SlotOk(s, c)
    requires Key(par, v) in s.pt && s.pt[Key(par, v)].page == page < |s.count| && s.count[page] >= 1
    requires t == Goto(s.(count := s.count[page := s.count[page] + 1]), c, ForkMark(par, v + 1))
    ensures Recount(s, t, c, Key(c, v), page) && SlotOk(t, c)
  {
  }

  // ---------------------------------------------------------------- kfree

  lemma FreeDecUndisturbed(s: State, p: nat, page: nat, th: Then, k: Key)
    requires Inv(s) && p in s.pc && p in s.sz && s.pc[p] == FreeDec(page, th) && page < |s.count|
    ensures s.count[page] >= 1
    ensures Undisturbed(s, p, k, page) && (k in s.pt && KeyOwns(s, k, page) ==> !s.pt[k].UserWritable())
  {
    assert HandOwns(s, p, page);
    HandCounts(s, page, p);
    forall l | KeyOwns(s, l, page) ensures !s.pt[l].UserWritable() {
      assert KeyOk(s, l);
      KeyAndHand(s, page, l, p);
    }
    forall q | q != p && HandOwns(s, q, page) ensures s.pc[q].FreeDec? {
      assert HandOk(s, q);
      TwoHands(s, page, p, q);
    }
    forall q | q != p && q in s.pc && s.pc[q].CowUpgrade? && Key(q, s.pc[q].v) in s.pt
      ensures s.pt[Key(q, s.pc[q].v)].page != page
    {
      assert UpgradeOk(s, q);
      if s.pt[Key(q, s.pc[q].v)].page == page {
        KeyAndHand(s, page, Key(q, s.pc[q].v), p);
      }
    }
    forall q | q != p && q in s.pc ensures Limbo(s.pc[q]) != Some(page) {
      assert LimboOk(s, q);
    }
  }

  lemma FreeDecRecounts(s: State, t: State, p: nat, page: nat, th: Then)
    requires p in s.pc && p in s.sz && s.pc[p] == FreeDec(page, th) && page < |s.count| && s.count[page] >= 1
    requires t == Goto(s.(count := s.count[page := s.count[page] - 1]), p,
                       if s.count[page] > 1 then ThenPc(th) else FreeJunk(page, th))
    requires SlotOk(s, p)
    ensures Recount(s, t, p, Key(p, 0), page) && SlotOk(t, p)
  {
  }

  /** Dropping one of several references leaves no private page shared. */
  lemma FreeDecKeeps(s: State, t: State, p: nat, page: nat, th: Then)
    requires Inv(s) && p in s.pc && p in s.sz && s.pc[p] == FreeDec(page, th) && page < |s.count|
    requires t == Goto(s.(count := s.count[page := s.count[page] - 1]), p,
                       if s.count[page] > 1 then ThenPc(th) else FreeJunk(page, th))
    ensures s.count[page] >= 1 && Inv(t)
  {
    var k := Key(p, 0);
    FreeDecUndisturbed(s, p, page, th, k);
    FreeDecRecounts(s, t, p, page, th);
    if k in t.pt {
      assert KeyOk(s, k);
    }
    RecountKeeps(s, t, p, k, page);
  }

  lemma FreePushLists(s: State, t: State, p: nat, page: nat, th: Then)
    requires Lists(s) && p in s.pc && s.pc[p] == FreePush(page, th)
    requires t == Goto(s.(free := [page] + s.free), p, ThenPc(th))
    ensures Lists(t)
  {
    assert LimboOk(s, p);
    forall q | q in t.pc ensures LimboOk(t, q) {
      assert LimboOk(s, q);
    }
    forall pg | 0 <= pg < |t.count| ensures Accounted(t, pg) {
      assert Accounted(s, pg);
      assert t.free[0] == page && forall x :: x in s.free ==> x in t.free;
      if t.count[pg] == 0 && pg !in t.free {
        var q :| q in s.pc && Limbo(s.pc[q]) == Some(pg);
        assert q in t.pc && Limbo(t.pc[q]) == Some(pg);
      }
    }
  }

  lemma FreePushKeeps(s: State, t: State, p: nat, page: nat, th: Then)
    requires Inv(s) && p in s.pc && p in s.sz && s.pc[p] == FreePush(page, th)
    requires t == Goto(s.(free := [page] + s.free), p, ThenPc(th))
    ensures Inv(t)
  {
    assert SlotOk(s, p);
    FreePushLists(s, t, p, page, th);
    FreePushMoves(s, t, p, page, th);
    SilentKeepsBut(s, t, p);
  }

  lemma FreePushMoves(s: State, t: State, p: nat, page: nat, th: Then)
    requires p in s.pc && p in s.sz && s.pc[p] == FreePush(page, th) && SlotOk(s, p)
    requires t == Goto(s.(free := [page] + s.free), p, ThenPc(th))
    ensures Silent(s, t, p) && SlotOk(t, p)
  {
  }

  // ---------------------------------------------------------------- kalloc

  lemma AllocPopLists(s: State, t: State, p: nat, why: Why)
    requires Lists(s) && p in s.pc && s.pc[p] == AllocPop(why) && s.free != []
    requires t == Goto(s.(free := s.free[1..]), p, AllocRef(s.free[0], why))
    ensures Lists(t)
  {
    forall q | q in t.pc ensures LimboOk(t, q) {
      assert LimboOk(s, q);
    }
    forall pg | 0 <= pg < |t.count| ensures Accounted(t, pg) {
      assert Accounted(s, pg);
      assert pg in s.free ==> pg == s.free[0] || pg in t.free;
      if t.count[pg] == 0 && pg !in t.free {
        if pg in s.free {
          assert Limbo(t.pc[p]) == Some(pg);
        } else {
          var q :| q in s.pc && Limbo(s.pc[q]) == Some(pg);
          assert q in t.pc && Limbo(t.pc[q]) == Some(pg);
        }
      }
    }
  }

  lemma AllocPopKeeps(s: State, t: State, p: nat, why: Why)
    requires Inv(s) && p in s.pc && p in s.sz && s.pc[p] == AllocPop(why) && s.free != []
    requires t == Goto(s.(free := s.free[1..]), p, AllocRef(s.free[0], why))
    ensures Inv(t)
  {
    assert SlotOk(s, p);
    AllocPopLists(s, t, p, why);
    AllocPopMoves(s, t, p, why);
    SilentKeepsBut(s, t, p);
  }

  lemma AllocPopMoves(s: State, t: State, p: nat, why: Why)
    requires p in s.pc && p in s.sz && s.pc[p] == AllocPop(why) && s.free != [] && SlotOk(s, p)
    requires t == Goto(s.(free := s.free[1..]), p, AllocRef(s.free[0], why))
    ensures Silent(s, t, p) && SlotOk(t, p)
  {
  }

  lemma AllocRefUndisturbed(s: State, p: nat, page: nat, k: Key)
    requires Inv(s) && p in s.pc && Limbo(s.pc[p]) == Some(page)
    ensures page < |s.count| && Undisturbed(s, p, k, page)
    ensures !KeyOwns(s, k, page)
  {
    assert LimboOk(s, p);
    forall l ensures !KeyOwns(s, l, page) {
      if KeyOwns(s, l, page) {
        KeyCounts(s, page, l);
      }
    }
    forall q ensures !HandOwns(s, q, page) {
      if HandOwns(s, q, page) {
        HandCounts(s, page, q);
      }
    }
    forall q | q != p && q in s.pc && s.pc[q].CowUpgrade? && Key(q, s.pc[q].v) in s.pt
      ensures s.pt[Key(q, s.pc[q].v)].page != page
    {
      assert !KeyOwns(s, Key(q, s.pc[q].v), page);
    }
  }

  lemma AllocRefRecounts(s: State, t: State, p: nat, page: nat, why: Why)
    requires p in s.pc && p in s.sz && s.pc[p] == AllocRef(page, why) && page < |s.count| && s.count[page] == 0
    requires t == Goto(s.(count := s.count[page := 1]), p, AllocJunk(page, why))
    requires SlotOk(s, p) && !KeyOwns(s, Key(p, 0), page)
    ensures Recount(s, t, p, Key(p, 0), page) && SlotOk(t, p)
  {
  }

  /** A page in limbo has no holder, so kalloc finds its count zero. */
  lemma AllocRefKeeps(s: State, t: State, p: nat, page: nat, why: Why)
    requires Inv(s) && p in s.pc && p in s.sz && s.pc[p] == AllocRef(page, why) && page < |s.count|
    requires t == Goto(s.(count := s.count[page := 1]), p, AllocJunk(page, why))
    ensures s.count[page] == 0 && Inv(t)
  {
    var k := Key(p, 0);
    assert LimboOk(s, p);
    AllocRefUndisturbed(s, p, page, k);
    AllocRefRecounts(s, t, p, page, why);
    if k in t.pt {
      assert KeyOk(s, k);
    }
    RecountKeeps(s, t, p, k, page);
  }

  // ---------------------------------------------------------------- uvmunmap

  lemma UnmapMoves(s: State, t: State, p: nat, j: nat, lim: nat, after: After)
    requires p in s.pc && p in s.sz && s.pc[p] == Unmap(j, lim, after) && SlotOk(s, p)
    requires Key(p, j) in s.pt && j < lim && t == Goto(s, p, FreeDec(s.pt[Key(p, j)].page, ThenClear(j, lim, after)))
    ensures Move(s, t, p, Key(p, j)) && Passes(s, t, p, Key(p, j)) && SlotOk(t, p)
  {
  }

  /** uvmunmap calls kfree: the reference of the entry passes to the hand of
      the caller, and the entry goes stale. */
  lemma UnmapKeeps(s: State, t: State, p: nat, j: nat, lim: nat, after: After)
    requires Inv(s) && p in s.pc && p in s.sz && s.pc[p] == Unmap(j, lim, after)
    requires Key(p, j) in s.pt && j < lim && t == Goto(s, p, FreeDec(s.pt[Key(p, j)].page, ThenClear(j, lim, after)))
    ensures Inv(t)
  {
    assert KeyOk(s, Key(p, j));
    UnmapMoves(s, t, p, j, lim, after);
    MoveKeeps(s, t, p, Key(p, j));
  }

  lemma ClearPteMoves(s: State, t: State, p: nat, j: nat, lim: nat, after: After)
    requires p in s.pc && p in s.sz && s.pc[p] == ClearPte(j, lim, after) && SlotOk(s, p)
    requires t == Goto(s.(pt := s.pt - {Key(p, j)}), p, Unmap(j + 1, lim, after))
    ensures Move(s, t, p, Key(p, j)) && Passes(s, t, p, Key(p, j)) && SlotOk(t, p)
  {
    assert t.pt - {Key(p, j)} == s.pt - {Key(p, j)};
  }

  lemma ClearPteKeeps(s: State, t: State, p: nat, j: nat, lim: nat, after: After)
    requires Inv(s) && p in s.pc && p in s.sz && s.pc[p] == ClearPte(j, lim, after)
    requires t == Goto(s.(pt := s.pt - {Key(p, j)}), p, Unmap(j + 1, lim, after))
    ensures Inv(t)
  {
    ClearPteMoves(s, t, p, j, lim, after);
    MoveKeeps(s, t, p, Key(p, j));
  }

  // ---------------------------------------------------------------- uvmalloc

  lemma GrowMapMoves(s: State, t: State, p: nat, page: nat, v: nat, lim: nat)
    requires p in s.pc && p in s.sz && s.pc[p] == GrowMap(page, v, lim) && SlotOk(s, p)
    requires Key(p, v) !in s.pt && t == TickGrowMap(s, p, page, v, lim, true)
    ensures Move(s, t, p, Key(p, v)) && Passes(s, t, p, Key(p, v)) && SlotOk(t, p)
  {
    assert t.pt - {Key(p, v)} == s.pt - {Key(p, v)};
  }

  /** The fresh page passes from the hand of the caller to the new entry. */
  lemma GrowMapKeeps(s: State, t: State, p: nat, page: nat, v: nat, lim: nat)
    requires Inv(s) && p in s.pc && p in s.sz && s.pc[p] == GrowMap(page, v, lim)
    requires t == TickGrowMap(s, p, page, v, lim, true)
    ensures Key(p, v) !in s.pt && Inv(t)
  {
    assert HandOk(s, p);
    assert !Mapped(s.pc[p], s.sz[p], v);
    GrowMapMoves(s, t, p, page, v, lim);
    MoveKeeps(s, t, p, Key(p, v));
  }

  // ---------------------------------------------------------------- cowalloc

  lemma CowSetMoves(s: State, t: State, p: nat, v: nat, page: nat, i: nat, pte: Pte)
    requires p in s.pc && p in s.sz && s.pc[p] == CowCopy(v, page, i) && Key(p, v) in s.pt && SlotOk(s, p)
    requires pte == s.pt[Key(p, v)].(page := page, w := true, cow := false) && page != s.pt[Key(p, v)].page
    requires t == Goto(s.(pt := s.pt[Key(p, v) := pte]), p, FreeDec(s.pt[Key(p, v)].page, Resume))
    ensures Move(s, t, p, Key(p, v)) && Passes(s, t, p, Key(p, v)) && SlotOk(t, p)
  {
    assert t.pt - {Key(p, v)} == s.pt - {Key(p, v)};
  }

  /** The private copy replaces the shared page in the table, and the reference
      to the shared page passes to the hand that will free it. */
  lemma CowSetKeeps(s: State, t: State, p: nat, v: nat, page: nat, i: nat, pte: Pte)
    requires Inv(s) && p in s.pc && p in s.sz && s.pc[p] == CowCopy(v, page, i) && Key(p, v) in s.pt
    requires pte == s.pt[Key(p, v)].(page := page, w := true, cow := false)
    requires t == Goto(s.(pt := s.pt[Key(p, v) := pte]), p, FreeDec(s.pt[Key(p, v)].page, Resume))
    ensures Inv(t)
  {
    assert HandOk(s, p) && KeyOk(s, Key(p, v));
    CopyIsElsewhere(s, p, v, page, i);
    CowSetMoves(s, t, p, v, page, i, pte);
    MoveKeeps(s, t, p, Key(p, v));
  }

  /** The page being copied to is not the page being copied from. */
  lemma CopyIsElsewhere(s: State, p: nat, v: nat, page: nat, i: nat)
    requires Inv(s) && p in s.pc && s.pc[p] == CowCopy(v, page, i) && Key(p, v) in s.pt
    ensures s.pt[Key(p, v)].page != page
  {
    assert HandOk(s, p) && KeyOk(s, Key(p, v));
    if s.pt[Key(p, v)].page == page {
      assert KeyOwns(s, Key(p, v), page) && HandOwns(s, p, page);
      KeyAndHand(s, page, Key(p, v), p);
    }
  }

  /** The count that krefcount found to be 1 is still 1 at the in-place upgrade. */
  lemma CowUpgradeKeeps(s: State, t: State, p: nat, v: nat)
    requires Inv(s) && p in s.pc && p in s.sz && s.pc[p] == CowUpgrade(v) && Key(p, v) in s.pt
    requires t == Goto(s.(pt := s.pt[Key(p, v) := s.pt[Key(p, v)].(w := true, cow := false)]), p, User)
    ensures Inv(t)
  {
    var k := Key(p, v);
    var u := Goto(s, p, User);
    assert KeyOk(s, k) && UpgradeOk(s, p);
    CowUpgradeMoves(s, p, v);
    SilentKeeps(s, u, p);
    ReflagKeeps(u, t, k);
  }

  lemma CowUpgradeMoves(s: State, p: nat, v: nat)
    requires p in s.pc && p in s.sz && s.pc[p] == CowUpgrade(v)
    ensures Silent(s, Goto(s, p, User), p)
  {
  }

  lemma UvmClearKeeps(s: State, t: State, p: nat, v: nat)
    requires Inv(s) && p in s.pc && p in s.sz && s.pc[p] == User && Key(p, v) in s.pt
    requires t == s.(pt := s.pt[Key(p, v) := s.pt[Key(p, v)].(u := false)])
    ensures Inv(t)
  {
    assert KeyOk(s, Key(p, v));
    ReflagKeeps(s, t, Key(p, v));
  }

  // ---------------------------------------------------------------- slots

  predicate Bare(pc: Pc) {
    pc.User? || pc.InFork? || pc.ForkMark? || pc.Unmap?
  }

  /** Slots come, go or change program counter, all without any reference. */
  ghost predicate Reslot(s: State, t: State) {
    && t.pt == s.pt && t.count == s.count && t.free == s.free && t.mem == s.mem
    && (forall p :: p in s.pc && !(p in t.pc && t.pc[p] == s.pc[p]) ==> Bare(s.pc[p]))
    && (forall p :: p in t.pc && !(p in s.pc && t.pc[p] == s.pc[p]) ==> Bare(t.pc[p]))
    && (forall k :: k in s.pt ==> k.pid in t.pc)
  }

  lemma ReslotHolders(s: State, t: State)
    requires Reslot(s, t) && Keys(s) && Hands(s) && Counts(s)
    ensures Keys(t) && Hands(t) && Counts(t)
  {
    forall k | k in t.pt ensures KeyOk(t, k) {
      assert KeyOk(s, k);
    }
    forall q | q in t.pc ensures HandOk(t, q) && UpgradeOk(t, q) {
      if q in s.pc {
        assert HandOk(s, q) && UpgradeOk(s, q);
      }
    }
    assert OthersHold(s, t, 0, Key(0, 0)) && forall page :: Delta(s, t, 0, Key(0, 0), page) == 0 by {
      ReslotOwns(s, t);
    }
    CountsChange(s, t, 0, Key(0, 0));
  }

  lemma ReslotOwns(s: State, t: State)
    requires Reslot(s, t) && Keys(s)
    ensures forall k, page :: KeyOwns(s, k, page) <==> KeyOwns(t, k, page)
    ensures forall p, page :: HandOwns(s, p, page) <==> HandOwns(t, p, page)
  {
    forall k | k in s.pt ensures k.pid in s.pc {
      assert KeyOk(s, k);
    }
  }

  lemma ReslotLists(s: State, t: State)
    requires Reslot(s, t) && Lists(s)
    ensures Lists(t)
  {
    forall q | q in t.pc ensures LimboOk(t, q) {
      if q in s.pc {
        assert LimboOk(s, q);
      }
    }
    forall pg | 0 <= pg < |t.count| ensures Accounted(t, pg) {
      assert Accounted(s, pg);
      if t.count[pg] == 0 && pg !in t.free {
        var q :| q in s.pc && Limbo(s.pc[q]) == Some(pg);
        assert q in t.pc && Limbo(t.pc[q]) == Some(pg);
      }
    }
  }

  lemma ReslotKeeps(s: State, t: State)
    requires Inv(s) && Reslot(s, t) && Slots(t) && Tables(t)
    ensures Inv(t)
  {
    ReslotHolders(s, t);
    ReslotLists(s, t);
  }

  /** A slot that is not involved: its creator and its child stay as they are. */
  lemma Bystander(s: State, t: State, q: nat)
    requires q in s.pc && q in s.sz && SlotOk(s, q) && ParentOk(s, q)
    requires q in t.pc && q in t.sz && t.pc[q] == s.pc[q] && t.sz[q] == s.sz[q] && t.pt == s.pt
    requires Parent(s.pc[q]).Some? ==>
               var r := Parent(s.pc[q]).value; r in t.pc && t.pc[r] == s.pc[r] && r in t.sz && (r in s.sz ==> t.sz[r] == s.sz[r])
    requires s.pc[q].InFork? ==> var c := s.pc[q].child; c in t.pc && Parent(t.pc[c]) == Parent(s.pc[c])
    ensures SlotOk(t, q) && ParentOk(t, q)
  {
  }

  lemma ForkCallSlots(s: State, t: State, p: nat, c: nat)
    requires Slots(s) && p in s.pc && s.pc[p] == User && c !in s.pc
    requires t == s.(pc := s.pc[p := InFork(c)][c := ForkMark(p, 0)], sz := s.sz[c := 0])
    ensures Slots(t)
  {
    forall q | q in t.pc ensures SlotOk(t, q) && ParentOk(t, q) {
      if q != p && q != c {
        assert SlotOk(s, q) && ParentOk(s, q);
        Bystander(s, t, q);
      }
    }
  }

  lemma ForkCallTables(s: State, t: State, p: nat, c: nat)
    requires Tables(s) && Keys(s) && p in s.pc && p in s.sz && s.pc[p] == User && c !in s.pc && s.pc.Keys == s.sz.Keys
    requires t == s.(pc := s.pc[p := InFork(c)][c := ForkMark(p, 0)], sz := s.sz[c := 0])
    ensures Tables(t) && Reslot(s, t)
  {
    forall k | k in s.pt ensures k.pid in s.pc {
      assert KeyOk(s, k);
    }
    forall q, v | q in t.pc && q in t.sz ensures Key(q, v) in t.pt <==> Mapped(t.pc[q], t.sz[q], v) {
      assert Key(q, v) in s.pt ==> q in s.pc;
      assert q in s.pc ==> (Key(q, v) in s.pt <==> Mapped(s.pc[q], s.sz[q], v));
    }
  }

  lemma ForkCallKeeps(s: State, t: State, p: nat, c: nat)
    requires Inv(s) && p in s.pc && p in s.sz && s.pc[p] == User && c !in s.pc
    requires t == s.(pc := s.pc[p := InFork(c)][c := ForkMark(p, 0)], sz := s.sz[c := 0])
    ensures Inv(t)
  {
    ForkCallSlots(s, t, p, c);
    ForkCallTables(s, t, p, c);
    ReslotKeeps(s, t);
  }

  lemma ForkReturnSlots(s: State, t: State, c: nat, par: nat, v: nat)
    requires Slots(s) && c in s.pc && s.pc[c] == ForkMark(par, v) && par in s.pc
    requires t == s.(pc := s.pc[c := User][par := User], sz := s.sz[c := s.sz[par]])
    ensures Slots(t)
  {
    assert ParentOk(s, c);
    forall q | q in t.pc ensures SlotOk(t, q) && ParentOk(t, q) {
      if q != par && q != c {
        assert SlotOk(s, q) && ParentOk(s, q);
        Bystander(s, t, q);
      }
    }
  }

  lemma ForkReturnTables(s: State, t: State, c: nat, par: nat, v: nat)
    requires Tables(s) && Keys(s) && c in s.pc && c in s.sz && s.pc[c] == ForkMark(par, v)
    requires par in s.pc && par in s.sz && v == s.sz[par] && s.pc[par] == InFork(c) && s.pc.Keys == s.sz.Keys
    requires t == s.(pc := s.pc[c := User][par := User], sz := s.sz[c := s.sz[par]])
    ensures Tables(t) && Reslot(s, t)
  {
    forall q, x | q in t.pc && q in t.sz ensures Key(q, x) in t.pt <==> Mapped(t.pc[q], t.sz[q], x) {
      assert Key(q, x) in s.pt <==> Mapped(s.pc[q], s.sz[q], x);
    }
    forall k | k in s.pt ensures k.pid in t.pc {
      assert KeyOk(s, k);
    }
  }

  lemma ForkReturnKeeps(s: State, t: State, c: nat, par: nat, v: nat)
    requires Inv(s) && c in s.pc && c in s.sz && s.pc[c] == ForkMark(par, v)
    requires par in s.pc && par in s.sz && v >= s.sz[par]
    requires t == s.(pc := s.pc[c := User][par := User], sz := s.sz[c := s.sz[par]])
    ensures Inv(t)
  {
    assert SlotOk(s, c) && ParentOk(s, c);
    ForkReturnSlots(s, t, c, par, v);
    ForkReturnTables(s, t, c, par, v);
    ReslotKeeps(s, t);
  }

  lemma UnmapDoneSlots(s: State, t: State, p: nat, j: nat, lim: nat, after: After)
    requires Slots(s) && p in s.pc && p in s.sz && s.pc[p] == Unmap(j, lim, after) && j >= lim && !after.BackToUser?
    requires after.Abort? ==> after.parent in s.pc
    requires t == TickUnmap(s, p, j, lim, after)
    ensures Slots(t)
  {
    assert ParentOk(s, p);
    forall q | q in t.pc ensures SlotOk(t, q) && ParentOk(t, q) {
      if !(after.Abort? && q == after.parent) {
        assert SlotOk(s, q) && ParentOk(s, q);
        Bystander(s, t, q);
      }
    }
  }

  lemma UnmapDoneTables(s: State, t: State, p: nat, j: nat, lim: nat, after: After)
    requires Tables(s) && Keys(s) && p in s.pc && p in s.sz && s.pc[p] == Unmap(j, lim, after) && j >= lim && !after.BackToUser?
    requires s.pc.Keys == s.sz.Keys
    requires after.Abort? ==> after.parent in s.pc && s.pc[after.parent] == InFork(p)
    requires t == TickUnmap(s, p, j, lim, after)
    ensures Tables(t) && Reslot(s, t)
  {
    forall q, x | q in t.pc && q in t.sz ensures Key(q, x) in t.pt <==> Mapped(t.pc[q], t.sz[q], x) {
      assert Key(q, x) in s.pt <==> Mapped(s.pc[q], s.sz[q], x);
    }
    forall k | k in s.pt ensures k.pid in t.pc {
      assert KeyOk(s, k);
      assert k == Key(k.pid, k.vpn);
    }
  }

  /** A slot leaves with an empty page table; an aborted fork returns. */
  lemma UnmapDoneKeeps(s: State, t: State, p: nat, j: nat, lim: nat, after: After)
    requires Inv(s) && p in s.pc && p in s.sz && s.pc[p] == Unmap(j, lim, after) && j >= lim && !after.BackToUser?
    requires after.Abort? ==> after.parent in s.pc
    requires t == TickUnmap(s, p, j, lim, after)
    ensures Inv(t)
  {
    assert ParentOk(s, p);
    UnmapDoneSlots(s, t, p, j, lim, after);
    UnmapDoneTables(s, t, p, j, lim, after);
    ReslotKeeps(s, t);
  }
}
