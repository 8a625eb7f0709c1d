/** How a single step of one slot can change the state, and what of the
    reference-count invariant follows without looking at the step itself. */
module CowFrames {
  import opened CowProtocol
  import opened CowInvariant

  lemma TwoMembers<T>(a: set<T>, x: T, y: T)
    requires x in a && y in a && x != y
    ensures |a| >= 2
  {
    assert {x, y} <= a;
    assert |a - {x, y}| == |a| - |{x, y}|;
  }

  lemma OneMember<T>(a: set<T>, x: T)
    requires x in a
    ensures |a| >= 1
  {
    assert |a - {x}| == |a| - 1;
  }

  /** Two different holders of a page make its count at least two. */
  lemma TwoKeys(s: State, page: nat, k: Key, l: Key)
    requires page < |s.count| && CountOk(s, page)
    requires KeyOwns(s, k, page) && KeyOwns(s, l, page) && k != l
    ensures s.count[page] >= 2
  {
    TwoMembers(KeyOwners(s, page), k, l);
  }

  lemma KeyAndHand(s: State, page: nat, k: Key, p: nat)
    requires page < |s.count| && CountOk(s, page)
    requires KeyOwns(s, k, page) && HandOwns(s, p, page)
    ensures s.count[page] >= 2
  {
    OneMember(KeyOwners(s, page), k);
    OneMember(HandOwners(s, page), p);
  }

  lemma TwoHands(s: State, page: nat, p: nat, q: nat)
    requires page < |s.count| && CountOk(s, page)
    requires HandOwns(s, p, page) && HandOwns(s, q, page) && p != q
    ensures s.count[page] >= 2
  {
    TwoMembers(HandOwners(s, page), p, q);
  }

  lemma KeyCounts(s: State, page: nat, k: Key)
    requires page < |s.count| && CountOk(s, page)
    requires KeyOwns(s, k, page)
    ensures s.count[page] >= 1
  {
    OneMember(KeyOwners(s, page), k);
  }

  lemma HandCounts(s: State, page: nat, p: nat)
    requires page < |s.count| && CountOk(s, page)
    requires HandOwns(s, p, page)
    ensures s.count[page] >= 1
  {
    OneMember(HandOwners(s, page), p);
  }

  // ---------------------------------------------------------------- one slot, one entry

  lemma SlotOf(s: State, p: nat)
    requires Inv(s) && p in s.pc
    ensures p in s.sz && SlotOk(s, p) && ParentOk(s, p) && HandOk(s, p)
  {
    hide FreeList, Limbos, Keys, Tables, Counts, NoLeak;
  }

  lemma EntryOf(s: State, k: Key)
    requires Inv(s) && k in s.pt
    ensures KeyOk(s, k)
  {
    hide FreeList, Limbos, Slots, Hands, Tables, Counts, NoLeak;
  }

  lemma LimboOf(s: State, p: nat)
    requires Inv(s) && p in s.pc
    ensures LimboOk(s, p)
  {
    hide FreeList, Slots, Hands, Keys, Tables, Counts, NoLeak;
  }

  lemma TableOf(s: State, p: nat, v: nat)
    requires Inv(s) && p in s.pc && p in s.sz
    ensures Key(p, v) in s.pt <==> Mapped(s.pc[p], s.sz[p], v)
  {
    hide FreeList, Limbos, Slots, Hands, Keys, Counts, NoLeak;
  }

  lemma CountOf(s: State, page: nat)
    requires Inv(s) && page < |s.count|
    ensures CountOk(s, page)
  {
    hide FreeList, Limbos, Slots, Hands, Keys, Tables, NoLeak, CountOk;
  }

  lemma ShapeOf(s: State)
    requires Inv(s)
    ensures Shape(s) && s.pc.Keys == s.sz.Keys
  {
    hide FreeList, Limbos, Hands, Keys, Tables, Counts, NoLeak;
  }

  // ---------------------------------------------------------------- frames

  /** Only slot p moves, and only its own page table changes. */
  ghost predicate Local(s: State, t: State, p: nat) {
    && p in s.pc && p in s.sz && p in t.pc && p in t.sz
    && t.pc == s.pc[p := t.pc[p]]
    && t.sz == s.sz[p := t.sz[p]]
    && (forall k: Key :: k.pid != p ==> (k in s.pt <==> k in t.pt))
    && (forall k: Key :: k.pid != p && k in s.pt ==> s.pt[k] == t.pt[k])
  }

  /** Neither end of the step is inside fork, and p keeps its creator. */
  predicate Plain(a: Pc, b: Pc) {
    !a.InFork? && !b.InFork? && Parent(a) == Parent(b)
  }

  lemma OtherParent(s: State, t: State, p: nat, q: nat)
    requires Slots(s) && Local(s, t, p) && Plain(s.pc[p], t.pc[p])
    requires q in s.pc && q != p
    ensures ParentOk(t, q)
  {
    assert ParentOk(s, q);
  }

  lemma OtherSlot(s: State, t: State, p: nat, q: nat)
    requires Slots(s) && Local(s, t, p) && Plain(s.pc[p], t.pc[p])
    requires q in s.pc && q != p
    ensures SlotOk(t, q)
  {
    assert SlotOk(s, q) && ParentOk(s, q);
  }

  lemma SlotsKeep(s: State, t: State, p: nat)
    requires Slots(s) && Local(s, t, p) && Plain(s.pc[p], t.pc[p])
    requires SlotOk(t, p)
    ensures Slots(t)
  {
    assert ParentOk(s, p);
    assert ParentOk(t, p);
    forall q | q in t.pc ensures SlotOk(t, q) && ParentOk(t, q) {
      if q != p {
        OtherSlot(s, t, p, q);
        OtherParent(s, t, p, q);
      }
    }
  }

  lemma TablesKeep(s: State, t: State, p: nat)
    requires Tables(s) && Local(s, t, p)
    requires forall v :: Key(p, v) in t.pt <==> Mapped(t.pc[p], t.sz[p], v)
    ensures Tables(t)
  {
  }

  function One(b: bool): int {
    if b then 1 else 0
  }

  /** Apart from entry k of p, no entry changes what it holds. */
  ghost predicate OthersHold(s: State, t: State, p: nat, k: Key) {
    && (forall l, page :: l != k ==> (KeyOwns(s, l, page) <==> KeyOwns(t, l, page)))
    && (forall q, page :: q != p ==> (HandOwns(s, q, page) <==> HandOwns(t, q, page)))
  }

  lemma CardWithout<T>(a: set<T>, x: T)
    ensures |a - {x}| == |a| - One(x in a)
  {
    if x in a {
      assert a == (a - {x}) + {x};
    } else {
      assert a - {x} == a;
    }
  }

  lemma CardChange<T>(a: set<T>, b: set<T>, x: T)
    requires forall y :: y != x ==> (y in a <==> y in b)
    ensures |b| - One(x in b) == |a| - One(x in a)
  {
    CardWithout(a, x);
    CardWithout(b, x);
    assert a - {x} == b - {x};
  }

  lemma OwnersChange(s: State, t: State, p: nat, k: Key, page: nat)
    requires OthersHold(s, t, p, k)
    ensures |KeyOwners(t, page)| - One(KeyOwns(t, k, page)) == |KeyOwners(s, page)| - One(KeyOwns(s, k, page))
    ensures |HandOwners(t, page)| - One(HandOwns(t, p, page)) == |HandOwners(s, page)| - One(HandOwns(s, p, page))
  {
    forall l ensures l in KeyOwners(s, page) <==> KeyOwns(s, l, page) {}
    forall l ensures l in KeyOwners(t, page) <==> KeyOwns(t, l, page) {}
    CardChange(KeyOwners(s, page), KeyOwners(t, page), k);
    CardChange(HandOwners(s, page), HandOwners(t, page), p);
  }

  /** How a step of p changes the number of references to a page. */
  function Delta(s: State, t: State, p: nat, k: Key, page: nat): int {
    One(KeyOwns(t, k, page)) - One(KeyOwns(s, k, page)) + One(HandOwns(t, p, page)) - One(HandOwns(s, p, page))
  }

  lemma CountsChange(s: State, t: State, p: nat, k: Key)
    requires Counts(s) && OthersHold(s, t, p, k) && |t.count| == |s.count|
    requires forall page :: 0 <= page < |s.count| ==> t.count[page] == s.count[page] + Delta(s, t, p, k, page)
    ensures Counts(t)
  {
    forall page | 0 <= page < |t.count| ensures CountOk(t, page) {
      assert CountOk(s, page);
      OwnersChange(s, t, p, k, page);
    }
  }

  /** Apart from entry k, the entries of p stay, and stay counted or not. */
  ghost predicate OwnFrame(s: State, t: State, p: nat, k: Key)
    requires p in s.pc && p in t.pc
  {
    forall l: Key :: l.pid == p && l != k ==>
      && (l in s.pt <==> l in t.pt)
      && (l in s.pt ==> s.pt[l] == t.pt[l] && Counted(s.pc[p], l.vpn) == Counted(t.pc[p], l.vpn))
  }

  lemma OthersHoldByFrame(s: State, t: State, p: nat, k: Key)
    requires Local(s, t, p) && OwnFrame(s, t, p, k)
    ensures OthersHold(s, t, p, k)
  {
  }

  // ------------------------------------------------ steps that keep all counts

  lemma ListsKeep(s: State, t: State, p: nat)
    requires Local(s, t, p) && t.count == s.count && t.free == s.free && Limbo(t.pc[p]) == Limbo(s.pc[p])
    requires FreeList(s) && Limbos(s) && NoLeak(s)
    ensures FreeList(t) && Limbos(t) && NoLeak(t)
  {
    forall q | q in t.pc ensures LimboOk(t, q) {
      assert LimboOk(s, q);
    }
    forall page | 0 <= page < |t.count| ensures Accounted(t, page) {
      assert Accounted(s, page);
      if s.count[page] == 0 && page !in s.free {
        var q :| q in s.pc && Limbo(s.pc[q]) == Some(page);
        assert q in t.pc && Limbo(t.pc[q]) == Some(page);
      }
    }
  }

  lemma HoldersKeep(s: State, t: State, p: nat, k: Key)
    requires Local(s, t, p) && OwnFrame(s, t, p, k) && t.count == s.count && Keys(s) && Hands(s)
    requires HandOk(t, p) && UpgradeOk(t, p) && (k in t.pt ==> KeyOk(t, k))
    ensures Keys(t) && Hands(t)
  {
    forall l | l in t.pt ensures KeyOk(t, l) {
      if l != k {
        assert KeyOk(s, l);
      }
    }
    forall q | q in t.pc ensures HandOk(t, q) && UpgradeOk(t, q) {
      if q != p {
        assert HandOk(s, q) && UpgradeOk(s, q);
      }
    }
  }

  /** A step of p that touches at most its entry k, the page in its hand and
      the contents of memory. */
  ghost predicate Move(s: State, t: State, p: nat, k: Key) {
    && k.pid == p && p in s.pc && p in s.sz && p in t.pc && p in t.sz
    && t.pc == s.pc[p := t.pc[p]] && t.sz == s.sz[p := t.sz[p]]
    && t.pt - {k} == s.pt - {k}
    && t.count == s.count && |t.mem| == |s.mem|
    && Plain(s.pc[p], t.pc[p])
    && (forall v :: v != k.vpn ==> Counted(t.pc[p], v) == Counted(s.pc[p], v))
    && (forall v :: v != k.vpn ==> Mapped(t.pc[p], t.sz[p], v) == Mapped(s.pc[p], s.sz[p], v))
    && (k in t.pt <==> Mapped(t.pc[p], t.sz[p], k.vpn))
  }

  lemma MoveFrame(s: State, t: State, p: nat, k: Key)
    requires Move(s, t, p, k)
    ensures Local(s, t, p) && OwnFrame(s, t, p, k)
  {
    forall l: Key | l != k
      ensures l in s.pt <==> l in t.pt
      ensures l in s.pt ==> s.pt[l] == t.pt[l]
    {
      assert l in s.pt <==> l in s.pt - {k};
      assert l in t.pt <==> l in t.pt - {k};
      if l in s.pt {
        assert s.pt[l] == (s.pt - {k})[l] == (t.pt - {k})[l];
      }
    }
  }

  lemma MoveTables(s: State, t: State, p: nat, k: Key)
    requires Move(s, t, p, k) && Local(s, t, p) && OwnFrame(s, t, p, k) && Tables(s)
    ensures Tables(t)
  {
    forall v ensures Key(p, v) in t.pt <==> Mapped(t.pc[p], t.sz[p], v) {
      if v != k.vpn {
        assert Key(p, v) in s.pt <==> Mapped(s.pc[p], s.sz[p], v);
      } else {
        assert Key(p, v) == k;
      }
    }
    TablesKeep(s, t, p);
  }

  /** The entry and the hand together hold the same pages before and after. */
  ghost predicate Passes(s: State, t: State, p: nat, k: Key) {
    forall page :: Delta(s, t, p, k, page) == 0
  }

  ghost predicate Lists(s: State) {
    FreeList(s) && Limbos(s) && NoLeak(s)
  }

  lemma MoveKeepsBut(s: State, t: State, p: nat, k: Key)
    requires Inv(s) && Shape(t) && Move(s, t, p, k) && Passes(s, t, p, k) && Lists(t)
    requires SlotOk(t, p) && HandOk(t, p) && UpgradeOk(t, p) && (k in t.pt ==> KeyOk(t, k))
    ensures Inv(t)
  {
    MoveFrame(s, t, p, k);
    OthersHoldByFrame(s, t, p, k);
    CountsChange(s, t, p, k);
    SlotsKeep(s, t, p);
    MoveTables(s, t, p, k);
    HoldersKeep(s, t, p, k);
  }

  lemma MoveKeeps(s: State, t: State, p: nat, k: Key)
    requires Inv(s) && Shape(t) && Move(s, t, p, k) && Passes(s, t, p, k)
    requires t.free == s.free && Limbo(t.pc[p]) == Limbo(s.pc[p])
    requires SlotOk(t, p) && HandOk(t, p) && UpgradeOk(t, p) && (k in t.pt ==> KeyOk(t, k))
    ensures Inv(t)
  {
    MoveFrame(s, t, p, k);
    ListsKeep(s, t, p);
    MoveKeepsBut(s, t, p, k);
  }

  /** A step of p that moves no reference. */
  ghost predicate Silent(s: State, t: State, p: nat) {
    && p in s.pc && p in s.sz && p in t.pc && p in t.sz
    && t.pc == s.pc[p := t.pc[p]] && t.sz == s.sz[p := t.sz[p]]
    && t.pt == s.pt && t.count == s.count && |t.mem| == |s.mem|
    && Plain(s.pc[p], t.pc[p])
    && Hand(t.pc[p]) == Hand(s.pc[p])
    && (forall v :: Counted(t.pc[p], v) == Counted(s.pc[p], v))
    && (forall v :: Mapped(t.pc[p], t.sz[p], v) == Mapped(s.pc[p], s.sz[p], v))
  }

  lemma SilentMoves(s: State, t: State, p: nat)
    requires Silent(s, t, p) && Tables(s)
    ensures Move(s, t, p, Key(p, 0)) && Passes(s, t, p, Key(p, 0))
  {
    assert Key(p, 0) in s.pt <==> Mapped(s.pc[p], s.sz[p], 0);
  }

  lemma SilentKeepsBut(s: State, t: State, p: nat)
    requires Inv(s) && Shape(t) && Silent(s, t, p) && Lists(t)
    requires SlotOk(t, p) && HandOk(t, p) && UpgradeOk(t, p)
    ensures Inv(t)
  {
    SilentMoves(s, t, p);
    if Key(p, 0) in t.pt {
      assert KeyOk(s, Key(p, 0));
    }
    MoveKeepsBut(s, t, p, Key(p, 0));
  }

  lemma SilentKeeps(s: State, t: State, p: nat)
    requires Inv(s) && Shape(t) && Silent(s, t, p)
    requires t.free == s.free && Limbo(t.pc[p]) == Limbo(s.pc[p])
    requires SlotOk(t, p) && HandOk(t, p) && UpgradeOk(t, p)
    ensures Inv(t)
  {
    ListsKeep(s, t, p);
    SilentKeepsBut(s, t, p);
  }

  // ------------------------------------------------ steps that change a count

  /** Nothing but entry k and the hand of p relies on the count of the page. */
  ghost predicate Undisturbed(s: State, p: nat, k: Key, page: nat) {
    && (forall l :: l != k && KeyOwns(s, l, page) ==> !s.pt[l].UserWritable())
    && (forall q :: q != p && HandOwns(s, q, page) ==> s.pc[q].FreeDec?)
    && (forall q :: q != p && q in s.pc && s.pc[q].CowUpgrade? && Key(q, s.pc[q].v) in s.pt ==>
          s.pt[Key(q, s.pc[q].v)].page != page)
    && (forall q :: q != p && q in s.pc ==> Limbo(s.pc[q]) != Some(page))
    && page !in s.free
  }

  /** A step of p that changes the count of one page by as much as it changes
      the references to it. */
  ghost predicate Recount(s: State, t: State, p: nat, k: Key, page: nat) {
    && k.pid == p && p in s.pc && p in s.sz && p in t.pc
    && t.pc == s.pc[p := t.pc[p]] && t.sz == s.sz && t.pt == s.pt && t.free == s.free && t.mem == s.mem
    && page < |s.count| && t.count == s.count[page := s.count[page] + Delta(s, t, p, k, page)]
    && Plain(s.pc[p], t.pc[p])
    && (forall v :: v != k.vpn ==> Counted(t.pc[p], v) == Counted(s.pc[p], v))
    && (forall v :: Mapped(t.pc[p], t.sz[p], v) == Mapped(s.pc[p], s.sz[p], v))
    && (forall pg :: pg != page ==> Delta(s, t, p, k, pg) == 0)
    && (Limbo(s.pc[p]) == None || Limbo(s.pc[p]) == Some(page))
    && Limbo(t.pc[p]) == (if t.count[page] == 0 then Some(page) else None)
  }

  lemma RecountHolders(s: State, t: State, p: nat, k: Key, page: nat)
    requires Recount(s, t, p, k, page) && Undisturbed(s, p, k, page) && Keys(s) && Hands(s)
    requires HandOk(t, p) && UpgradeOk(t, p) && (k in t.pt ==> KeyOk(t, k))
    ensures Keys(t) && Hands(t)
  {
    forall l | l in t.pt ensures KeyOk(t, l) {
      if l != k {
        assert KeyOk(s, l);
        assert l.pid == p ==> l == Key(p, l.vpn);
      }
    }
    forall q | q in t.pc ensures HandOk(t, q) && UpgradeOk(t, q) {
      if q != p {
        assert HandOk(s, q) && UpgradeOk(s, q);
      }
    }
  }

  lemma RecountLists(s: State, t: State, p: nat, k: Key, page: nat)
    requires Recount(s, t, p, k, page) && Undisturbed(s, p, k, page)
    requires FreeList(s) && Limbos(s) && NoLeak(s)
    ensures FreeList(t) && Limbos(t) && NoLeak(t)
  {
    forall q | q in t.pc ensures LimboOk(t, q) {
      assert LimboOk(s, q);
    }
    forall pg | 0 <= pg < |t.count| ensures Accounted(t, pg) {
      assert Accounted(s, pg);
      if t.count[pg] == 0 && pg !in t.free {
        if pg == page {
          assert Limbo(t.pc[p]) == Some(pg);
        } else {
          var q :| q in s.pc && Limbo(s.pc[q]) == Some(pg);
          assert q in t.pc && Limbo(t.pc[q]) == Some(pg);
        }
      }
    }
  }

  lemma RecountKeeps(s: State, t: State, p: nat, k: Key, page: nat)
    requires Inv(s) && Recount(s, t, p, k, page) && Undisturbed(s, p, k, page)
    requires SlotOk(t, p) && HandOk(t, p) && UpgradeOk(t, p) && (k in t.pt ==> KeyOk(t, k))
    ensures Inv(t)
  {
    assert OwnFrame(s, t, p, k);
    OthersHoldByFrame(s, t, p, k);
    CountsChange(s, t, p, k);
    SlotsKeep(s, t, p);
    TablesKeep(s, t, p);
    RecountHolders(s, t, p, k, page);
    RecountLists(s, t, p, k, page);
  }
}
