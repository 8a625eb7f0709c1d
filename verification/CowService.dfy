/** The routines of the copy-on-write protocol get done: what a process finds when a
    fault, a fork, a growth or an unmapping has run to its end by the process's own
    steps.  The entry and the bytes are compared with those before the call. */
module CowService {
  import opened CowProtocol
  import opened CowInvariant
  import opened CowFrames
  import opened CowSafety
  import opened CowRefinement
  import opened CowRuns

  /** n kernel steps of slot p, in which mappages finds its table pages, lead from s to t. */
  ghost predicate Alone(s: State, p: nat, n: nat, t: State)
    decreases n
  {
    if n == 0 then s == t
    else p in s.pc && p in s.sz && CanTick(s, p) && Alone(Tick(s, p, true), p, n - 1, t)
  }

  lemma OneStep(s: State, p: nat, n: nat, t: State)
    requires p in s.pc && p in s.sz && CanTick(s, p) && Alone(Tick(s, p, true), p, n, t)
    ensures Alone(s, p, n + 1, t)
  {
  }

  lemma {:induction false} Joined(s: State, p: nat, n: nat, t: State, m: nat, u: State)
    requires Alone(s, p, n, t) && Alone(t, p, m, u)
    ensures Alone(s, p, n + m, u)
    decreases n
  {
    hide Tick, CanTick;
    if n > 0 {
      Joined(Tick(s, p, true), p, n - 1, t, m, u);
    }
  }

  // ---------------------------------------------------------------- cowalloc

  /** The page copy, from byte i on. */
  lemma {:induction false} CopyRest(s: State, p: nat, v: nat, page: nat, from: nat, i: nat) returns (n: nat, t: State)
    requires p in s.pc && p in s.sz && s.pc[p] == CowCopy(v, page, i) && i <= PGSIZE && HasPage(s, p, v) && IsPage(s, page)
    requires from == s.pt[Key(p, v)].page && from != page && |s.mem[page]| == |s.mem[from]| == PGSIZE && s.mem[page][..i] == s.mem[from][..i]
    ensures Alone(s, p, n, t) && t == Goto(s.(mem := s.mem[page := s.mem[from]]), p, CowCopy(v, page, PGSIZE))
    decreases PGSIZE - i
  {
    if i == PGSIZE {
      n, t := 0, s;
      assert s.mem[page] == s.mem[page][..i] && s.mem[from] == s.mem[from][..i];
      assert s.mem[page := s.mem[from]] == s.mem;
    } else {
      var u := Tick(s, p, true);
      OneByteMore(s.mem[page], s.mem[from], i, i + 1);
      var m;
      m, t := CopyRest(u, p, v, page, from, i + 1);
      assert u.mem[page := u.mem[from]] == s.mem[page := s.mem[from]];
      OneStep(s, p, m, t);
      n := m + 1;
    }
  }

  /** The entry of a served fault: private, writable, and no longer copy-on-write. */
  predicate Served(s: State, t: State, k: Key) {
    && k in s.pt && k in t.pt && t.pt[k].UserWritable() && !t.pt[k].cow
    && t.pt[k] == s.pt[k].(page := t.pt[k].page, w := true, cow := false)
    && s.pt[k].page < |s.mem| && t.pt[k].page < |t.mem|
    && t.mem[t.pt[k].page] == s.mem[s.pt[k].page]
  }

  lemma FaultFacts(s: State, p: nat, v: nat)
    requires Inv(s) && p in s.pc && s.pc[p].CowCheck? && CowEntry(s, p, v)
    ensures p in s.sz && HasPage(s, p, v) && Shape(s) && s.count[s.pt[Key(p, v)].page] >= 1
    ensures s.free != [] ==> IsPage(s, s.free[0]) && s.count[s.free[0]] == 0
  {
    EntryOf(s, Key(p, v));
    CountOf(s, s.pt[Key(p, v)].page);
    KeyCounts(s, s.pt[Key(p, v)].page, Key(p, v));
    FreeOf(s);
    ShapeOf(s);
    hide Inv;
  }

  lemma FreeOf(s: State)
    requires Inv(s)
    ensures FreeList(s)
  {
  }

  // The steps of cowalloc and kalloc, one by one.

  lemma CheckStep(s: State, p: nat, v: nat, trap: bool)
    requires p in s.pc && p in s.sz && s.pc[p] == CowCheck(v, trap) && CowEntry(s, p, v) && HasPage(s, p, v)
    ensures CanTick(s, p)
    ensures Tick(s, p, true) == Goto(s, p, if s.count[s.pt[Key(p, v)].page] == 1 then CowUpgrade(v) else AllocPop(ForCow(v, trap)))
  {
  }

  lemma UpgradeStep(s: State, p: nat, v: nat)
    requires p in s.pc && p in s.sz && s.pc[p] == CowUpgrade(v) && Key(p, v) in s.pt
    ensures CanTick(s, p)
    ensures Tick(s, p, true) == Goto(s.(pt := s.pt[Key(p, v) := s.pt[Key(p, v)].(w := true, cow := false)]), p, User)
  {
  }

  lemma PopStep(s: State, p: nat, why: Why)
    requires p in s.pc && p in s.sz && s.pc[p] == AllocPop(why) && s.free != []
    ensures CanTick(s, p) && Tick(s, p, true) == Goto(s.(free := s.free[1..]), p, AllocRef(s.free[0], why))
  {
  }

  lemma RefStep(s: State, p: nat, page: nat, why: Why)
    requires p in s.pc && p in s.sz && s.pc[p] == AllocRef(page, why) && IsPage(s, page) && s.count[page] == 0
    ensures CanTick(s, p) && Tick(s, p, true) == Goto(s.(count := s.count[page := 1]), p, AllocJunk(page, why))
  {
  }

  lemma JunkStep(s: State, p: nat, page: nat, why: Why)
    requires p in s.pc && p in s.sz && s.pc[p] == AllocJunk(page, why) && IsPage(s, page)
    ensures CanTick(s, p) && Tick(s, p, true) == Goto(s.(mem := s.mem[page := Filled(5)]), p, AfterAlloc(page, why))
  {
  }

  lemma SetStep(s: State, p: nat, v: nat, page: nat)
    requires p in s.pc && p in s.sz && s.pc[p] == CowCopy(v, page, PGSIZE) && HasPage(s, p, v) && IsPage(s, page)
    requires |s.mem[page]| == |s.mem[s.pt[Key(p, v)].page]| == PGSIZE
    ensures CanTick(s, p)
    ensures var e := s.pt[Key(p, v)];
            Tick(s, p, true) == Goto(s.(pt := s.pt[Key(p, v) := e.(page := page, w := true, cow := false)]), p, FreeDec(e.page, Resume))
  {
  }

  lemma DecStep(s: State, p: nat, page: nat)
    requires p in s.pc && p in s.sz && s.pc[p] == FreeDec(page, Resume) && IsPage(s, page) && s.count[page] > 1
    ensures CanTick(s, p) && Tick(s, p, true) == Goto(s.(count := s.count[page := s.count[page] - 1]), p, User)
  {
  }

  lemma NoSteps(s: State, p: nat)
    ensures Alone(s, p, 0, s)
  {
  }

  /** A fault on the only reference is served in place. */
  lemma ServedInPlace(s: State, p: nat, v: nat, trap: bool) returns (n: nat, t: State)
    requires Inv(s) && p in s.pc && s.pc[p] == CowCheck(v, trap) && CowEntry(s, p, v)
    requires s.pt[Key(p, v)].page < |s.count| && s.count[s.pt[Key(p, v)].page] == 1
    ensures Alone(s, p, n, t) && t.pc == s.pc[p := User] && t.sz == s.sz && Served(s, t, Key(p, v)) && t.pt == s.pt[Key(p, v) := t.pt[Key(p, v)]]
  {
    hide Inv, Tick, CanTick, Alone;
    FaultFacts(s, p, v);
    CheckStep(s, p, v, trap);
    var a := Tick(s, p, true);
    UpgradeStep(a, p, v);
    t := Tick(a, p, true);
    NoSteps(t, p);
    OneStep(a, p, 0, t);
    OneStep(s, p, 1, t);
    n := 2;
  }

  /** kalloc for a shared page that is to be copied. */
  lemma CopyStarts(s: State, p: nat, v: nat, trap: bool, page: nat) returns (t: State)
    requires p in s.pc && p in s.sz && s.pc[p] == AllocPop(ForCow(v, trap)) && s.free != [] && page == s.free[0] && IsPage(s, page) && s.count[page] == 0
    ensures Alone(s, p, 3, t)
    ensures t == Goto(s.(free := s.free[1..], count := s.count[page := 1], mem := s.mem[page := Filled(5)]), p, CowCopy(v, page, 0))
  {
    hide Tick, CanTick, Alone;
    var why := ForCow(v, trap);
    PopStep(s, p, why);
    var b := Tick(s, p, true);
    RefStep(b, p, page, why);
    var c := Tick(b, p, true);
    JunkStep(c, p, page, why);
    t := Tick(c, p, true);
    NoSteps(t, p);
    OneStep(c, p, 0, t);
    OneStep(b, p, 1, t);
    OneStep(s, p, 2, t);
  }

  /** The entry is switched to the finished copy, and the shared page given back. */
  lemma CopyEnds(s: State, p: nat, v: nat, page: nat, from: nat) returns (t: State)
    requires p in s.pc && p in s.sz && s.pc[p] == CowCopy(v, page, PGSIZE) && HasPage(s, p, v) && IsPage(s, page)
    requires from == s.pt[Key(p, v)].page && |s.mem[page]| == |s.mem[from]| == PGSIZE && s.count[from] > 1
    ensures Alone(s, p, 2, t)
    ensures t == Goto(s.(pt := s.pt[Key(p, v) := s.pt[Key(p, v)].(page := page, w := true, cow := false)],
                         count := s.count[from := s.count[from] - 1]), p, User)
  {
    hide Tick, CanTick, Alone;
    SetStep(s, p, v, page);
    var f := Tick(s, p, true);
    DecStep(f, p, from);
    t := Tick(f, p, true);
    NoSteps(t, p);
    OneStep(f, p, 0, t);
    OneStep(s, p, 1, t);
  }

  /** A fault on a shared page is served with a copy. */
  lemma ServedByCopy(s: State, p: nat, v: nat, trap: bool) returns (n: nat, t: State)
    requires Inv(s) && p in s.pc && s.pc[p] == CowCheck(v, trap) && CowEntry(s, p, v)
    requires s.pt[Key(p, v)].page < |s.count| && s.count[s.pt[Key(p, v)].page] != 1 && s.free != []
    ensures Alone(s, p, n, t) && t.pc == s.pc[p := User] && t.sz == s.sz && Served(s, t, Key(p, v)) && t.pt == s.pt[Key(p, v) := t.pt[Key(p, v)]]
  {
    hide Inv, Tick, CanTick, Alone;
    FaultFacts(s, p, v);
    var from, page := s.pt[Key(p, v)].page, s.free[0];
    CheckStep(s, p, v, trap);
    var a := Tick(s, p, true);
    var d := CopyStarts(a, p, v, trap, page);
    var m, e := CopyRest(d, p, v, page, from, 0);
    t := CopyEnds(e, p, v, page, from);
    Joined(d, p, m, e, 2, t);
    Joined(a, p, 3, d, m + 2, t);
    OneStep(s, p, m + 5, t);
    n := m + 6;
  }

  /** cowalloc, from a store fault or from copyout, on a user page that is copy-on-write:
      unless the page is shared and no page is free, the process goes on with an entry
      that it can write, holding the bytes it held before, and no other entry changes. */
  lemma FaultIsServed(s: State, p: nat, v: nat, trap: bool) returns (n: nat, t: State)
    requires Inv(s) && p in s.pc && s.pc[p] == CowCheck(v, trap) && CowEntry(s, p, v)
    requires s.pt[Key(p, v)].page < |s.count| && (s.count[s.pt[Key(p, v)].page] == 1 || s.free != [])
    ensures Alone(s, p, n, t) && t.pc == s.pc[p := User] && t.sz == s.sz
    ensures Key(p, v) in t.pt && t.pt[Key(p, v)].UserWritable() && !t.pt[Key(p, v)].cow
    ensures t.pt[Key(p, v)].page < |t.mem| && s.pt[Key(p, v)].page < |s.mem| && t.mem[t.pt[Key(p, v)].page] == s.mem[s.pt[Key(p, v)].page]
    ensures t.pt == s.pt[Key(p, v) := t.pt[Key(p, v)]]
  {
    if s.count[s.pt[Key(p, v)].page] == 1 {
      n, t := ServedInPlace(s, p, v, trap);
    } else {
      n, t := ServedByCopy(s, p, v, trap);
    }
  }

  /** The rest: a page that is not copy-on-write, or no memory for the copy.  The process
      is killed, or copyout fails, and nothing else changes. */
  lemma FaultIsRefused(s: State, p: nat, v: nat, trap: bool) returns (n: nat, t: State)
    requires Inv(s) && p in s.pc && p in s.sz && s.pc[p] == CowCheck(v, trap)
    requires !CowEntry(s, p, v) || (s.pt[Key(p, v)].page < |s.count| && s.count[s.pt[Key(p, v)].page] != 1 && s.free == [])
    ensures Alone(s, p, n, t) && t == Goto(s, p, if trap then Zombie else User)
  {
    hide Inv, Alone;
    NeverPanics(s, p);
    var a := Tick(s, p, true);
    if !CowEntry(s, p, v) {
      n, t := 1, a;
    } else {
      t := Tick(a, p, true);
      n := 2;
      NoSteps(t, p);
      OneStep(a, p, 0, t);
      assert n == 1 + 1;
    }
    NoSteps(a, p);
    OneStep(s, p, n - 1, t);
  }

  // ---------------------------------------------------------------- fork

  /** The next kernel step of a slot: it can be taken, keeps the invariants, and shows what
      the specification says. */
  lemma NextTick(s: State, p: nat) returns (t: State)
    requires Inv(s) && Content(s) && p in s.pc && InKernel(s.pc[p])
    ensures p in s.sz && CanTick(s, p) && t == Tick(s, p, true) && Inv(t) && Content(t) && Abs(t) == Apply(Abs(s), TickEffect(s, p, true))
  {
    hide Inv, Content, Abs, Tick, TickEffect, CanTick, Apply;
    NeverPanics(s, p);
    t := Tick(s, p, true);
    StepKeeps(s, p, Kernel(true));
    StepRefines(s, p, Kernel(true));
  }

  /** One page of uvmcopy: marked, mapped, counted. */
  lemma ForkPage(s: State, c: nat, par: nat, v: nat) returns (t: State)
    requires Inv(s) && Content(s) && c in s.pc && s.pc[c] == ForkMark(par, v) && par in s.sz && v < s.sz[par]
    ensures Alone(s, c, 3, t) && Inv(t) && Content(t) && Abs(t) == Abs(s) && t.pc == s.pc[c := ForkMark(par, v + 1)] && t.sz == s.sz
  {
    hide Inv, Content, Abs, Alone;
    var a := NextTick(s, c);
    assert a.pc == s.pc[c := ForkMap(par, v)] && a.sz == s.sz && Abs(a) == Abs(s);
    var b := NextTick(a, c);
    assert b.pc == s.pc[c := ForkInc(par, v)] && b.sz == s.sz && Abs(b) == Abs(s);
    t := NextTick(b, c);
    NoSteps(t, c);
    OneStep(b, c, 0, t);
    OneStep(a, c, 1, t);
    OneStep(s, c, 2, t);
  }

  lemma {:induction false} ForkPages(s: State, c: nat, par: nat, v: nat) returns (n: nat, t: State)
    requires Inv(s) && Content(s) && c in s.pc && s.pc[c] == ForkMark(par, v) && par in s.sz && v <= s.sz[par]
    ensures Alone(s, c, n, t) && Inv(t) && Content(t) && Abs(t) == Abs(s) && t.pc == s.pc[c := ForkMark(par, s.sz[par])] && t.sz == s.sz
    decreases s.sz[par] - v
  {
    hide Inv, Content, Abs, Alone;
    if v == s.sz[par] {
      n, t := 0, s;
      NoSteps(s, c);
    } else {
      var a := ForkPage(s, c, par, v);
      var m;
      m, t := ForkPages(a, c, par, v + 1);
      Joined(s, c, 3, a, m, t);
      n := 3 + m;
    }
  }

  /** fork runs to its end when mappages finds its table pages: both processes go on, and
      the child has the parent's size and reads at every page what the parent read. */
  lemma ForkIsComplete(s: State, c: nat, par: nat) returns (n: nat, t: State)
    requires Inv(s) && Content(s) && c in s.pc && s.pc[c] == ForkMark(par, 0) && par in s.sz && c != par
    ensures Alone(s, c, n, t) && t.pc == s.pc[c := User][par := User] && t.sz == s.sz[c := s.sz[par]]
    ensures forall v :: Key(par, v) in Abs(s) ==> Key(c, v) in Abs(t) && Abs(t)[Key(c, v)] == Abs(s)[Key(par, v)]
    ensures forall k: Key :: k.pid != c && k in Abs(s) ==> k in Abs(t) && Abs(t)[k] == Abs(s)[k]
  {
    hide Inv, Content, Abs, Alone, Copies;
    var m, a := ForkPages(s, c, par, 0);
    t := NextTick(a, c);
    NoSteps(t, c);
    OneStep(a, c, 0, t);
    Joined(s, c, m, a, 1, t);
    n := m + 1;
  }

  // ---------------------------------------------------------------- growproc

  /** One page of uvmalloc: allocated and zeroed. */
  lemma GrowPage(s: State, p: nat, v: nat, lim: nat) returns (page: nat, t: State)
    requires Inv(s) && Content(s) && p in s.pc && s.pc[p] == AllocPop(ForGrow(v, lim)) && s.free != []
    ensures Alone(s, p, 4, t) && Inv(t) && Content(t) && Abs(t) == Abs(s)
    ensures t.pc == s.pc[p := GrowMap(page, v, lim)] && t.sz == s.sz && t.free == s.free[1..]
  {
    hide Inv, Content, Abs, Alone;
    page := s.free[0];
    var a := NextTick(s, p);
    assert a.pc == s.pc[p := AllocRef(page, ForGrow(v, lim))] && a.sz == s.sz && a.free == s.free[1..] && Abs(a) == Abs(s);
    var b := NextTick(a, p);
    assert b.pc == s.pc[p := AllocJunk(page, ForGrow(v, lim))] && b.sz == s.sz && b.free == s.free[1..] && Abs(b) == Abs(s);
    var c := NextTick(b, p);
    assert c.pc == s.pc[p := GrowZero(page, v, lim)] && c.sz == s.sz && c.free == s.free[1..] && Abs(c) == Abs(s);
    t := NextTick(c, p);
    NoSteps(t, p);
    OneStep(c, p, 0, t);
    OneStep(b, p, 1, t);
    OneStep(a, p, 2, t);
    OneStep(s, p, 3, t);
  }

  /** growproc runs to its end when enough pages are free: the process has its new size,
      and every page it gained reads as zeros. */
  lemma {:induction false} GrowIsComplete(s: State, p: nat, v: nat, lim: nat) returns (n: nat, t: State)
    requires Inv(s) && Content(s) && p in s.pc && p in s.sz && s.pc[p] == AllocPop(ForGrow(v, lim)) && s.sz[p] <= v < lim && |s.free| >= lim - v
    ensures Alone(s, p, n, t) && t.pc == s.pc[p := User] && t.sz == s.sz[p := lim]
    ensures forall x :: s.sz[p] <= x < lim ==> Key(p, x) in Abs(t) && Abs(t)[Key(p, x)] == Filled(0)
    ensures forall k :: k in Abs(s) && !(k.pid == p && s.sz[p] <= k.vpn < lim) ==> k in Abs(t) && Abs(t)[k] == Abs(s)[k]
    decreases lim - v
  {
    hide Inv, Content, Abs, Alone, Filled;
    var page, a := GrowPage(s, p, v, lim);
    var b := NextTick(a, p);
    NoSteps(b, p);
    OneStep(a, p, 0, b);
    Joined(s, p, 4, a, 1, b);
    if v + 1 < lim {
      assert b.pc == s.pc[p := AllocPop(ForGrow(v + 1, lim))] && b.sz == s.sz && b.free == s.free[1..] && Abs(b) == Abs(s);
      var m;
      m, t := GrowIsComplete(b, p, v + 1, lim);
      Joined(s, p, 5, b, m, t);
      n := 5 + m;
    } else {
      n, t := 5, b;
    }
  }

  // ---------------------------------------------------------------- uvmunmap

  /** kfree of a page that is being unmapped. */
  lemma FreeCompletes(s: State, p: nat, page: nat, j: nat, lim: nat, after: After) returns (n: nat, t: State)
    requires Inv(s) && Content(s) && p in s.pc && s.pc[p] == FreeDec(page, ThenClear(j, lim, after))
    ensures Alone(s, p, n, t) && Inv(t) && Content(t) && Abs(t) == Abs(s) && t.pc == s.pc[p := ClearPte(j, lim, after)] && t.sz == s.sz
  {
    hide Inv, Content, Abs, Alone;
    var th := ThenClear(j, lim, after);
    var a := NextTick(s, p);
    NoSteps(a, p);
    OneStep(s, p, 0, a);
    if a.pc[p] == FreeJunk(page, th) {
      assert a.pc == s.pc[p := FreeJunk(page, th)] && a.sz == s.sz && Abs(a) == Abs(s);
      var b := NextTick(a, p);
      assert b.pc == s.pc[p := FreePush(page, th)] && b.sz == s.sz && Abs(b) == Abs(s);
      t := NextTick(b, p);
      NoSteps(t, p);
      OneStep(b, p, 0, t);
      OneStep(a, p, 1, t);
      OneStep(s, p, 2, t);
      n := 3;
    } else {
      n, t := 1, a;
    }
  }

  lemma UnmapPage(s: State, p: nat, j: nat, lim: nat, after: After) returns (n: nat, t: State)
    requires Inv(s) && Content(s) && p in s.pc && s.pc[p] == Unmap(j, lim, after) && j < lim
    ensures Alone(s, p, n, t) && Inv(t) && Content(t) && Abs(t) == Abs(s) && t.pc == s.pc[p := Unmap(j + 1, lim, after)] && t.sz == s.sz
  {
    hide Inv, Content, Abs, Alone;
    var a := NextTick(s, p);
    var page := s.pt[Key(p, j)].page;
    assert a.pc == s.pc[p := FreeDec(page, ThenClear(j, lim, after))] && a.sz == s.sz && Abs(a) == Abs(s);
    NoSteps(a, p);
    OneStep(s, p, 0, a);
    var m, b := FreeCompletes(a, p, page, j, lim, after);
    Joined(s, p, 1, a, m, b);
    t := NextTick(b, p);
    NoSteps(t, p);
    OneStep(b, p, 0, t);
    Joined(s, p, 1 + m, b, 1, t);
    n := m + 2;
  }

  lemma {:induction false} UnmapPages(s: State, p: nat, j: nat, lim: nat, after: After) returns (n: nat, t: State)
    requires Inv(s) && Content(s) && p in s.pc && s.pc[p] == Unmap(j, lim, after) && j <= lim
    ensures Alone(s, p, n, t) && Inv(t) && Content(t) && Abs(t) == Abs(s) && t.pc == s.pc[p := Unmap(lim, lim, after)] && t.sz == s.sz
    decreases lim - j
  {
    hide Inv, Content, Abs, Alone;
    if j == lim {
      n, t := 0, s;
      NoSteps(s, p);
    } else {
      var m, a := UnmapPage(s, p, j, lim, after);
      var k;
      k, t := UnmapPages(a, p, j + 1, lim, after);
      Joined(s, p, m, a, k, t);
      n := m + k;
    }
  }

  /** Unmapping runs to its end.  A shrunk process goes on with its new size; a reaped
      process and the child of a failed fork are gone with all their entries, and the
      parent of that fork goes on; what the others read stays. */
  lemma UnmapIsComplete(s: State, p: nat, j: nat, lim: nat, after: After) returns (n: nat, t: State)
    requires Inv(s) && Content(s) && p in s.pc && s.pc[p] == Unmap(j, lim, after) && j <= lim
    ensures Alone(s, p, n, t) && Inv(t) && Abs(t) == Abs(s)
    ensures after.BackToUser? ==> t.pc == s.pc[p := User] && t.sz == s.sz[p := after.size] && forall v: nat :: Key(p, v) in t.pt <==> v < after.size
    ensures !after.BackToUser? ==> p !in t.pc && p !in t.sz && forall v: nat :: Key(p, v) !in t.pt
    ensures after.Abort? ==> after.parent in t.pc && t.pc[after.parent] == User
  {
    hide Inv, Content, Abs, Alone;
    var m, a := UnmapPages(s, p, j, lim, after);
    SlotOf(a, p);
    t := NextTick(a, p);
    NoSteps(t, p);
    OneStep(a, p, 0, t);
    Joined(s, p, m, a, 1, t);
    n := m + 1;
    if !after.BackToUser? {
      EntriesGone(t, p);
    } else {
      forall v: nat ensures Key(p, v) in t.pt <==> v < after.size {
        TableOf(t, p, v);
      }
    }
  }

  lemma EntriesGone(t: State, p: nat)
    requires Inv(t) && p !in t.pc
    ensures forall v: nat :: Key(p, v) !in t.pt
  {
    forall v: nat ensures Key(p, v) !in t.pt {
      if Key(p, v) in t.pt {
        EntryOf(t, Key(p, v));
      }
    }
  }

  /** No page is lost: when nothing is mapped and no routine is at work, every page is
      free. */
  lemma AllPagesReturn(s: State, page: nat)
    requires Inv(s) && page < |s.count| && s.pt == map[] && forall p :: p in s.pc ==> !InKernel(s.pc[p]) && !s.pc[p].Holding?
    ensures page in s.free
  {
    assert CountOk(s, page) && Accounted(s, page);
    hide Inv;
    assert KeyOwners(s, page) == {} && HandOwners(s, page) == {};
  }
}
