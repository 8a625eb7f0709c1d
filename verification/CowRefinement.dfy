/** Copy-on-write refines eager copying: what each process can read is what it
    would read if fork copied all its memory, over every interleaved run. */
module CowRefinement {
  import opened CowProtocol
  import opened CowInvariant
  import opened CowFrames
  import opened CowSteps
  import opened CowSafety

  // ---------------------------------------------------------------- specification

  /** The memory of the specification: every process owns its pages. */
  type Eager = map<Key, seq<Byte>>

  datatype EagerOp =
    | Nothing
    | Put(k: Key, i: nat, b: Byte)
    | CopyAll(src: nat, dst: nat)
    | Extend(pid: nat, lo: nat, hi: nat)
    | Truncate(pid: nat, n: nat)
    | Hide(k: Key)

  function Apply(m: Eager, op: EagerOp): Eager {
    match op
    case Nothing => m
    case Put(k, i, b) => if k in m && i < |m[k]| then m[k := m[k][i := b]] else m
    case CopyAll(src, dst) => m + Copies(m, src, dst)
    case Extend(pid, lo, hi) => m + Zeros(pid, lo, hi)
    case Truncate(pid, n) => map k | k in m && !(k.pid == pid && k.vpn >= n) :: m[k]
    case Hide(k) => m - {k}
  }

  function Copies(m: Eager, src: nat, dst: nat): (r: Eager)
    ensures forall v :: Key(dst, v) in r <==> Key(src, v) in m
    ensures forall k :: k in r ==> k.pid == dst && Key(src, k.vpn) in m && r[k] == m[Key(src, k.vpn)]
  {
    var dom := set k | k in m && k.pid == src :: Key(dst, k.vpn);
    assert forall v :: Key(src, v) in m ==> Key(dst, v) in dom;
    map k | k in dom :: m[Key(src, k.vpn)]
  }

  function Zeros(pid: nat, lo: nat, hi: nat): (r: Eager)
    ensures forall k :: k in r <==> k.pid == pid && lo <= k.vpn < hi
    ensures forall k :: k in r ==> r[k] == Filled(0)
  {
    var dom := set v | lo <= v < hi :: Key(pid, v);
    assert forall k: Key :: k.pid == pid && lo <= k.vpn < hi ==> k == Key(pid, k.vpn) && k in dom;
    map k | k in dom :: Filled(0)
  }

  // ---------------------------------------------------------------- abstraction

  function LimitAfter(after: After): nat {
    if after.BackToUser? then after.size else 0
  }

  function LimitThen(t: Then, size: nat): nat {
    match t
    case Resume => size
    case ThenClear(_, _, after) => LimitAfter(after)
    case ThenUnmap(_, _, after) => LimitAfter(after)
  }

  /** The number of pages of a slot that its process can read. */
  function Limit(pc: Pc, size: nat): nat {
    match pc
    case Zombie => 0
    case ForkMark(_, _) => 0
    case ForkMap(_, _) => 0
    case ForkInc(_, _) => 0
    case Unmap(_, _, after) => LimitAfter(after)
    case ClearPte(_, _, after) => LimitAfter(after)
    case FreeDec(_, t) => LimitThen(t, size)
    case FreeJunk(_, t) => LimitThen(t, size)
    case FreePush(_, t) => LimitThen(t, size)
    case _ => size
  }

  predicate Visible(s: State, k: Key) {
    && k in s.pt && s.pt[k].u && s.pt[k].page < |s.mem|
    && k.pid in s.pc && k.pid in s.sz && k.vpn < Limit(s.pc[k.pid], s.sz[k.pid])
  }

  /** What every process can read. */
  function Abs(s: State): Eager {
    map k | k in s.pt && Visible(s, k) :: s.mem[s.pt[k].page]
  }

  /** The operation of the specification that a step of p stands for. */
  function Effect(s: State, p: nat, e: Event): EagerOp
    requires Enabled(s, p, e)
  {
    match e
    case Store(v, i, b) => Put(Key(p, v), i, b)
    case CopyoutByte(v, i, b) => Put(Key(p, v), i, b)
    case Shrink(n) => Truncate(p, n)
    case Exit => Truncate(p, 0)
    case UvmClear(v) => Hide(Key(p, v))
    case Kernel(ok) => TickEffect(s, p, ok)
    case _ => Nothing
  }

  /** Inside the kernel, only three steps show: fork returns, growproc returns,
      and a store fault that cannot be served kills the process. */
  function TickEffect(s: State, p: nat, ok: bool): EagerOp
    requires p in s.pc && p in s.sz && CanTick(s, p)
  {
    match s.pc[p]
    case ForkMark(par, v) => if v < s.sz[par] then Nothing else CopyAll(par, p)
    case CowCheck(v, trap) => if trap && !CowEntry(s, p, v) then Truncate(p, 0) else Nothing
    case AllocPop(why) => if why.ForCow? && why.trap && s.free == [] then Truncate(p, 0) else Nothing
    case GrowMap(page, v, lim) => if ok && v + 1 >= lim then Extend(p, s.sz[p], lim) else Nothing
    case _ => Nothing
  }

  // ---------------------------------------------------------------- contents

  ghost predicate SameEntries(s: State, p: nat, q: nat, n: nat) {
    forall v :: 0 <= v < n ==> SameEntry(s, p, q, v)
  }

  predicate ZeroPage(s: State, p: nat, v: nat) {
    && HasPage(s, p, v)
    && s.pt[Key(p, v)].UserWritable()
    && s.mem[s.pt[Key(p, v)].page] == Filled(0)
  }

  ghost predicate Fresh(s: State, p: nat, lo: nat, hi: nat) {
    forall v :: lo <= v < hi ==> ZeroPage(s, p, v)
  }

  predicate CopiedSoFar(s: State, p: nat, v: nat, page: nat, i: nat) {
    && HasPage(s, p, v) && IsPage(s, page)
    && i <= |s.mem[page]| && i <= |s.mem[s.pt[Key(p, v)].page]|
    && s.mem[page][..i] == s.mem[s.pt[Key(p, v)].page][..i]
  }

  /** What the contents of memory are in the middle of an operation. */
  ghost predicate ContentOk(s: State, p: nat)
    requires p in s.pc && p in s.sz
  {
    match s.pc[p]
    case ForkMark(par, v) => SameEntries(s, p, par, v)
    case ForkMap(par, v) => SameEntries(s, p, par, v)
    case ForkInc(par, v) => SameEntries(s, p, par, v + 1)
    case CowCopy(v, page, i) => CopiedSoFar(s, p, v, page, i)
    case AllocPop(why) => why.ForGrow? ==> Fresh(s, p, s.sz[p], why.v)
    case AllocRef(_, why) => why.ForGrow? ==> Fresh(s, p, s.sz[p], why.v)
    case AllocJunk(_, why) => why.ForGrow? ==> Fresh(s, p, s.sz[p], why.v)
    case GrowZero(_, v, _) => Fresh(s, p, s.sz[p], v)
    case GrowMap(page, v, _) => Fresh(s, p, s.sz[p], v) && page < |s.mem| && s.mem[page] == Filled(0)
    case _ => true
  }

  ghost predicate Content(s: State) {
    forall p :: p in s.pc && p in s.sz ==> ContentOk(s, p)
  }

  lemma ContentOf(s: State, p: nat)
    requires Content(s) && p in s.pc && p in s.sz
    ensures ContentOk(s, p)
  {
  }

  // ---------------------------------------------------------------- frames

  lemma VisibleOwns(s: State, k: Key)
    requires Inv(s) && Visible(s, k)
    ensures KeyOwns(s, k, s.pt[k].page)
  {
    hide Inv;
    SlotOf(s, k.pid);
    assert Key(k.pid, k.vpn) == k;
  }

  /** Nothing of another slot refers to the page. */
  ghost predicate Private(s: State, p: nat, page: nat) {
    && (forall k :: KeyOwns(s, k, page) ==> k.pid == p)
    && (forall q :: q != p ==> !HandOwns(s, q, page))
  }

  /** No process can read the page. */
  ghost predicate Unseen(s: State, page: nat) {
    forall k :: !KeyOwns(s, k, page)
  }

  lemma HandIsPrivate(s: State, p: nat, page: nat)
    requires Inv(s) && HandOwns(s, p, page) && !s.pc[p].FreeDec?
    ensures Private(s, p, page) && Unseen(s, page)
  {
    hide Inv, CountOk;
    SlotOf(s, p);
    CountOf(s, page);
    forall k ensures !KeyOwns(s, k, page) {
      if KeyOwns(s, k, page) {
        KeyAndHand(s, page, k, p);
      }
    }
    forall q | q != p ensures !HandOwns(s, q, page) {
      if HandOwns(s, q, page) {
        TwoHands(s, page, p, q);
      }
    }
  }

  lemma LimboIsPrivate(s: State, p: nat, page: nat)
    requires Inv(s) && p in s.pc && Limbo(s.pc[p]) == Some(page)
    ensures Private(s, p, page) && Unseen(s, page)
  {
    assert LimboOk(s, p);
    forall k ensures !KeyOwns(s, k, page) {
      if KeyOwns(s, k, page) {
        KeyCounts(s, page, k);
      }
    }
    forall q ensures !HandOwns(s, q, page) {
      if HandOwns(s, q, page) {
        HandCounts(s, page, q);
      }
    }
  }

  /** A user-writable page is seen through one entry only. */
  lemma WritableIsPrivate(s: State, k: Key)
    requires Inv(s) && k in s.pt && s.pt[k].UserWritable() && KeyOwns(s, k, s.pt[k].page)
    ensures Private(s, k.pid, s.pt[k].page)
    ensures forall l :: KeyOwns(s, l, s.pt[k].page) ==> l == k
  {
    hide Inv, CountOk;
    var page := s.pt[k].page;
    EntryOf(s, k);
    CountOf(s, page);
    forall l | KeyOwns(s, l, page) ensures l == k {
      if l != k {
        TwoKeys(s, page, k, l);
      }
    }
    forall q | q != k.pid ensures !HandOwns(s, q, page) {
      if HandOwns(s, q, page) {
        KeyAndHand(s, page, k, q);
      }
    }
  }

  /** The contents of memory change at most at pages that are private to p. */
  ghost predicate MemFrame(s: State, t: State, p: nat) {
    && |t.mem| == |s.mem| && |t.count| == |s.count|
    && forall page :: 0 <= page < |s.mem| && t.mem[page] != s.mem[page] ==> Private(s, p, page)
  }

  predicate SameSlot(s: State, t: State, q: nat) {
    q in s.pc && q in t.pc && q in s.sz && q in t.sz && t.pc[q] == s.pc[q] && t.sz[q] == s.sz[q]
  }

  ghost predicate SameTable(s: State, t: State, q: nat) {
    forall v :: Key(q, v) in s.pt ==> Key(q, v) in t.pt && t.pt[Key(q, v)] == s.pt[Key(q, v)]
  }

  /** What a slot has built up survives the steps of the others. */
  lemma OtherContent(s: State, t: State, p: nat, q: nat)
    requires Inv(s) && Content(s) && q != p && SameSlot(s, t, q) && MemFrame(s, t, p)
    requires SameTable(s, t, q) && (Parent(s.pc[q]).Some? ==> SameTable(s, t, Parent(s.pc[q]).value))
    ensures ContentOk(t, q)
  {
    hide Inv, Content;
    ContentOf(s, q);
    SlotOf(s, q);
    match s.pc[q]
    case ForkMark(par, v) =>
      forall x | 0 <= x < v ensures SameEntry(t, q, par, x) { assert SameEntry(s, q, par, x); }
    case ForkMap(par, v) =>
      forall x | 0 <= x < v ensures SameEntry(t, q, par, x) { assert SameEntry(s, q, par, x); }
    case ForkInc(par, v) =>
      forall x | 0 <= x < v + 1 ensures SameEntry(t, q, par, x) { assert SameEntry(s, q, par, x); }
    case CowCopy(v, page, i) =>
      assert KeyOwns(s, Key(q, v), s.pt[Key(q, v)].page) && HandOwns(s, q, page);
    case AllocPop(why) => if why.ForGrow? { OtherFresh(s, t, p, q, s.sz[q], why.v); }
    case AllocRef(_, why) => if why.ForGrow? { OtherFresh(s, t, p, q, s.sz[q], why.v); }
    case AllocJunk(_, why) => if why.ForGrow? { OtherFresh(s, t, p, q, s.sz[q], why.v); }
    case GrowZero(_, v, _) => OtherFresh(s, t, p, q, s.sz[q], v);
    case GrowMap(page, v, _) =>
      OtherFresh(s, t, p, q, s.sz[q], v);
      assert HandOwns(s, q, page);
    case _ =>
  }

  lemma OtherFresh(s: State, t: State, p: nat, q: nat, lo: nat, hi: nat)
    requires Fresh(s, q, lo, hi) && q != p && q in s.pc && MemFrame(s, t, p) && SameTable(s, t, q)
    requires forall v :: Counted(s.pc[q], v)
    ensures Fresh(t, q, lo, hi)
  {
    forall v | lo <= v < hi ensures ZeroPage(t, q, v) {
      assert ZeroPage(s, q, v);
      assert KeyOwns(s, Key(q, v), s.pt[Key(q, v)].page);
    }
  }

  /** The readable memory does not change. */
  lemma AbsSame(s: State, t: State)
    requires forall k :: Visible(s, k) <==> Visible(t, k)
    requires forall k :: Visible(s, k) && Visible(t, k) ==> t.mem[t.pt[k].page] == s.mem[s.pt[k].page]
    ensures Abs(t) == Abs(s)
  {
  }

  // ---------------------------------------------------------------- steps

  /** p moves; the other slots and their tables stay. */
  ghost predicate OnlyMoves(s: State, t: State, p: nat) {
    && p in s.pc && p in s.sz && p in t.pc && p in t.sz
    && t.pc == s.pc[p := t.pc[p]] && t.sz == s.sz[p := t.sz[p]]
    && (forall k: Key :: k.pid != p && k in s.pt ==> k in t.pt && t.pt[k] == s.pt[k])
    && !s.pc[p].InFork?
  }

  lemma ContentKeeps(s: State, t: State, p: nat)
    requires Inv(s) && Content(s) && OnlyMoves(s, t, p) && MemFrame(s, t, p) && ContentOk(t, p)
    ensures Content(t)
  {
    hide Inv;
    forall q | q in t.pc && q in t.sz ensures ContentOk(t, q) {
      if q != p {
        SlotOf(s, q);
        OtherContent(s, t, p, q);
      }
    }
  }

  lemma SameLimitSameAbs(s: State, t: State, p: nat)
    requires OnlyMoves(s, t, p) && t.pt == s.pt && |t.mem| == |s.mem|
    requires Limit(t.pc[p], t.sz[p]) == Limit(s.pc[p], s.sz[p])
    requires forall k :: Visible(s, k) ==> t.mem[s.pt[k].page] == s.mem[s.pt[k].page]
    ensures Abs(t) == Abs(s)
  {
    AbsSame(s, t);
  }

  /** A step that neither shows nor changes tables or contents. */
  lemma Invisible(s: State, t: State, p: nat)
    requires Inv(s) && Content(s) && OnlyMoves(s, t, p) && ContentOk(t, p)
    requires t.pt == s.pt && t.mem == s.mem && |t.count| == |s.count|
    requires Limit(t.pc[p], t.sz[p]) == Limit(s.pc[p], s.sz[p])
    ensures Content(t) && Abs(t) == Abs(s)
  {
    hide Inv, Content, Abs;
    ContentKeeps(s, t, p);
    SameLimitSameAbs(s, t, p);
  }

  /** A step that fills or writes a page nobody can read. */
  lemma InvisibleWrite(s: State, t: State, p: nat, page: nat)
    requires Inv(s) && Content(s) && OnlyMoves(s, t, p) && ContentOk(t, p)
    requires page < |s.mem| && |t.mem| == |s.mem| && t.pt == s.pt && |t.count| == |s.count|
    requires forall pg :: 0 <= pg < |s.mem| && pg != page ==> t.mem[pg] == s.mem[pg]
    requires Private(s, p, page) && Unseen(s, page)
    requires Limit(t.pc[p], t.sz[p]) == Limit(s.pc[p], s.sz[p])
    ensures Content(t) && Abs(t) == Abs(s)
  {
    hide Inv, Content, Abs;
    ContentKeeps(s, t, p);
    forall k | Visible(s, k) ensures s.pt[k].page != page {
      VisibleOwns(s, k);
    }
    SameLimitSameAbs(s, t, p);
  }

  lemma DropsAbs(s: State, t: State, p: nat, n: nat)
    requires OnlyMoves(s, t, p) && t.pt == s.pt && t.mem == s.mem
    requires Limit(t.pc[p], t.sz[p]) == n <= Limit(s.pc[p], s.sz[p])
    ensures Abs(t) == Apply(Abs(s), Truncate(p, n))
  {
    var m := Apply(Abs(s), Truncate(p, n));
    forall k ensures k in Abs(t) <==> k in m {
    }
  }

  /** Part of what p could read goes out of its reach. */
  lemma Drops(s: State, t: State, p: nat, n: nat)
    requires Inv(s) && Content(s) && OnlyMoves(s, t, p) && ContentOk(t, p)
    requires t.pt == s.pt && t.mem == s.mem && |t.count| == |s.count|
    requires Limit(t.pc[p], t.sz[p]) == n <= Limit(s.pc[p], s.sz[p])
    ensures Content(t) && Abs(t) == Apply(Abs(s), Truncate(p, n))
  {
    hide Inv, Content, Abs, Apply;
    ContentKeeps(s, t, p);
    DropsAbs(s, t, p, n);
  }

  lemma PutAbs(s: State, t: State, k: Key, i: nat, b: Byte)
    requires Visible(s, k) && i < |s.mem[s.pt[k].page]| && t == WriteByte(s, s.pt[k].page, i, b)
    requires forall l :: Visible(s, l) && l != k ==> s.pt[l].page != s.pt[k].page
    ensures Abs(t) == Apply(Abs(s), Put(k, i, b))
  {
    var m := Apply(Abs(s), Put(k, i, b));
    forall l ensures l in Abs(t) <==> l in m {
    }
  }

  /** A store, by the process or by copyout, changes what the storer reads at
      that byte and what nobody else reads. */
  lemma StoreRefines(s: State, t: State, p: nat, v: nat, i: nat, b: Byte)
    requires Inv(s) && Content(s) && p in s.pc && p in s.sz && s.pc[p] == User
    requires InRange(s, p, v, i) && s.pt[Key(p, v)].UserWritable()
    requires t == WriteByte(s, s.pt[Key(p, v)].page, i, b)
    ensures Content(t) && Abs(t) == Apply(Abs(s), Put(Key(p, v), i, b))
  {
    var k := Key(p, v);
    assert Mapped(s.pc[p], s.sz[p], v);
    hide Inv, Content, Abs, Apply;
    ShapeOf(s);
    VisibleOwns(s, k);
    WritableIsPrivate(s, k);
    ContentKeeps(s, t, p);
    forall l | Visible(s, l) && l != k ensures s.pt[l].page != s.pt[k].page {
      VisibleOwns(s, l);
    }
    PutAbs(s, t, k, i, b);
  }

  // ---------------------------------------------------------------- table changes

  /** Entry k of p is changed in a way that does not show. */
  ghost predicate Retabled(s: State, t: State, p: nat, k: Key) {
    && OnlyMoves(s, t, p) && k.pid == p && t.pt - {k} == s.pt - {k}
    && t.mem == s.mem && |t.count| == |s.count|
    && Limit(t.pc[p], t.sz[p]) == Limit(s.pc[p], s.sz[p])
    && (Visible(s, k) <==> Visible(t, k))
    && (Visible(s, k) && Visible(t, k) ==> t.mem[t.pt[k].page] == s.mem[s.pt[k].page])
  }

  lemma RetabledAbs(s: State, t: State, p: nat, k: Key)
    requires Retabled(s, t, p, k)
    ensures Abs(t) == Abs(s)
  {
    forall l | l != k
      ensures l in s.pt <==> l in t.pt
      ensures l in s.pt ==> s.pt[l] == t.pt[l]
    {
      assert l in s.pt <==> l in s.pt - {k};
      assert l in t.pt <==> l in t.pt - {k};
      if l in s.pt {
        assert s.pt[l] == (s.pt - {k})[l] == (t.pt - {k})[l];
      }
    }
    AbsSame(s, t);
  }

  lemma RetabledRefines(s: State, t: State, p: nat, k: Key)
    requires Inv(s) && Content(s) && Retabled(s, t, p, k) && ContentOk(t, p)
    ensures Content(t) && Abs(t) == Abs(s)
  {
    hide Inv, Content, Abs;
    ContentKeeps(s, t, p);
    RetabledAbs(s, t, p, k);
  }

  lemma ClearPteRetables(s: State, t: State, p: nat, j: nat, lim: nat, after: After)
    requires p in s.pc && p in s.sz && s.pc[p] == ClearPte(j, lim, after) && SlotOk(s, p)
    requires t == Goto(s.(pt := s.pt - {Key(p, j)}), p, Unmap(j + 1, lim, after))
    ensures Retabled(s, t, p, Key(p, j)) && ContentOk(t, p)
  {
    assert t.pt - {Key(p, j)} == s.pt - {Key(p, j)};
  }

  lemma CowSetRetables(s: State, t: State, p: nat, v: nat, page: nat)
    requires p in s.pc && p in s.sz && s.pc[p] == CowCopy(v, page, PGSIZE) && Key(p, v) in s.pt
    requires page < |s.mem| && s.pt[Key(p, v)].page < |s.mem| && s.mem[page] == s.mem[s.pt[Key(p, v)].page]
    requires t == Goto(s.(pt := s.pt[Key(p, v) := s.pt[Key(p, v)].(page := page, w := true, cow := false)]), p,
                       FreeDec(s.pt[Key(p, v)].page, Resume))
    ensures Retabled(s, t, p, Key(p, v)) && ContentOk(t, p)
  {
    assert t.pt - {Key(p, v)} == s.pt - {Key(p, v)};
  }

  /** The switch to the private copy does not show: it has the same contents. */
  lemma CowSetRefines(s: State, t: State, p: nat, v: nat, page: nat)
    requires Inv(s) && Content(s) && p in s.pc && p in s.sz && s.pc[p] == CowCopy(v, page, PGSIZE) && Key(p, v) in s.pt
    requires t == Goto(s.(pt := s.pt[Key(p, v) := s.pt[Key(p, v)].(page := page, w := true, cow := false)]), p,
                       FreeDec(s.pt[Key(p, v)].page, Resume))
    ensures Content(t) && Abs(t) == Abs(s)
  {
    hide Inv, Content, Abs;
    ContentOf(s, p);
    ShapeOf(s);
    var a, b := s.mem[page], s.mem[s.pt[Key(p, v)].page];
    assert a == a[..PGSIZE] && b == b[..PGSIZE];
    CowSetRetables(s, t, p, v, page);
    RetabledRefines(s, t, p, Key(p, v));
  }

  lemma CowUpgradeRetables(s: State, t: State, p: nat, v: nat)
    requires p in s.pc && p in s.sz && s.pc[p] == CowUpgrade(v) && Key(p, v) in s.pt
    requires t == Goto(s.(pt := s.pt[Key(p, v) := s.pt[Key(p, v)].(w := true, cow := false)]), p, User)
    ensures Retabled(s, t, p, Key(p, v)) && ContentOk(t, p)
  {
    assert t.pt - {Key(p, v)} == s.pt - {Key(p, v)};
  }

  lemma ForkMapRetables(s: State, t: State, c: nat, par: nat, v: nat)
    requires c in s.pc && c in s.sz && s.pc[c] == ForkMap(par, v) && c != par
    requires Key(par, v) in s.pt && Key(c, v) !in s.pt && ContentOk(s, c)
    requires t == Goto(s.(pt := s.pt[Key(c, v) := s.pt[Key(par, v)]]), c, ForkInc(par, v))
    ensures Retabled(s, t, c, Key(c, v)) && ContentOk(t, c)
  {
    assert t.pt - {Key(c, v)} == s.pt - {Key(c, v)};
    forall x | 0 <= x < v + 1 ensures SameEntry(t, c, par, x) {
      if x < v {
        assert SameEntry(s, c, par, x);
      }
    }
  }

  lemma ForkMapRefines(s: State, t: State, c: nat, par: nat, v: nat)
    requires Inv(s) && Content(s) && c in s.pc && c in s.sz && s.pc[c] == ForkMap(par, v)
    requires Key(par, v) in s.pt && Key(c, v) !in s.pt
    requires t == Goto(s.(pt := s.pt[Key(c, v) := s.pt[Key(par, v)]]), c, ForkInc(par, v))
    ensures Content(t) && Abs(t) == Abs(s)
  {
    hide Inv, Content, Abs;
    ContentOf(s, c);
    SlotOf(s, c);
    ForkMapRetables(s, t, c, par, v);
    RetabledRefines(s, t, c, Key(c, v));
  }

  lemma MarkedEntries(s: State, t: State, c: nat, par: nat, v: nat)
    requires c in s.pc && c in s.sz && s.pc[c] == ForkMark(par, v) && c != par
    requires par in s.pc && par in s.sz && v < s.sz[par] && Key(par, v) in s.pt
    requires t == TickForkMark(s, c, par, v) && ContentOk(s, c)
    ensures ContentOk(t, c) && Abs(t) == Abs(s)
  {
    forall x | 0 <= x < v ensures SameEntry(t, c, par, x) {
      assert SameEntry(s, c, par, x);
    }
    AbsSame(s, t);
  }

  /** Marking an entry of the parent copy-on-write does not show. */
  lemma ForkMarkRefines(s: State, t: State, c: nat, par: nat, v: nat)
    requires Inv(s) && Content(s) && c in s.pc && c in s.sz && s.pc[c] == ForkMark(par, v)
    requires par in s.pc && par in s.sz && v < s.sz[par] && Key(par, v) in s.pt
    requires t == TickForkMark(s, c, par, v)
    ensures Content(t) && Abs(t) == Abs(s)
  {
    hide Inv, Abs;
    ContentOf(s, c);
    SlotOf(s, c);
    MarkedEntries(s, t, c, par, v);
    forall q | q in t.pc && q in t.sz ensures ContentOk(t, q) {
      if q != par && q != c {
        SlotOf(s, q);
        OtherContent(s, t, c, q);
      }
    }
  }

  lemma GrowMapRetables(s: State, t: State, p: nat, page: nat, v: nat, lim: nat)
    requires p in s.pc && p in s.sz && s.pc[p] == GrowMap(page, v, lim) && SlotOk(s, p) && v + 1 < lim
    requires Key(p, v) !in s.pt && page < |s.count| && ContentOk(s, p)
    requires t == TickGrowMap(s, p, page, v, lim, true)
    ensures Retabled(s, t, p, Key(p, v)) && ContentOk(t, p)
  {
    assert t.pt - {Key(p, v)} == s.pt - {Key(p, v)};
    forall x | s.sz[p] <= x < v + 1 ensures ZeroPage(t, p, x) {
      if x < v {
        assert ZeroPage(s, p, x);
      }
    }
  }

  lemma ExtendKey(s: State, t: State, p: nat, page: nat, v: nat, lim: nat, k: Key)
    requires p in s.pc && p in s.sz && s.pc[p] == GrowMap(page, v, lim) && v + 1 == lim && s.sz[p] <= v
    requires Key(p, v) !in s.pt && page < |s.mem| && s.mem[page] == Filled(0) && Fresh(s, p, s.sz[p], v)
    requires t == TickGrowMap(s, p, page, v, lim, true)
    ensures Visible(t, k) <==> Visible(s, k) || (k.pid == p && s.sz[p] <= k.vpn < lim)
    ensures Visible(t, k) ==> t.mem[t.pt[k].page] == if k.pid == p && s.sz[p] <= k.vpn < lim then Filled(0) else s.mem[s.pt[k].page]
  {
    hide Filled;
    if k.pid == p && s.sz[p] <= k.vpn < v {
      assert ZeroPage(s, p, k.vpn) && k == Key(p, k.vpn);
    }
  }

  lemma ExtendAbs(s: State, t: State, p: nat, page: nat, v: nat, lim: nat)
    requires p in s.pc && p in s.sz && s.pc[p] == GrowMap(page, v, lim) && v + 1 == lim && s.sz[p] <= v
    requires Key(p, v) !in s.pt && page < |s.mem| && ContentOk(s, p)
    requires t == TickGrowMap(s, p, page, v, lim, true)
    ensures Abs(t) == Apply(Abs(s), Extend(p, s.sz[p], lim))
  {
    var m := Apply(Abs(s), Extend(p, s.sz[p], lim));
    hide Filled, Visible, TickGrowMap;
    forall k: Key
      ensures k in Abs(t) <==> k in m
      ensures k in Abs(t) && k in m ==> Abs(t)[k] == m[k]
    {
      ExtendKey(s, t, p, page, v, lim, k);
    }
  }

  /** growproc returns: the process sees its new pages, all zero. */
  lemma GrowDoneRefines(s: State, t: State, p: nat, page: nat, v: nat, lim: nat)
    requires Inv(s) && Content(s) && p in s.pc && p in s.sz && s.pc[p] == GrowMap(page, v, lim) && v + 1 >= lim
    requires Key(p, v) !in s.pt && t == TickGrowMap(s, p, page, v, lim, true)
    ensures Content(t) && Abs(t) == Apply(Abs(s), Extend(p, s.sz[p], lim))
  {
    hide Inv, Content, Abs, Apply;
    SlotOf(s, p);
    ContentOf(s, p);
    ContentKeeps(s, t, p);
    ExtendAbs(s, t, p, page, v, lim);
  }

  lemma HideAbs(s: State, t: State, p: nat, v: nat)
    requires Key(p, v) in s.pt && t == s.(pt := s.pt[Key(p, v) := s.pt[Key(p, v)].(u := false)])
    ensures Abs(t) == Apply(Abs(s), Hide(Key(p, v)))
  {
  }

  lemma UvmClearRefines(s: State, t: State, p: nat, v: nat)
    requires Inv(s) && Content(s) && p in s.pc && p in s.sz && s.pc[p] == User
    requires Key(p, v) in s.pt && t == s.(pt := s.pt[Key(p, v) := s.pt[Key(p, v)].(u := false)])
    ensures Content(t) && Abs(t) == Apply(Abs(s), Hide(Key(p, v)))
  {
    hide Inv, Content, Abs, Apply;
    ContentKeeps(s, t, p);
    HideAbs(s, t, p, v);
  }
}
