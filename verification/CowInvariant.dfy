/** The reference-count invariant of the copy-on-write protocol, kept by every
    step of every slot.
  */
module CowInvariant {
  import opened CowProtocol

  // ---------------------------------------------------------------- holders

  /** Whether the entry for page v of a slot at pc is covered by a reference
      count: fork maps before it counts, uvmunmap frees before it clears. */
  predicate Counted(pc: Pc, v: nat) {
    match pc
    case ForkInc(_, w) => v != w
    case ClearPte(j, _, _) => v != j
    case FreeDec(_, t) => !(t.ThenClear? && t.j == v)
    case FreeJunk(_, t) => !(t.ThenClear? && t.j == v)
    case FreePush(_, t) => !(t.ThenClear? && t.j == v)
    case _ => true
  }

  /** The page a slot holds outside any page table, if it holds one. */
  function Hand(pc: Pc): Option<nat> {
    match pc
    case AllocJunk(page, _) => Some(page)
    case CowCopy(_, page, _) => Some(page)
    case GrowZero(page, _, _) => Some(page)
    case GrowMap(page, _, _) => Some(page)
    case Holding(page) => Some(page)
    case FreeDec(page, _) => Some(page)
    case _ => None
  }

  /** The page a slot has taken off the free list but not yet counted, or
      uncounted but not yet put back. */
  function Limbo(pc: Pc): Option<nat> {
    match pc
    case AllocRef(page, _) => Some(page)
    case FreeJunk(page, _) => Some(page)
    case FreePush(page, _) => Some(page)
    case _ => None
  }

  predicate KeyOwns(s: State, k: Key, page: nat) {
    k in s.pt && s.pt[k].page == page && k.pid in s.pc && Counted(s.pc[k.pid], k.vpn)
  }

  predicate HandOwns(s: State, p: nat, page: nat) {
    p in s.pc && Hand(s.pc[p]) == Some(page)
  }

  ghost function KeyOwners(s: State, page: nat): set<Key> {
    set k | k in s.pt && KeyOwns(s, k, page)
  }

  ghost function HandOwners(s: State, page: nat): set<nat> {
    set p | p in s.pc && HandOwns(s, p, page)
  }

  // ---------------------------------------------------------------- invariant

  function Base(after: After): nat {
    if after.BackToUser? then after.size else 0
  }

  /** The pages of a slot that are in its page table. */
  predicate Mapped(pc: Pc, size: nat, v: nat) {
    match pc
    case ForkMark(_, w) => v < w
    case ForkMap(_, w) => v < w
    case ForkInc(_, w) => v <= w
    case AllocPop(why) => MappedWhy(why, size, v)
    case AllocRef(_, why) => MappedWhy(why, size, v)
    case AllocJunk(_, why) => MappedWhy(why, size, v)
    case GrowZero(_, w, _) => v < w
    case GrowMap(_, w, _) => v < w
    case Unmap(j, lim, after) => v < Base(after) || j <= v < lim
    case ClearPte(j, lim, after) => v < Base(after) || j <= v < lim
    case FreeDec(_, t) => MappedThen(t, size, v)
    case FreeJunk(_, t) => MappedThen(t, size, v)
    case FreePush(_, t) => MappedThen(t, size, v)
    case _ => v < size
  }

  predicate MappedWhy(why: Why, size: nat, v: nat) {
    if why.ForGrow? then v < why.v else v < size
  }

  predicate MappedThen(t: Then, size: nat, v: nat) {
    match t
    case Resume => v < size
    case ThenClear(j, lim, after) => v < Base(after) || j <= v < lim
    case ThenUnmap(j, lim, after) => v < Base(after) || j <= v < lim
  }

  /** The slot that is creating this one, while it is being created. */
  function Parent(pc: Pc): Option<nat> {
    match pc
    case ForkMark(par, _) => Some(par)
    case ForkMap(par, _) => Some(par)
    case ForkInc(par, _) => Some(par)
    case Unmap(_, _, after) => ParentAfter(after)
    case ClearPte(_, _, after) => ParentAfter(after)
    case FreeDec(_, t) => ParentThen(t)
    case FreeJunk(_, t) => ParentThen(t)
    case FreePush(_, t) => ParentThen(t)
    case _ => None
  }

  function ParentAfter(after: After): Option<nat> {
    if after.Abort? then Some(after.parent) else None
  }

  function ParentThen(t: Then): Option<nat> {
    match t
    case Resume => None
    case ThenClear(_, _, after) => ParentAfter(after)
    case ThenUnmap(_, _, after) => ParentAfter(after)
  }

  /** A page-table entry for a user page that is marked copy-on-write. */
  predicate CowEntry(s: State, p: nat, v: nat) {
    Key(p, v) in s.pt && s.pt[Key(p, v)].u && s.pt[Key(p, v)].cow
  }

  predicate SharedEntry(s: State, p: nat, v: nat) {
    Key(p, v) in s.pt && !s.pt[Key(p, v)].UserWritable()
  }

  predicate SameEntry(s: State, p: nat, q: nat, v: nat) {
    Key(p, v) in s.pt && Key(q, v) in s.pt && s.pt[Key(p, v)] == s.pt[Key(q, v)]
  }

  predicate WhyOk(s: State, p: nat, why: Why)
    requires p in s.sz
  {
    match why
    case ForCow(v, _) => v < s.sz[p] && CowEntry(s, p, v)
    case ForGrow(v, lim) => s.sz[p] <= v < lim
    case ForKernel => true
  }

  predicate AfterOk(j: nat, lim: nat, after: After, size: nat) {
    Base(after) <= j <= lim && Base(after) <= size
  }

  predicate ThenOk(t: Then, size: nat) {
    match t
    case Resume => true
    case ThenClear(j, lim, after) => j < lim && AfterOk(j, lim, after, size)
    case ThenUnmap(j, lim, after) => AfterOk(j, lim, after, size)
  }

  /** What holds of one slot, by program counter. */
  predicate SlotOk(s: State, p: nat)
    requires p in s.pc && p in s.sz
  {
    match s.pc[p]
    case User => true
    case Zombie => true
    case Holding(_) => true
    case CowCheck(_, _) => true
    case InFork(c) => c in s.pc && Parent(s.pc[c]) == Some(p)
    case ForkMark(par, v) => par in s.sz && v <= s.sz[par]
    case ForkMap(par, v) => par in s.sz && v < s.sz[par] && SharedEntry(s, par, v)
    case ForkInc(par, v) => par in s.sz && v < s.sz[par] && SharedEntry(s, par, v) && SameEntry(s, p, par, v)
    case CowUpgrade(v) => v < s.sz[p] && CowEntry(s, p, v)
    case AllocPop(why) => WhyOk(s, p, why)
    case AllocRef(_, why) => WhyOk(s, p, why)
    case AllocJunk(_, why) => WhyOk(s, p, why)
    case CowCopy(v, page, i) => v < s.sz[p] && CowEntry(s, p, v) && i <= PGSIZE
    case GrowZero(_, v, lim) => s.sz[p] <= v < lim
    case GrowMap(_, v, lim) => s.sz[p] <= v < lim
    case Unmap(j, lim, after) => AfterOk(j, lim, after, s.sz[p])
    case ClearPte(j, lim, after) => j < lim && AfterOk(j, lim, after, s.sz[p])
    case FreeDec(_, t) => ThenOk(t, s.sz[p])
    case FreeJunk(_, t) => ThenOk(t, s.sz[p])
    case FreePush(_, t) => ThenOk(t, s.sz[p])
  }

  /** A slot that is being created has its creator waiting in fork for it. */
  predicate ParentOk(s: State, p: nat)
    requires p in s.pc
  {
    Parent(s.pc[p]).Some? ==>
      Parent(s.pc[p]).value in s.pc && s.pc[Parent(s.pc[p]).value] == InFork(p)
  }

  /** A page in the hand of a slot has that hand as its only holder, until
      kfree is called on it. */
  predicate HandOk(s: State, p: nat)
    requires p in s.pc
  {
    Hand(s.pc[p]).Some? ==>
      && Hand(s.pc[p]).value < |s.count|
      && (!s.pc[p].FreeDec? ==> s.count[Hand(s.pc[p]).value] == 1)
  }

  predicate LimboOk(s: State, p: nat)
    requires p in s.pc
  {
    Limbo(s.pc[p]).Some? ==>
      && Limbo(s.pc[p]).value < |s.count|
      && s.count[Limbo(s.pc[p]).value] == 0
      && Limbo(s.pc[p]).value !in s.free
  }

  /** Once krefcount has returned 1, the page stays private to the caller. */
  predicate UpgradeOk(s: State, p: nat)
    requires p in s.pc
  {
    s.pc[p].CowUpgrade? && Key(p, s.pc[p].v) in s.pt && s.pt[Key(p, s.pc[p].v)].page < |s.count| ==>
      s.count[s.pt[Key(p, s.pc[p].v)].page] == 1
  }

  /** A user-writable entry names a page that nothing else holds. */
  predicate KeyOk(s: State, k: Key)
    requires k in s.pt
  {
    && k.pid in s.pc
    && s.pt[k].page < |s.count|
    && (s.pt[k].u ==> s.pt[k].w != s.pt[k].cow)
    && (s.pt[k].UserWritable() && Counted(s.pc[k.pid], k.vpn) ==> s.count[s.pt[k].page] == 1)
  }

  ghost predicate CountOk(s: State, page: nat)
    requires page < |s.count|
  {
    s.count[page] == |KeyOwners(s, page)| + |HandOwners(s, page)|
  }

  ghost predicate Accounted(s: State, page: nat)
    requires page < |s.count|
  {
    s.count[page] == 0 ==> page in s.free || exists p :: p in s.pc && Limbo(s.pc[p]) == Some(page)
  }

  ghost predicate FreeList(s: State) {
    && (forall i :: 0 <= i < |s.free| ==> s.free[i] < |s.count| && s.count[s.free[i]] == 0)
    && (forall i, j :: 0 <= i < j < |s.free| ==> s.free[i] != s.free[j])
  }

  ghost predicate Slots(s: State) {
    && s.pc.Keys == s.sz.Keys
    && (forall p :: p in s.pc ==> SlotOk(s, p))
    && (forall p :: p in s.pc ==> ParentOk(s, p))
  }

  ghost predicate Hands(s: State) {
    forall p :: p in s.pc ==> HandOk(s, p) && UpgradeOk(s, p)
  }

  ghost predicate Limbos(s: State) {
    && (forall p :: p in s.pc ==> LimboOk(s, p))
    && (forall p, q :: p in s.pc && q in s.pc && p != q && Limbo(s.pc[p]).Some? ==> Limbo(s.pc[p]) != Limbo(s.pc[q]))
  }

  ghost predicate Keys(s: State) {
    forall k :: k in s.pt ==> KeyOk(s, k)
  }

  ghost predicate Tables(s: State) {
    forall p, v :: p in s.pc && p in s.sz ==> (Key(p, v) in s.pt <==> Mapped(s.pc[p], s.sz[p], v))
  }

  ghost predicate Counts(s: State) {
    forall page :: 0 <= page < |s.count| ==> CountOk(s, page)
  }

  ghost predicate NoLeak(s: State) {
    forall page :: 0 <= page < |s.count| ==> Accounted(s, page)
  }

  ghost predicate Shape(s: State) {
    && |s.mem| == |s.count|
    && forall i :: 0 <= i < |s.mem| ==> |s.mem[i]| == PGSIZE
  }

  ghost predicate Inv(s: State) {
    Shape(s) && FreeList(s) && Slots(s) && Hands(s) && Limbos(s) && Keys(s) && Tables(s) && Counts(s) && NoLeak(s)
  }
}
