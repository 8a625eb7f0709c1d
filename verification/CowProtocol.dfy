/** Copy-on-write memory under interleaving.

    Every kernel thread that runs code of kernel/vm.c and kernel/kalloc.c is a
    slot with a program counter.  One step of a slot is one critical section of
    the allocator, one access to a page-table entry, or one byte of the page
    copy; the steps of different slots interleave freely.  The specification is
    the memory in which every process owns its pages and fork copies them.
  */
module CowProtocol {

  const PGSIZE: nat := 4096

  newtype Byte = b: int | 0 <= b < 256

  datatype Option<T> = None | Some(value: T)

  datatype Key = Key(pid: nat, vpn: nat)

  /** A valid leaf page-table entry; absence from the table is an invalid one. */
  datatype Pte = Pte(page: nat, r: bool, x: bool, w: bool, u: bool, cow: bool) {
    predicate UserWritable() {
      w && u
    }
  }

  /** What follows when a range of pages has been unmapped: return to user space
      with the given size, return from a failed fork of `parent`, or a reaped slot. */
  datatype After = BackToUser(size: nat) | Abort(parent: nat) | Reaped

  /** What follows kfree. */
  datatype Then = Resume | ThenClear(j: nat, lim: nat, after: After) | ThenUnmap(j: nat, lim: nat, after: After)

  /** Who called kalloc. */
  datatype Why = ForCow(v: nat, trap: bool) | ForGrow(v: nat, lim: nat) | ForKernel

  datatype Pc =
    | User
    | Zombie
    | InFork(child: nat)
    | ForkMark(parent: nat, v: nat)
    | ForkMap(parent: nat, v: nat)
    | ForkInc(parent: nat, v: nat)
    | CowCheck(v: nat, trap: bool)
    | CowUpgrade(v: nat)
    | AllocPop(why: Why)
    | AllocRef(page: nat, why: Why)
    | AllocJunk(page: nat, why: Why)
    | CowCopy(v: nat, page: nat, i: nat)
    | GrowZero(page: nat, v: nat, lim: nat)
    | GrowMap(page: nat, v: nat, lim: nat)
    | Holding(page: nat)
    | Unmap(j: nat, lim: nat, after: After)
    | FreeDec(page: nat, then_: Then)
    | FreeJunk(page: nat, then_: Then)
    | FreePush(page: nat, then_: Then)
    | ClearPte(j: nat, lim: nat, after: After)

  datatype State = State(
    mem: seq<seq<Byte>>,
    count: seq<int>,
    free: seq<nat>,
    pt: map<Key, Pte>,
    pc: map<nat, Pc>,
    sz: map<nat, nat>)

  /** What a slot does next: events of a running process, and the next step of
      a kernel routine, in which `ok` says whether mappages got its table pages. */
  datatype Event =
    | Store(v: nat, i: nat, b: Byte)
    | CopyoutByte(v: nat, i: nat, b: Byte)
    | Fault(v: nat, trap: bool)
    | ForkCall(child: nat)
    | Grow(lim: nat)
    | Shrink(n: nat)
    | Exit
    | Reap
    | KernelAlloc
    | KernelFree
    | UvmClear(v: nat)
    | Kernel(ok: bool)

  function Filled(b: Byte): (page: seq<Byte>)
    ensures |page| == PGSIZE && forall i :: 0 <= i < PGSIZE ==> page[i] == b
  {
    seq(PGSIZE, _ => b)
  }

  // ---------------------------------------------------------------- steps

  predicate HasPte(s: State, p: nat, v: nat) {
    Key(p, v) in s.pt
  }

  predicate IsPage(s: State, page: nat) {
    page < |s.mem| && page < |s.count|
  }

  /** The page-table entry of page v of slot p names an existing page. */
  predicate HasPage(s: State, p: nat, v: nat) {
    Key(p, v) in s.pt && IsPage(s, s.pt[Key(p, v)].page)
  }

  predicate InRange(s: State, p: nat, v: nat, i: nat) {
    HasPage(s, p, v) && i < |s.mem[s.pt[Key(p, v)].page]|
  }

  function ThenPc(t: Then): Pc {
    match t
    case Resume => User
    case ThenClear(j, lim, after) => ClearPte(j, lim, after)
    case ThenUnmap(j, lim, after) => Unmap(j, lim, after)
  }

  /** The condition under which the code takes the step instead of panicking or
      faulting; the process events are also conditions on the caller. */
  predicate Enabled(s: State, p: nat, e: Event) {
    p in s.pc && p in s.sz &&
    match e
    case Store(v, i, b) => s.pc[p].User? && InRange(s, p, v, i) && s.pt[Key(p, v)].UserWritable()
    case CopyoutByte(v, i, b) => s.pc[p].User? && InRange(s, p, v, i) && s.pt[Key(p, v)].u && !s.pt[Key(p, v)].cow
    case Fault(v, trap) => s.pc[p].User?
    case ForkCall(c) => s.pc[p].User? && c !in s.pc
    case Grow(lim) => s.pc[p].User? && s.sz[p] < lim
    case Shrink(n) => s.pc[p].User? && n < s.sz[p]
    case Exit => s.pc[p].User?
    case Reap => s.pc[p].Zombie?
    case KernelAlloc => s.pc[p].User?
    case KernelFree => s.pc[p].Holding?
    case UvmClear(v) => s.pc[p].User? && HasPte(s, p, v)
    case Kernel(ok) => CanTick(s, p)
  }

  predicate CanTick(s: State, p: nat)
    requires p in s.pc && p in s.sz
  {
    match s.pc[p]
    case User => false
    case Zombie => false
    case InFork(_) => false
    case Holding(_) => false
    case ForkMark(par, v) => par in s.pc && par in s.sz && (v < s.sz[par] ==> HasPte(s, par, v))
    case ForkMap(par, v) => HasPte(s, par, v) && !HasPte(s, p, v)
    case ForkInc(par, v) => HasPage(s, par, v) && s.count[s.pt[Key(par, v)].page] >= 1
    case CowCheck(v, _) => HasPte(s, p, v) ==> HasPage(s, p, v)
    case CowUpgrade(v) => HasPte(s, p, v)
    case AllocPop(_) => true
    case AllocRef(page, _) => IsPage(s, page) && s.count[page] == 0
    case AllocJunk(page, _) => IsPage(s, page)
    case CowCopy(v, page, i) =>
      && IsPage(s, page)
      && HasPage(s, p, v)
      && |s.mem[page]| == |s.mem[s.pt[Key(p, v)].page]| == PGSIZE && i <= PGSIZE
    case GrowZero(page, _, _) => IsPage(s, page)
    case GrowMap(page, v, _) => !HasPte(s, p, v)
    case Unmap(j, lim, after) =>
      && (j < lim ==> HasPage(s, p, j))
      && (after.Abort? ==> after.parent in s.pc)
    case FreeDec(page, _) => IsPage(s, page) && s.count[page] >= 1
    case FreeJunk(page, _) => IsPage(s, page)
    case FreePush(page, _) => true
    case ClearPte(j, _, _) => HasPte(s, p, j)
  }

  function Do(s: State, p: nat, e: Event): State
    requires Enabled(s, p, e)
  {
    match e
    case Store(v, i, b) => WriteByte(s, s.pt[Key(p, v)].page, i, b)
    case CopyoutByte(v, i, b) => WriteByte(s, s.pt[Key(p, v)].page, i, b)
    case Fault(v, trap) => Goto(s, p, CowCheck(v, trap))
    case ForkCall(c) => s.(pc := s.pc[p := InFork(c)][c := ForkMark(p, 0)], sz := s.sz[c := 0])
    case Grow(lim) => Goto(s, p, AllocPop(ForGrow(s.sz[p], lim)))
    case Shrink(n) => Goto(s, p, Unmap(n, s.sz[p], BackToUser(n)))
    case Exit => Goto(s, p, Zombie)
    case Reap => Goto(s, p, Unmap(0, s.sz[p], Reaped))
    case KernelAlloc => Goto(s, p, AllocPop(ForKernel))
    case KernelFree => Goto(s, p, FreeDec(s.pc[p].page, Resume))
    case UvmClear(v) => s.(pt := s.pt[Key(p, v) := s.pt[Key(p, v)].(u := false)])
    case Kernel(ok) => Tick(s, p, ok)
  }

  function Goto(s: State, p: nat, pc: Pc): State {
    s.(pc := s.pc[p := pc])
  }

  function WriteByte(s: State, page: nat, i: nat, b: Byte): State
    requires page < |s.mem| && i < |s.mem[page]|
  {
    s.(mem := s.mem[page := s.mem[page][i := b]])
  }

  function Fill(s: State, page: nat, b: Byte): State
    requires page < |s.mem|
  {
    s.(mem := s.mem[page := Filled(b)])
  }

  function Tick(s: State, p: nat, ok: bool): State
    requires p in s.pc && p in s.sz && CanTick(s, p)
  {
    match s.pc[p]
    // uvmcopy: mark, map, count
    case ForkMark(par, v) => TickForkMark(s, p, par, v)
    case ForkMap(par, v) =>
      if ok then Goto(s.(pt := s.pt[Key(p, v) := s.pt[Key(par, v)]]), p, ForkInc(par, v))
      else Goto(s, p, Unmap(0, v, Abort(par)))
    case ForkInc(par, v) =>
      var page := s.pt[Key(par, v)].page;
      Goto(s.(count := s.count[page := s.count[page] + 1]), p, ForkMark(par, v + 1))
    // cowalloc
    case CowCheck(v, trap) => TickCowCheck(s, p, v, trap)
    case CowUpgrade(v) =>
      Goto(s.(pt := s.pt[Key(p, v) := s.pt[Key(p, v)].(w := true, cow := false)]), p, User)
    case CowCopy(v, page, i) => TickCowCopy(s, p, v, page, i)
    // kalloc
    case AllocPop(why) => TickAllocPop(s, p, why)
    case AllocRef(page, why) =>
      Goto(s.(count := s.count[page := 1]), p, AllocJunk(page, why))
    case AllocJunk(page, why) =>
      Goto(Fill(s, page, 5), p, AfterAlloc(page, why))
    // uvmalloc
    case GrowZero(page, v, lim) => Goto(Fill(s, page, 0), p, GrowMap(page, v, lim))
    case GrowMap(page, v, lim) => TickGrowMap(s, p, page, v, lim, ok)
    // uvmunmap
    case Unmap(j, lim, after) => TickUnmap(s, p, j, lim, after)
    case ClearPte(j, lim, after) =>
      Goto(s.(pt := s.pt - {Key(p, j)}), p, Unmap(j + 1, lim, after))
    // kfree
    case FreeDec(page, then_) =>
      Goto(s.(count := s.count[page := s.count[page] - 1]), p,
           if s.count[page] > 1 then ThenPc(then_) else FreeJunk(page, then_))
    case FreeJunk(page, then_) => Goto(Fill(s, page, 1), p, FreePush(page, then_))
    case FreePush(page, then_) => Goto(s.(free := [page] + s.free), p, ThenPc(then_))
  }

  function TickForkMark(s: State, c: nat, par: nat, v: nat): State
    requires par in s.pc && par in s.sz && (v < s.sz[par] ==> HasPte(s, par, v))
  {
    if v < s.sz[par] then
      var pte := s.pt[Key(par, v)];
      var marked := if pte.UserWritable() then pte.(w := false, cow := true) else pte;
      Goto(s.(pt := s.pt[Key(par, v) := marked]), c, ForkMap(par, v))
    else
      s.(pc := s.pc[c := User][par := User], sz := s.sz[c := s.sz[par]])
  }

  function TickCowCheck(s: State, p: nat, v: nat, trap: bool): State
    requires HasPte(s, p, v) ==> HasPage(s, p, v)
  {
    if !HasPte(s, p, v) || !s.pt[Key(p, v)].u || !s.pt[Key(p, v)].cow then
      Goto(s, p, if trap then Zombie else User)
    else if s.count[s.pt[Key(p, v)].page] == 1 then
      Goto(s, p, CowUpgrade(v))
    else
      Goto(s, p, AllocPop(ForCow(v, trap)))
  }

  /** memmove, byte by byte; then the entry is switched to the copy. */
  function TickCowCopy(s: State, p: nat, v: nat, page: nat, i: nat): State
    requires IsPage(s, page) && HasPage(s, p, v) && i <= PGSIZE
    requires |s.mem[page]| == |s.mem[s.pt[Key(p, v)].page]| == PGSIZE
  {
    var pte := s.pt[Key(p, v)];
    if i < PGSIZE then
      Goto(WriteByte(s, page, i, s.mem[pte.page][i]), p, CowCopy(v, page, i + 1))
    else
      Goto(s.(pt := s.pt[Key(p, v) := pte.(page := page, w := true, cow := false)]), p, FreeDec(pte.page, Resume))
  }

  function AfterAlloc(page: nat, why: Why): Pc {
    match why
    case ForCow(v, _) => CowCopy(v, page, 0)
    case ForGrow(v, lim) => GrowZero(page, v, lim)
    case ForKernel => Holding(page)
  }

  function TickAllocPop(s: State, p: nat, why: Why): State
    requires p in s.sz
  {
    if s.free == [] then
      Goto(s, p,
           match why
           case ForCow(_, trap) => if trap then Zombie else User
           case ForGrow(v, _) => Unmap(s.sz[p], v, BackToUser(s.sz[p]))
           case ForKernel => User)
    else
      Goto(s.(free := s.free[1..]), p, AllocRef(s.free[0], why))
  }

  function TickGrowMap(s: State, p: nat, page: nat, v: nat, lim: nat, ok: bool): State
    requires p in s.sz
  {
    if ok then
      var t := s.(pt := s.pt[Key(p, v) := Pte(page, true, true, true, true, false)]);
      if v + 1 < lim then Goto(t, p, AllocPop(ForGrow(v + 1, lim)))
      else Goto(t.(sz := t.sz[p := lim]), p, User)
    else
      Goto(s, p, FreeDec(page, ThenUnmap(s.sz[p], v, BackToUser(s.sz[p]))))
  }

  function TickUnmap(s: State, p: nat, j: nat, lim: nat, after: After): State
    requires (j < lim ==> HasPage(s, p, j)) && (after.Abort? ==> after.parent in s.pc)
  {
    if j < lim then
      Goto(s, p, FreeDec(s.pt[Key(p, j)].page, ThenClear(j, lim, after)))
    else
      match after
      case BackToUser(n) => Goto(s.(sz := s.sz[p := n]), p, User)
      case Abort(par) => s.(pc := (s.pc - {p})[par := User], sz := s.sz - {p})
      case Reaped => s.(pc := s.pc - {p}, sz := s.sz - {p})
  }
}
