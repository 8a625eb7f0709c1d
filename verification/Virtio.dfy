/** The request ring of kernel/virtio_disk.c, and a device that takes requests in order
    and completes them in any order (sections 2.6 and 5.2 of VIRTIO 1.1). */
module Virtio {

  datatype Option<T> = None | Some(value: T)

  const NUM: nat := 8
  const U16: nat := 0x1_0000

  /** The contents of a block, taken as a whole. */
  type Block = int

  /** What a descriptor points to. */
  datatype Addr = Nothing | Header(i: nat) | Data(b: nat) | Status(i: nat)

  datatype Desc = Desc(addr: Addr, hasNext: bool, deviceWrites: bool, next: nat)

  const EMPTY := Desc(Nothing, false, false, 0)

  /** A command header. */
  datatype Op = Op(write: bool, blockno: nat)

  /** The buffer of the request whose chain starts here, and the status byte. */
  datatype Info = Info(b: Option<nat>, status: int)

  /** Where a request is: in the avail ring, in the device, in the used ring, or seen by
      the interrupt handler and waiting for its process. */
  datatype Phase = Queued | Working | Completed | Seen

  /** A request: its three descriptors, and what was asked for. */
  datatype Req = Req(i0: nat, i1: nat, i2: nat, b: nat, write: bool, blockno: nat, phase: Phase)

  /** The chain of the three descriptors of a request. */
  predicate Chained(r: Req, desc: seq<Desc>) {
    && |desc| == NUM && r.i0 < NUM && r.i1 < NUM && r.i2 < NUM
    && r.i0 != r.i1 && r.i1 != r.i2 && r.i0 != r.i2
    && desc[r.i0] == Desc(Header(r.i0), true, false, r.i1)
    && desc[r.i1] == Desc(Data(r.b), true, !r.write, r.i2)
    && desc[r.i2] == Desc(Status(r.i0), false, true, 0)
  }

  /** The descriptors of a request, as the device reads them. */
  predicate Formatted(r: Req, desc: seq<Desc>, info: seq<Info>, ops: seq<Op>) {
    && |desc| == |info| == |ops| == NUM && Chained(r, desc)
    && ops[r.i0] == Op(r.write, r.blockno)
    && info[r.i0].b == Some(r.b)
    && (info[r.i0].status == 0 <==> r.phase.Completed? || r.phase.Seen?)
  }

  predicate InChain(r: Req, i: nat) {
    i == r.i0 || i == r.i1 || i == r.i2
  }

  /** Every descriptor is free or in exactly one chain, and chains are disjoint. */
  ghost predicate Partitioned(free: seq<bool>, owner: map<nat, nat>, reqs: map<nat, Req>) {
    FreeOk(free, owner) && ChainsOk(owner, reqs)
  }

  ghost predicate FreeOk(free: seq<bool>, owner: map<nat, nat>) {
    && |free| == NUM
    && (forall i :: 0 <= i < NUM ==> (free[i] <==> i !in owner))
    && (forall i :: i in owner ==> i < NUM)
  }

  ghost predicate ChainsOk(owner: map<nat, nat>, reqs: map<nat, Req>) {
    && (forall i :: i in owner ==> owner[i] in reqs && InChain(reqs[owner[i]], i))
    && (forall h, i: nat :: h in reqs && InChain(reqs[h], i) ==> i in owner && owner[i] == h)
    && (forall h :: h in reqs ==> reqs[h].i0 == h)
  }

  function Claiming(owner: map<nat, nat>, r: Req): map<nat, nat> {
    owner[r.i0 := r.i0][r.i1 := r.i0][r.i2 := r.i0]
  }

  function With1(of: map<nat, nat>, b: nat, h: nat): map<nat, nat> {
    of[b := h]
  }

  function With(reqs: map<nat, Req>, r: Req): map<nat, Req> {
    reqs[r.i0 := r]
  }

  /** The ring position of element j of a queue that starts at from. */
  function Slot(from: nat, j: nat): (i: nat)
    ensures i < NUM
  {
    (from + j) % NUM
  }

  /** The next 16-bit index. */
  function Succ(idx: nat): nat {
    (idx + 1) % U16
  }

  /** The 16-bit index of the slot after n entries from the index from on. */
  predicate IdxOk(from: nat, n: nat, idx: nat) {
    from < U16 && idx == (from + n) % U16
  }

  /** The queue q of distinct requests in the given phase occupies the ring from
      position from on. */
  ghost predicate InRing(ring: seq<nat>, from: nat, q: seq<nat>, reqs: map<nat, Req>, phase: Phase) {
    && |ring| == NUM && |q| <= NUM
    && (forall j :: 0 <= j < |q| ==> ring[Slot(from, j)] == q[j])
    && (forall j :: 0 <= j < |q| ==> q[j] in reqs && reqs[q[j]].phase == phase)
    && (forall j, k :: 0 <= j < k < |q| ==> q[j] != q[k])
    && (forall h :: h in reqs && reqs[h].phase == phase ==> h in q)
  }

  // ---------------------------------------------------------------- counting

  /** Distinct numbers below n are at most n. */
  lemma {:induction false} Pigeonhole(q: seq<nat>, n: nat)
    requires (forall j :: 0 <= j < |q| ==> q[j] < n) && (forall j, k :: 0 <= j < k < |q| ==> q[j] != q[k])
    ensures |q| <= n
    decreases n
  {
    if |q| > 0 {
      assert q[0] < n;
      if n - 1 in q {
        var m :| 0 <= m < |q| && q[m] == n - 1;
        var r := q[..m] + q[m + 1..];
        forall j | 0 <= j < |r| ensures r[j] < n - 1 && r[j] == q[if j < m then j else j + 1] {
        }
        Pigeonhole(r, n - 1);
      } else {
        Pigeonhole(q, n - 1);
      }
    }
  }

  /** Some other descriptors in use leave room in the ring. */
  lemma RingHasRoom(q: seq<nat>, x: nat)
    requires (forall j :: 0 <= j < |q| ==> q[j] < NUM && q[j] != x) && (forall j, k :: 0 <= j < k < |q| ==> q[j] != q[k]) && x < NUM
    ensures |q| < NUM
  {
    Pigeonhole(q + [x], NUM);
  }

  lemma SlotsDiffer(from: nat, j: nat, k: nat)
    requires j < k < j + NUM
    ensures Slot(from, j) != Slot(from, k)
  {
  }

  /** The index after a queue points at the ring position after it, also when it wraps. */
  lemma IdxPush(from: nat, n: nat, m: nat, idx: nat)
    requires IdxOk(from, n, idx) && m == n + 1
    ensures idx % NUM == Slot(from, n) && IdxOk(from, m, Succ(idx))
  {
    if from + n < U16 {
      assert idx == from + n;
    } else {
      IdxLater(from + n, idx);
    }
  }

  lemma IdxLater(a: nat, idx: nat)
    requires idx == a % U16
    ensures Succ(idx) == (a + 1) % U16 && idx % NUM == a % NUM
  {
  }

  /** A queue moves on by one; so does the ring position it starts at. */
  lemma SlotShift(from: nat, j: nat)
    requires from < U16
    ensures Slot(Succ(from), j) == Slot(from, j + 1)
  {
  }

  /** The slot after the queue is not one of those in use, also when the 16-bit index
      wraps around. */
  lemma Pushed(ring: seq<nat>, from: nat, q: seq<nat>, reqs: map<nat, Req>, reqs': map<nat, Req>, phase: Phase, i: nat, h: nat)
    requires InRing(ring, from, q, reqs, phase) && |q| < NUM && i == Slot(from, |q|) && h !in q
    requires h in reqs' && reqs'[h].phase == phase && forall x :: x in reqs' && x != h ==> x in reqs && reqs[x].phase == reqs'[x].phase
    requires forall x :: x in reqs && x != h ==> x in reqs'
    ensures InRing(ring[i := h], from, q + [h], reqs', phase)
  {
    var q' := q + [h];
    forall j | 0 <= j < |q'| ensures ring[i := h][Slot(from, j)] == q'[j] {
      if j < |q| {
        SlotsDiffer(from, j, |q|);
      }
    }
    forall x | x in reqs' && reqs'[x].phase == phase ensures x in q' {
      if x == h {
        assert q'[|q|] == h;
      } else {
        assert x in q;
      }
    }
  }

  /** The first of a queue leaves it. */
  lemma Popped(ring: seq<nat>, from: nat, q: seq<nat>, reqs: map<nat, Req>, reqs': map<nat, Req>, phase: Phase, from': nat)
    requires InRing(ring, from, q, reqs, phase) && |q| > 0 && from < U16 && from' == Succ(from)
    requires reqs'.Keys == reqs.Keys && reqs'[q[0]].phase != phase && forall x :: x in reqs && x != q[0] ==> reqs'[x].phase == reqs[x].phase
    ensures InRing(ring, from', q[1..], reqs', phase)
  {
    var q' := q[1..];
    forall j | 0 <= j < |q'| ensures ring[Slot(from', j)] == q'[j] && q'[j] == q[j + 1] {
      SlotShift(from, j);
      assert ring[Slot(from, j + 1)] == q[j + 1];
    }
    forall x | x in reqs' && reqs'[x].phase == phase ensures x in q' {
      assert x in q;
      var j :| 0 <= j < |q| && q[j] == x;
      assert q'[j - 1] == x;
    }
  }

  /** A queue is not affected by what happens to requests in other phases. */
  lemma Kept(ring: seq<nat>, from: nat, q: seq<nat>, reqs: map<nat, Req>, reqs': map<nat, Req>, phase: Phase)
    requires InRing(ring, from, q, reqs, phase)
    requires forall x :: x in reqs' && reqs'[x].phase == phase ==> x in reqs && reqs[x].phase == phase
    requires forall x :: x in reqs && reqs[x].phase == phase ==> x in reqs' && reqs'[x].phase == phase
    ensures InRing(ring, from, q, reqs', phase)
  {
  }

  // ---------------------------------------------------------------- the driver and the device

  /** struct disk: the memory shared with the device, and the driver's own. */
  datatype Mem = Mem(desc: seq<Desc>, avail: seq<nat>, availIdx: nat, used: seq<nat>, usedIdx: nat, ops: seq<Op>, info: seq<Info>,
                     free: seq<bool>, seenIdx: nat)

  /** The device's position in the avail ring, and the blocks it stores. */
  datatype Device = Device(idx: nat, store: seq<Block>)

  /** The requests under way, and where they are. */
  datatype Track = Track(reqs: map<nat, Req>, owner: map<nat, nat>, of: map<nat, nat>, availQ: seq<nat>, usedQ: seq<nat>)

  ghost predicate Ok(m: Mem, dev: Device, bufs: map<nat, Block>, busy: set<nat>, k: Track) {
    && Partitioned(m.free, k.owner, k.reqs) && AllFormatted(k.reqs, m.desc, m.info, m.ops)
    && InRing(m.avail, dev.idx, k.availQ, k.reqs, Queued) && InRing(m.used, m.seenIdx, k.usedQ, k.reqs, Completed)
    && IdxOk(dev.idx, |k.availQ|, m.availIdx) && IdxOk(m.seenIdx, |k.usedQ|, m.usedIdx)
    && BuffersOk(k.reqs, k.of, busy) && Backed(k.reqs, dev.store, bufs)
  }

  class Disk {
    var m: Mem
    var dev: Device
    /** the data of the buffers, and those with b->disk set */
    var bufs: map<nat, Block>
    var busy: set<nat>
    ghost var k: Track

    ghost predicate Valid()
      reads this
    {
      Ok(m, dev, bufs, busy, k)
    }

    constructor (store: seq<Block>, bufs: map<nat, Block>)
      ensures Valid() && dev.store == store && this.bufs == bufs && k.reqs == map[] && busy == {}
    {
      m := Mem(seq(NUM, _ => EMPTY), seq(NUM, _ => 0), 0, seq(NUM, _ => 0), 0, seq(NUM, _ => Op(false, 0)), seq(NUM, _ => Info(None, 0)),
               seq(NUM, _ => true), 0);
      dev, this.bufs, busy := Device(0, store), bufs, {};
      k := Track(map[], map[], map[], [], []);
    }

    /** The first free descriptor, now in use. */
    method AllocDesc() returns (r: Option<nat>)
      requires |m.free| == NUM
      modifies this`m
      ensures r.None? ==> m == old(m) && forall i :: 0 <= i < NUM ==> !m.free[i]
      ensures r.Some? ==> r.value < NUM && old(m).free[r.value] && m == old(m).(free := old(m).free[r.value := false])
      ensures r.Some? ==> forall i :: 0 <= i < r.value ==> !m.free[i]
    {
      var i := 0;
      while i < NUM
        invariant i <= NUM && m == old(m) && forall j :: 0 <= j < i ==> !m.free[j]
      {
        if m.free[i] {
          m := m.(free := m.free[i := false]);
          return Some(i);
        }
        i := i + 1;
      }
      r := None;
    }

    /** Mark a descriptor free; one out of range or free already stops the machine. */
    method FreeDesc(i: nat)
      requires |m.free| == |m.desc| == NUM && i < NUM && !m.free[i]
      modifies this`m
      ensures m == Released(old(m), i)
    {
      m := m.(desc := m.desc[i := EMPTY]);
      m := m.(free := m.free[i := true]);
    }

    /** Free the descriptors of a request, following the links. */
    method FreeChain(head: nat, ghost r: Req)
      requires |m.free| == NUM && Chained(r, m.desc) && head == r.i0 && !m.free[r.i0] && !m.free[r.i1] && !m.free[r.i2]
      modifies this`m
      ensures m == Released(Released(Released(old(m), r.i0), r.i1), r.i2)
    {
      var i := head;
      ghost var k := 0;
      while true
        invariant 0 <= k <= 2 && i == (if k == 0 then r.i0 else if k == 1 then r.i1 else r.i2)
        invariant k == 0 ==> m == old(m)
        invariant k == 1 ==> m == Released(old(m), r.i0)
        invariant k == 2 ==> m == Released(Released(old(m), r.i0), r.i1)
        decreases 2 - k
      {
        var more, next := m.desc[i].hasNext, m.desc[i].next;
        FreeDesc(i);
        if more {
          i := next;
          k := k + 1;
        } else {
          break;
        }
      }
    }

    /** Three descriptors, or none: those already taken go back. */
    method Alloc3() returns (r: Option<(nat, nat, nat)>)
      requires |m.free| == |m.desc| == NUM
      modifies this`m
      ensures r.None? ==> m == old(m).(desc := m.desc) && |m.desc| == NUM && forall i :: 0 <= i < NUM && !m.free[i] ==> m.desc[i] == old(m).desc[i]
      ensures r.None? ==> forall a, b, c :: 0 <= a < b < c < NUM ==> !(m.free[a] && m.free[b] && m.free[c])
      ensures r.Some? ==> var (a, b, c) := r.value; a < b < c < NUM && old(m).free[a] && old(m).free[b] && old(m).free[c]
      ensures r.Some? ==> var (a, b, c) := r.value; m == old(m).(free := old(m).free[a := false][b := false][c := false])
    {
      var a := AllocDesc();
      if a.None? {
        return None;
      }
      var b := AllocDesc();
      if b.None? {
        FreeDesc(a.value);
        return None;
      }
      var c := AllocDesc();
      if c.None? {
        FreeDesc(a.value);
        FreeDesc(b.value);
        return None;
      }
      r := Some((a.value, b.value, c.value));
    }

    /** virtio_disk_rw up to the notification of the device; without descriptors the
        caller sleeps and tries again.  The caller holds the buffer's lock, so no other
        request uses it. */
    method Submit(b: nat, write: bool, blockno: nat) returns (h: Option<nat>)
      requires Valid() && b !in k.of && b in bufs && blockno < |dev.store|
      modifies this`m, this`busy, this`k
      ensures Valid()
      ensures h.None? ==> k == old(k) && busy == old(busy) && m.free == old(m).free
      ensures h.None? ==> |m.free| == NUM && forall x, y, z :: 0 <= x < y < z < NUM ==> !(m.free[x] && m.free[y] && m.free[z])
      ensures h.Some? ==> h.value !in old(k).reqs && h.value in k.reqs && k.reqs == With(old(k).reqs, k.reqs[h.value]) && busy == old(busy) + {b}
      ensures h.Some? ==> var r := k.reqs[h.value]; r.i0 == h.value && r.b == b && r.write == write && r.blockno == blockno && r.phase.Queued?
    {
      hide Ok;
      Sizes(m, dev, bufs, busy, k);
      var idx := Alloc3();
      if idx.None? {
        Unsubmitted(old(m), m.desc, dev, bufs, busy, k);
        return None;
      }
      var (i0, i1, i2) := idx.value;
      SubmitAt(i0, i1, i2, b, write, blockno, old(m));
      h := Some(i0);
    }

    /** Write the three descriptors of a request and enter it in the avail ring. */
    method SubmitAt(i0: nat, i1: nat, i2: nat, b: nat, write: bool, blockno: nat, ghost m0: Mem)
      requires Ok(m0, dev, bufs, busy, k) && SizesOk(m0) && i0 < i1 < i2 < NUM && m0.free[i0] && m0.free[i1] && m0.free[i2]
      requires m == m0.(free := m0.free[i0 := false][i1 := false][i2 := false])
      requires b !in k.of && b in bufs && blockno < |dev.store|
      modifies this`m, this`busy, this`k
      ensures Valid() && i0 !in old(k).reqs
      ensures k.reqs == With(old(k).reqs, Req(i0, i1, i2, b, write, blockno, Queued)) && busy == old(busy) + {b}
    {
      hide Ok, Formatted, InChain;
      ghost var r := Req(i0, i1, i2, b, write, blockno, Queued);
      Format(i0, i1, i2, b, write, blockno, r);
      Submitted(m0, m, dev, bufs, busy, k, r);
      busy := busy + {b};
      m := m.(avail := m.avail[m.availIdx % NUM := i0]);
      m := m.(availIdx := Succ(m.availIdx));
      k := Track(With(k.reqs, r), Claiming(k.owner, r), With1(k.of, b, i0), k.availQ + [i0], k.usedQ);
    }

    method Format(i0: nat, i1: nat, i2: nat, b: nat, write: bool, blockno: nat, ghost r: Req)
      requires SizesOk(m) && i0 < i1 < i2 < NUM && r == Req(i0, i1, i2, b, write, blockno, Queued)
      modifies this`m
      ensures m == old(m).(desc := m.desc, info := m.info, ops := m.ops) && Formatted(r, m.desc, m.info, m.ops)
      ensures forall i :: 0 <= i < NUM && !InChain(r, i) ==> m.desc[i] == old(m).desc[i] && m.info[i] == old(m).info[i] && m.ops[i] == old(m).ops[i]
    {
      m := m.(ops := m.ops[i0 := Op(write, blockno)]);
      m := m.(desc := m.desc[i0 := Desc(Header(i0), true, false, i1)]);
      m := m.(desc := m.desc[i1 := Desc(Data(b), true, !write, i2)]);
      m := m.(info := m.info[i0 := m.info[i0].(status := 0xff)]);
      m := m.(desc := m.desc[i2 := Desc(Status(i0), false, true, 0)]);
      m := m.(info := m.info[i0 := m.info[i0].(b := Some(b))]);
    }

    /** The device looks for a new request and takes it up. */
    method DeviceTake() returns (h: Option<nat>)
      requires Valid()
      modifies this`dev, this`k
      ensures Valid() && dev.store == old(dev.store) && (h.None? <==> old(k).availQ == [])
      ensures h.None? ==> k == old(k) && dev == old(dev)
      ensures h.Some? ==> h.value == old(k).availQ[0] && h.value in old(k).reqs && k.reqs == Moved(old(k).reqs, h.value, Working)
    {
      hide Ok;
      Sizes(m, dev, bufs, busy, k);
      Waiting(m, dev, bufs, busy, k);
      if dev.idx == m.availIdx {
        return None;
      }
      h := Some(m.avail[dev.idx % NUM]);
      Taken(m, dev, bufs, busy, k);
      k := Track(Moved(k.reqs, h.value, Working), k.owner, k.of, k.availQ[1..], k.usedQ);
      dev := dev.(idx := Succ(dev.idx));
    }

    /** The device carries out a request it has taken, any one, by following its
        descriptors, and reports it in the used ring. */
    method DeviceComplete(h: nat)
      requires Valid() && h in k.reqs && k.reqs[h].phase.Working?
      modifies this`m, this`dev, this`bufs, this`k
      ensures Valid() && h in old(k).reqs && k.reqs == Moved(old(k).reqs, h, Completed)
      ensures var r := old(k).reqs[h];
              && r.blockno < |old(dev).store| && r.b in old(bufs)
              && dev == old(dev).(store := if r.write then old(dev).store[r.blockno := old(bufs)[r.b]] else old(dev).store)
              && bufs == if r.write then old(bufs) else old(bufs)[r.b := old(dev).store[r.blockno]]
    {
      hide Ok;
      Sizes(m, dev, bufs, busy, k);
      ChainOf(m, dev, bufs, busy, k, h);
      var d0 := m.desc[h];
      var op, d1 := m.ops[d0.addr.i], m.desc[d0.next];
      var d2 := m.desc[d1.next];
      Done(m, dev, bufs, busy, k, h);
      if op.write {
        dev := dev.(store := dev.store[op.blockno := bufs[d1.addr.b]]);
      } else {
        bufs := bufs[d1.addr.b := dev.store[op.blockno]];
      }
      m := m.(info := m.info[d2.addr.i := m.info[d2.addr.i].(status := 0)]);
      m := m.(used := m.used[m.usedIdx % NUM := h]);
      m := m.(usedIdx := Succ(m.usedIdx));
      k := Track(Moved(k.reqs, h, Completed), k.owner, k.of, k.availQ, k.usedQ + [h]);
    }

    /** The interrupt handler: every completed request is seen, once, and its buffer is
        no longer busy. */
    method Intr()
      requires Valid()
      modifies this`m, this`busy, this`k
      ensures Valid() && k.usedQ == [] && k.owner == old(k).owner && k.of == old(k).of && m.free == old(m).free
      ensures k.reqs.Keys == old(k).reqs.Keys
      ensures forall h :: h in k.reqs ==> k.reqs[h] == SeenIf(old(k).reqs[h])
    {
      hide Ok;
      Sizes(m, dev, bufs, busy, k);
      Pending(m, dev, bufs, busy, k);
      while m.seenIdx != m.usedIdx
        invariant Valid() && SizesOk(m) && (m.seenIdx == m.usedIdx <==> k.usedQ == []) && k.owner == old(k).owner && k.of == old(k).of
        invariant m.free == old(m).free && k.reqs.Keys == old(k).reqs.Keys
        invariant forall h :: h in k.reqs ==> SeenIf(k.reqs[h]) == SeenIf(old(k).reqs[h])
        decreases |k.usedQ|
      {
        IntrOne();
        Pending(m, dev, bufs, busy, k);
      }
      NoneCompleted(m, dev, bufs, busy, k);
    }

    method IntrOne()
      requires Valid() && SizesOk(m) && k.usedQ != []
      modifies this`m, this`busy, this`k
      ensures Valid() && SizesOk(m) && m == old(m).(seenIdx := m.seenIdx) && k.owner == old(k).owner && k.of == old(k).of
      ensures k.usedQ == old(k).usedQ[1..] && old(k).usedQ[0] in old(k).reqs && old(k).reqs[old(k).usedQ[0]].phase.Completed?
      ensures k.reqs == Moved(old(k).reqs, old(k).usedQ[0], Seen) && busy == old(busy) - {old(k).reqs[old(k).usedQ[0]].b}
    {
      hide Ok;
      FirstUsed(m, dev, bufs, busy, k);
      var id := m.used[m.seenIdx % NUM];
      assert m.info[id].status == 0;
      var b := m.info[id].b.value;
      Noticed(m, dev, bufs, busy, k);
      busy := busy - {b};
      m := m.(seenIdx := Succ(m.seenIdx));
      k := Track(Moved(k.reqs, id, Seen), k.owner, k.of, k.availQ, k.usedQ[1..]);
    }

    /** The end of virtio_disk_rw, once b->disk is clear: the three descriptors are free
        again. */
    method Finish(h: nat)
      requires Valid() && h in k.reqs && k.reqs[h].b !in busy
      modifies this`m, this`k
      ensures Valid() && h in old(k).reqs && k.reqs == old(k).reqs - {h} && k.of == old(k).of - {old(k).reqs[h].b}
      ensures forall i :: 0 <= i < NUM ==> |m.free| == |old(m).free| == NUM && (m.free[i] <==> old(m).free[i] || InChain(old(k).reqs[h], i))
    {
      hide Ok;
      ghost var r := k.reqs[h];
      Sizes(m, dev, bufs, busy, k);
      ChainOf(m, dev, bufs, busy, k, h);
      Retired(m, dev, bufs, busy, k, h);
      m := m.(info := m.info[h := m.info[h].(b := None)]);
      FreeChain(h, r);
      k := Track(k.reqs - {h}, k.owner - {r.i0, r.i1, r.i2}, k.of - {r.b}, k.availQ, k.usedQ);
    }
  }

  function Moved(reqs: map<nat, Req>, h: nat, phase: Phase): map<nat, Req>
    requires h in reqs
  {
    reqs[h := reqs[h].(phase := phase)]
  }

  function SeenIf(r: Req): Req {
    if r.phase.Completed? then r.(phase := Seen) else r
  }

  /** The indices differ exactly when the queue is not empty, whatever they are. */
  lemma IdxDiffer(from: nat, n: nat, idx: nat)
    requires IdxOk(from, n, idx) && n < U16
    ensures from == idx <==> n == 0
  {
  }

  lemma Waiting(m: Mem, dev: Device, bufs: map<nat, Block>, busy: set<nat>, k: Track)
    requires Ok(m, dev, bufs, busy, k) && SizesOk(m)
    ensures (dev.idx == m.availIdx <==> k.availQ == []) && (k.availQ != [] ==> m.avail[dev.idx % NUM] == k.availQ[0] && k.availQ[0] in k.reqs)
  {
    IdxDiffer(dev.idx, |k.availQ|, m.availIdx);
    assert k.availQ != [] ==> m.avail[Slot(dev.idx, 0)] == k.availQ[0];
  }

  lemma Pending(m: Mem, dev: Device, bufs: map<nat, Block>, busy: set<nat>, k: Track)
    requires Ok(m, dev, bufs, busy, k)
    ensures m.seenIdx == m.usedIdx <==> k.usedQ == []
  {
    IdxDiffer(m.seenIdx, |k.usedQ|, m.usedIdx);
  }

  lemma NoneCompleted(m: Mem, dev: Device, bufs: map<nat, Block>, busy: set<nat>, k: Track)
    requires Ok(m, dev, bufs, busy, k) && k.usedQ == []
    ensures forall h :: h in k.reqs ==> SeenIf(k.reqs[h]) == k.reqs[h]
  {
    forall h | h in k.reqs ensures !k.reqs[h].phase.Completed? {
      assert k.reqs[h].phase.Completed? ==> h in k.usedQ;
    }
  }

  lemma MovedFormatted(reqs: map<nat, Req>, desc: seq<Desc>, info: seq<Info>, ops: seq<Op>, h: nat, phase: Phase)
    requires AllFormatted(reqs, desc, info, ops) && h in reqs
    requires (phase.Completed? || phase.Seen?) == (reqs[h].phase.Completed? || reqs[h].phase.Seen?)
    ensures AllFormatted(Moved(reqs, h, phase), desc, info, ops)
  {
    assert Formatted(reqs[h], desc, info, ops);
  }

  lemma MovedPartition(free: seq<bool>, owner: map<nat, nat>, reqs: map<nat, Req>, h: nat, phase: Phase)
    requires Partitioned(free, owner, reqs) && h in reqs
    ensures Partitioned(free, owner, Moved(reqs, h, phase))
  {
    hide FreeOk;
    var reqs' := Moved(reqs, h, phase);
    forall x, i: nat | x in reqs' && InChain(reqs'[x], i) ensures i in owner && owner[i] == x {
      assert InChain(reqs[x], i);
    }
  }

  lemma MovedBuffers(reqs: map<nat, Req>, of: map<nat, nat>, busy: set<nat>, h: nat, phase: Phase)
    requires BuffersOk(reqs, of, busy) && h in reqs && phase.Seen? == reqs[h].phase.Seen?
    ensures BuffersOk(Moved(reqs, h, phase), of, busy)
  {
  }

  lemma MovedBacked(reqs: map<nat, Req>, store: seq<Block>, bufs: map<nat, Block>, h: nat, phase: Phase)
    requires Backed(reqs, store, bufs) && h in reqs
    ensures Backed(Moved(reqs, h, phase), store, bufs)
  {
  }

  lemma MovedElsewhere(ring: seq<nat>, from: nat, q: seq<nat>, reqs: map<nat, Req>, phase: Phase, h: nat, next: Phase)
    requires InRing(ring, from, q, reqs, phase) && h in reqs && reqs[h].phase != phase && next != phase
    ensures InRing(ring, from, q, Moved(reqs, h, next), phase)
  {
    Kept(ring, from, q, reqs, Moved(reqs, h, next), phase);
  }

  lemma MovedOut(ring: seq<nat>, from: nat, q: seq<nat>, reqs: map<nat, Req>, phase: Phase, next: Phase)
    requires InRing(ring, from, q, reqs, phase) && |q| > 0 && from < U16 && next != phase
    ensures q[0] in reqs && reqs[q[0]].phase == phase && InRing(ring, Succ(from), q[1..], Moved(reqs, q[0], next), phase)
  {
    Popped(ring, from, q, reqs, Moved(reqs, q[0], next), phase, Succ(from));
  }

  lemma IdxNext(from: nat, n: nat, idx: nat)
    requires IdxOk(from, n, idx) && n > 0
    ensures IdxOk(Succ(from), n - 1, idx)
  {
    if from + 1 < U16 {
      assert Succ(from) == from + 1;
    } else {
      assert Succ(from) == 0;
      IdxWrap(n - 1);
    }
  }

  lemma IdxWrap(n: nat)
    ensures (U16 + n) % U16 == n % U16
  {
  }

  lemma Taken(m: Mem, dev: Device, bufs: map<nat, Block>, busy: set<nat>, k: Track)
    requires Ok(m, dev, bufs, busy, k) && k.availQ != []
    ensures k.availQ[0] in k.reqs
    ensures Ok(m, dev.(idx := Succ(dev.idx)), bufs, busy, Track(Moved(k.reqs, k.availQ[0], Working), k.owner, k.of, k.availQ[1..], k.usedQ))
  {
    assert dev.idx < U16;
    hide Partitioned, AllFormatted, InRing, BuffersOk, Backed, IdxOk, Moved, Succ;
    var h := k.availQ[0];
    MovedOut(m.avail, dev.idx, k.availQ, k.reqs, Queued, Working);
    MovedPartition(m.free, k.owner, k.reqs, h, Working);
    MovedFormatted(k.reqs, m.desc, m.info, m.ops, h, Working);
    MovedBuffers(k.reqs, k.of, busy, h, Working);
    MovedBacked(k.reqs, dev.store, bufs, h, Working);
    MovedElsewhere(m.used, m.seenIdx, k.usedQ, k.reqs, Completed, h, Working);
    IdxNext(dev.idx, |k.availQ|, m.availIdx);
  }

  lemma ChainOf(m: Mem, dev: Device, bufs: map<nat, Block>, busy: set<nat>, k: Track, h: nat)
    requires Ok(m, dev, bufs, busy, k) && h in k.reqs
    ensures Formatted(k.reqs[h], m.desc, m.info, m.ops) && k.reqs[h].i0 == h && k.reqs[h].blockno < |dev.store| && k.reqs[h].b in bufs
    ensures |m.free| == NUM && !m.free[k.reqs[h].i0] && !m.free[k.reqs[h].i1] && !m.free[k.reqs[h].i2]
  {
    var r := k.reqs[h];
    ChainInUse(m.free, k.owner, k.reqs, h);
    assert InChain(r, r.i0) && InChain(r, r.i1) && InChain(r, r.i2);
  }

  lemma FirstUsed(m: Mem, dev: Device, bufs: map<nat, Block>, busy: set<nat>, k: Track)
    requires Ok(m, dev, bufs, busy, k) && k.usedQ != [] && SizesOk(m)
    ensures var h := k.usedQ[0];
            && m.used[m.seenIdx % NUM] == h < NUM && h in k.reqs && k.reqs[h].phase.Completed? && m.info[h] == Info(Some(k.reqs[h].b), 0)
  {
    assert m.used[Slot(m.seenIdx, 0)] == k.usedQ[0];
    ChainOf(m, dev, bufs, busy, k, k.usedQ[0]);
  }

  lemma DoneFormatted(reqs: map<nat, Req>, owner: map<nat, nat>, free: seq<bool>, desc: seq<Desc>, info: seq<Info>, ops: seq<Op>, h: nat)
    requires AllFormatted(reqs, desc, info, ops) && Partitioned(free, owner, reqs) && h in reqs && h < NUM
    ensures AllFormatted(Moved(reqs, h, Completed), desc, info[h := info[h].(status := 0)], ops)
  {
    var reqs', info' := Moved(reqs, h, Completed), info[h := info[h].(status := 0)];
    forall x | x in reqs' ensures Formatted(reqs'[x], desc, info', ops) {
      assert Formatted(reqs[x], desc, info, ops);
      assert reqs[x].i0 == x;
    }
  }

  lemma DonePushed(used: seq<nat>, seenIdx: nat, usedQ: seq<nat>, usedIdx: nat, free: seq<bool>, owner: map<nat, nat>, reqs: map<nat, Req>, h: nat)
    requires InRing(used, seenIdx, usedQ, reqs, Completed) && IdxOk(seenIdx, |usedQ|, usedIdx)
    requires Partitioned(free, owner, reqs) && h in reqs && reqs[h].phase.Working?
    ensures InRing(used[usedIdx % NUM := h], seenIdx, usedQ + [h], Moved(reqs, h, Completed), Completed)
    ensures IdxOk(seenIdx, |usedQ + [h]|, Succ(usedIdx))
  {
    HeadInUse(free, owner, reqs, h);
    forall j | 0 <= j < |usedQ| ensures usedQ[j] < NUM && usedQ[j] != h {
      HeadInUse(free, owner, reqs, usedQ[j]);
    }
    RingHasRoom(usedQ, h);
    IdxPush(seenIdx, |usedQ|, |usedQ + [h]|, usedIdx);
    hide IdxOk, Succ, Slot;
    Pushed(used, seenIdx, usedQ, reqs, Moved(reqs, h, Completed), Completed, usedIdx % NUM, h);
  }

  /** The device has carried out request h. */
  lemma Done(m: Mem, dev: Device, bufs: map<nat, Block>, busy: set<nat>, k: Track, h: nat)
    requires Ok(m, dev, bufs, busy, k) && SizesOk(m) && h in k.reqs && k.reqs[h].phase.Working? && h < NUM
    requires k.reqs[h].blockno < |dev.store| && k.reqs[h].b in bufs
    ensures var r := k.reqs[h];
            var dev' := if r.write then dev.(store := dev.store[r.blockno := bufs[r.b]]) else dev;
            var bufs' := if r.write then bufs else bufs[r.b := dev.store[r.blockno]];
            Ok(m.(info := m.info[h := m.info[h].(status := 0)], used := m.used[m.usedIdx % NUM := h], usedIdx := Succ(m.usedIdx)),
               dev', bufs', busy, Track(Moved(k.reqs, h, Completed), k.owner, k.of, k.availQ, k.usedQ + [h]))
  {
    hide Partitioned, AllFormatted, InRing, BuffersOk, IdxOk, Backed, Moved, Succ;
    DoneBacked(k.reqs, dev.store, bufs, h);
    MovedPartition(m.free, k.owner, k.reqs, h, Completed);
    DoneFormatted(k.reqs, k.owner, m.free, m.desc, m.info, m.ops, h);
    DonePushed(m.used, m.seenIdx, k.usedQ, m.usedIdx, m.free, k.owner, k.reqs, h);
    MovedElsewhere(m.avail, dev.idx, k.availQ, k.reqs, Queued, h, Completed);
    MovedBuffers(k.reqs, k.of, busy, h, Completed);
  }

  lemma DoneBacked(reqs: map<nat, Req>, store: seq<Block>, bufs: map<nat, Block>, h: nat)
    requires Backed(reqs, store, bufs) && h in reqs && reqs[h].blockno < |store| && reqs[h].b in bufs
    ensures Backed(Moved(reqs, h, Completed), store[reqs[h].blockno := bufs[reqs[h].b]], bufs)
    ensures Backed(Moved(reqs, h, Completed), store, bufs[reqs[h].b := store[reqs[h].blockno]])
  {
  }

  lemma SeenBuffers(reqs: map<nat, Req>, of: map<nat, nat>, busy: set<nat>, h: nat)
    requires BuffersOk(reqs, of, busy) && h in reqs
    ensures BuffersOk(Moved(reqs, h, Seen), of, busy - {reqs[h].b})
  {
  }

  /** The interrupt handler has seen the first request of the used ring. */
  lemma Noticed(m: Mem, dev: Device, bufs: map<nat, Block>, busy: set<nat>, k: Track)
    requires Ok(m, dev, bufs, busy, k) && k.usedQ != []
    ensures k.usedQ[0] in k.reqs
    ensures Ok(m.(seenIdx := Succ(m.seenIdx)), dev, bufs, busy - {k.reqs[k.usedQ[0]].b},
               Track(Moved(k.reqs, k.usedQ[0], Seen), k.owner, k.of, k.availQ, k.usedQ[1..]))
  {
    assert m.seenIdx < U16;
    hide Partitioned, AllFormatted, InRing, BuffersOk, Backed, IdxOk, Moved, Succ;
    var h := k.usedQ[0];
    MovedOut(m.used, m.seenIdx, k.usedQ, k.reqs, Completed, Seen);
    MovedPartition(m.free, k.owner, k.reqs, h, Seen);
    MovedFormatted(k.reqs, m.desc, m.info, m.ops, h, Seen);
    SeenBuffers(k.reqs, k.of, busy, h);
    MovedBacked(k.reqs, dev.store, bufs, h, Seen);
    MovedElsewhere(m.avail, dev.idx, k.availQ, k.reqs, Queued, h, Seen);
    IdxNext(m.seenIdx, |k.usedQ|, m.usedIdx);
  }

  /** The descriptors of request h are free again. */
  lemma Retired(m: Mem, dev: Device, bufs: map<nat, Block>, busy: set<nat>, k: Track, h: nat)
    requires Ok(m, dev, bufs, busy, k) && SizesOk(m) && h in k.reqs && k.reqs[h].b !in busy && Formatted(k.reqs[h], m.desc, m.info, m.ops)
    requires k.reqs[h].i0 == h
    ensures var r := k.reqs[h];
            var m' := m.(info := m.info[h := m.info[h].(b := None)]);
            && Ok(Released(Released(Released(m', r.i0), r.i1), r.i2), dev, bufs, busy,
                  Track(k.reqs - {h}, k.owner - {r.i0, r.i1, r.i2}, k.of - {r.b}, k.availQ, k.usedQ))
  {
    var r := k.reqs[h];
    var m' := m.(info := m.info[h := m.info[h].(b := None)]);
    var m3 := Released(Released(Released(m', r.i0), r.i1), r.i2);
    RetiredBuffers(k.reqs, k.of, busy, h);
    RetiredPartition(m.free, k.owner, k.reqs, h, m3.free);
    RetiredFormatted(m.free, k.owner, k.reqs, m.desc, m.info, m.ops, h, m3.desc, m3.info);
    hide Partitioned, AllFormatted, InRing, BuffersOk, IdxOk, Formatted, Released;
    RetiredRing(m.avail, dev.idx, k.availQ, k.reqs, Queued, h);
    RetiredRing(m.used, m.seenIdx, k.usedQ, k.reqs, Completed, h);
  }

  lemma RetiredBuffers(reqs: map<nat, Req>, of: map<nat, nat>, busy: set<nat>, h: nat)
    requires BuffersOk(reqs, of, busy) && h in reqs && reqs[h].b !in busy
    ensures BuffersOk(reqs - {h}, of - {reqs[h].b}, busy) && reqs[h].phase.Seen?
  {
  }

  lemma RetiredPartition(free: seq<bool>, owner: map<nat, nat>, reqs: map<nat, Req>, h: nat, free': seq<bool>)
    requires Partitioned(free, owner, reqs) && h in reqs && reqs[h].i0 < NUM && reqs[h].i1 < NUM && reqs[h].i2 < NUM
    requires var r := reqs[h]; free' == free[r.i0 := true][r.i1 := true][r.i2 := true]
    ensures Partitioned(free', owner - {reqs[h].i0, reqs[h].i1, reqs[h].i2}, reqs - {h})
  {
    var r := reqs[h];
    RetiredChains(owner, reqs, h);
    hide ChainsOk;
  }

  lemma RetiredChains(owner: map<nat, nat>, reqs: map<nat, Req>, h: nat)
    requires ChainsOk(owner, reqs) && h in reqs
    ensures ChainsOk(owner - {reqs[h].i0, reqs[h].i1, reqs[h].i2}, reqs - {h})
  {
    var r := reqs[h];
    var owner', reqs' := owner - {r.i0, r.i1, r.i2}, reqs - {h};
    assert InChain(r, r.i0) && InChain(r, r.i1) && InChain(r, r.i2);
    forall x, i: nat | x in reqs' && InChain(reqs'[x], i) ensures i in owner' && owner'[i] == x {
      assert InChain(reqs[x], i);
      assert owner[i] == x && owner[r.i0] == owner[r.i1] == owner[r.i2] == h;
    }
  }

  lemma RetiredFormatted(free: seq<bool>, owner: map<nat, nat>, reqs: map<nat, Req>, desc: seq<Desc>, info: seq<Info>, ops: seq<Op>, h: nat,
                         desc': seq<Desc>, info': seq<Info>)
    requires Partitioned(free, owner, reqs) && AllFormatted(reqs, desc, info, ops) && h in reqs && |desc'| == |info'| == NUM
    requires forall i: nat :: i < NUM && !InChain(reqs[h], i) ==> desc'[i] == desc[i] && info'[i] == info[i]
    ensures AllFormatted(reqs - {h}, desc', info', ops)
  {
    hide Formatted;
    forall x | x in reqs && x != h ensures Formatted(reqs[x], desc', info', ops) {
      var q := reqs[x];
      ChainInUse(free, owner, reqs, x);
      assert InChain(q, q.i0) && InChain(q, q.i1) && InChain(q, q.i2);
      FormattedStays(q, desc, info, ops, desc', info', ops);
    }
  }

  lemma RetiredRing(ring: seq<nat>, from: nat, q: seq<nat>, reqs: map<nat, Req>, phase: Phase, h: nat)
    requires InRing(ring, from, q, reqs, phase) && h in reqs && reqs[h].phase != phase
    ensures InRing(ring, from, q, reqs - {h}, phase)
  {
    Kept(ring, from, q, reqs, reqs - {h}, phase);
  }

  predicate SizesOk(m: Mem) {
    |m.free| == |m.desc| == |m.info| == |m.ops| == |m.avail| == |m.used| == NUM
  }

  function Released(m: Mem, i: nat): Mem
    requires i < |m.free| && i < |m.desc|
  {
    m.(free := m.free[i := true], desc := m.desc[i := EMPTY])
  }

  lemma Sizes(m: Mem, dev: Device, bufs: map<nat, Block>, busy: set<nat>, k: Track)
    requires Ok(m, dev, bufs, busy, k)
    ensures SizesOk(m)
  {
  }

  /** Descriptors that are free may be overwritten. */
  lemma Unsubmitted(m: Mem, desc: seq<Desc>, dev: Device, bufs: map<nat, Block>, busy: set<nat>, k: Track)
    requires Ok(m, dev, bufs, busy, k) && SizesOk(m) && |desc| == NUM && forall i :: 0 <= i < NUM && !m.free[i] ==> desc[i] == m.desc[i]
    ensures Ok(m.(desc := desc), dev, bufs, busy, k)
  {
    hide Partitioned, AllFormatted, InRing, BuffersOk, Backed, IdxOk;
    StillFormatted(k.reqs, k.owner, m.free, m.desc, desc, m.info, m.ops);
  }

  /** The new request is r, formatted in f. */
  lemma Submitted(m: Mem, f: Mem, dev: Device, bufs: map<nat, Block>, busy: set<nat>, k: Track, r: Req)
    requires Ok(m, dev, bufs, busy, k) && SizesOk(m) && r.i0 < NUM && r.i1 < NUM && r.i2 < NUM && m.free[r.i0] && m.free[r.i1] && m.free[r.i2]
    requires f == m.(free := m.free[r.i0 := false][r.i1 := false][r.i2 := false], desc := f.desc, info := f.info, ops := f.ops)
    requires Formatted(r, f.desc, f.info, f.ops) && r.phase.Queued? && r.b !in k.of && r.b in bufs && r.blockno < |dev.store|
    requires forall i :: 0 <= i < NUM && !InChain(r, i) ==> f.desc[i] == m.desc[i] && f.info[i] == m.info[i] && f.ops[i] == m.ops[i]
    ensures r.i0 !in k.reqs
    ensures Ok(f.(avail := f.avail[f.availIdx % NUM := r.i0], availIdx := Succ(f.availIdx)), dev, bufs, busy + {r.b},
               Track(With(k.reqs, r), Claiming(k.owner, r), With1(k.of, r.b, r.i0), k.availQ + [r.i0], k.usedQ))
  {
    hide Partitioned, AllFormatted, InRing, BuffersOk, Backed, Formatted, IdxOk, InChain, Claiming, With, With1, Succ;
    HeadInUse(m.free, k.owner, k.reqs, r.i0);
    Claimed(m.free, k.owner, k.reqs, f.free, r);
    FormattedToo(m.free, k.owner, k.reqs, m.desc, m.info, m.ops, f.desc, f.info, f.ops, r);
    Enqueued(m.avail, dev.idx, k.availQ, m.availIdx, m.free, k.owner, k.reqs, r);
    KeptNew(m.used, m.seenIdx, k.usedQ, k.reqs, Completed, r);
    NewBuffer(k.reqs, k.of, busy, r);
    NewBacked(k.reqs, dev.store, bufs, r);
  }

  ghost predicate AllFormatted(reqs: map<nat, Req>, desc: seq<Desc>, info: seq<Info>, ops: seq<Op>) {
    && |desc| == |info| == |ops| == NUM
    && forall h :: h in reqs ==> Formatted(reqs[h], desc, info, ops)
  }

  /** Each buffer under way belongs to one request, and is busy until that is seen. */
  ghost predicate BuffersOk(reqs: map<nat, Req>, of: map<nat, nat>, busy: set<nat>) {
    && (forall h :: h in reqs ==> reqs[h].b in of && of[reqs[h].b] == h)
    && (forall b :: b in of ==> of[b] in reqs && reqs[of[b]].b == b)
    && (forall b :: b in busy <==> b in of && !reqs[of[b]].phase.Seen?)
  }

  ghost predicate Backed(reqs: map<nat, Req>, store: seq<Block>, bufs: map<nat, Block>) {
    forall h :: h in reqs ==> reqs[h].blockno < |store| && reqs[h].b in bufs
  }

  lemma StillFormatted(reqs: map<nat, Req>, owner: map<nat, nat>, free: seq<bool>, desc: seq<Desc>, desc': seq<Desc>, info: seq<Info>, ops: seq<Op>)
    requires Partitioned(free, owner, reqs) && AllFormatted(reqs, desc, info, ops) && |desc'| == NUM
    requires forall i :: 0 <= i < NUM && !free[i] ==> desc'[i] == desc[i]
    ensures AllFormatted(reqs, desc', info, ops)
  {
    assert |free| == |desc| == |info| == |ops| == NUM;
    hide Formatted, Partitioned;
    forall h | h in reqs ensures Formatted(reqs[h], desc', info, ops) {
      var r := reqs[h];
      ChainInUse(free, owner, reqs, h);
      assert InChain(r, r.i0) && InChain(r, r.i1) && InChain(r, r.i2);
      FormattedStays(r, desc, info, ops, desc', info, ops);
    }
  }

  /** The head of a request is a descriptor in use. */
  lemma HeadInUse(free: seq<bool>, owner: map<nat, nat>, reqs: map<nat, Req>, h: nat)
    requires Partitioned(free, owner, reqs)
    ensures h in reqs ==> h < NUM && !free[h]
  {
    if h in reqs {
      assert reqs[h].i0 == h && InChain(reqs[h], h);
      assert h in owner;
    }
  }

  lemma Claimed(free: seq<bool>, owner: map<nat, nat>, reqs: map<nat, Req>, free': seq<bool>, r: Req)
    requires Partitioned(free, owner, reqs) && r.i0 < NUM && r.i1 < NUM && r.i2 < NUM && r.i0 !in reqs
    requires free[r.i0] && free[r.i1] && free[r.i2] && free' == free[r.i0 := false][r.i1 := false][r.i2 := false]
    ensures Partitioned(free', Claiming(owner, r), With(reqs, r))
  {
    hide ChainsOk;
    ClaimedChains(owner, reqs, r);
  }

  lemma ClaimedChains(owner: map<nat, nat>, reqs: map<nat, Req>, r: Req)
    requires ChainsOk(owner, reqs) && r.i0 !in reqs && r.i0 !in owner && r.i1 !in owner && r.i2 !in owner
    ensures ChainsOk(Claiming(owner, r), With(reqs, r))
  {
    var owner', reqs' := Claiming(owner, r), With(reqs, r);
    forall h, i: nat | h in reqs' && InChain(reqs'[h], i) ensures i in owner' && owner'[i] == h {
      if h != r.i0 {
        assert InChain(reqs[h], i);
      }
    }
  }

  lemma FormattedStays(q: Req, desc: seq<Desc>, info: seq<Info>, ops: seq<Op>, desc': seq<Desc>, info': seq<Info>, ops': seq<Op>)
    requires Formatted(q, desc, info, ops) && |desc'| == |info'| == |ops'| == NUM
    requires desc'[q.i0] == desc[q.i0] && desc'[q.i1] == desc[q.i1] && desc'[q.i2] == desc[q.i2] && info'[q.i0] == info[q.i0] && ops'[q.i0] == ops[q.i0]
    ensures Formatted(q, desc', info', ops')
  {
  }

  /** The descriptors of a request are in use. */
  lemma ChainInUse(free: seq<bool>, owner: map<nat, nat>, reqs: map<nat, Req>, h: nat)
    requires Partitioned(free, owner, reqs) && h in reqs
    ensures forall i: nat :: InChain(reqs[h], i) ==> i < NUM && !free[i]
  {
    forall i: nat | InChain(reqs[h], i) ensures i < NUM && !free[i] {
      assert i in owner;
    }
  }

  lemma FormattedToo(free: seq<bool>, owner: map<nat, nat>, reqs: map<nat, Req>, desc: seq<Desc>, info: seq<Info>, ops: seq<Op>,
                     desc': seq<Desc>, info': seq<Info>, ops': seq<Op>, r: Req)
    requires Partitioned(free, owner, reqs) && AllFormatted(reqs, desc, info, ops) && Formatted(r, desc', info', ops')
    requires free[r.i0] && free[r.i1] && free[r.i2] && r.i0 !in reqs
    requires forall i :: 0 <= i < NUM && !InChain(r, i) ==> desc'[i] == desc[i] && info'[i] == info[i] && ops'[i] == ops[i]
    ensures AllFormatted(With(reqs, r), desc', info', ops')
  {
    assert |desc'| == |info'| == |ops'| == NUM && |free| == NUM;
    hide Formatted, Partitioned;
    forall h | h in reqs ensures Formatted(reqs[h], desc', info', ops') {
      var q := reqs[h];
      ChainInUse(free, owner, reqs, h);
      assert InChain(q, q.i0) && InChain(q, q.i1) && InChain(q, q.i2);
      FormattedStays(q, desc, info, ops, desc', info', ops');
    }
  }

  lemma Enqueued(avail: seq<nat>, devIdx: nat, availQ: seq<nat>, availIdx: nat, free: seq<bool>, owner: map<nat, nat>, reqs: map<nat, Req>, r: Req)
    requires InRing(avail, devIdx, availQ, reqs, Queued) && IdxOk(devIdx, |availQ|, availIdx)
    requires Partitioned(free, owner, reqs) && r.i0 < NUM && free[r.i0] && r.phase.Queued?
    ensures InRing(avail[availIdx % NUM := r.i0], devIdx, availQ + [r.i0], With(reqs, r), Queued)
    ensures IdxOk(devIdx, |availQ + [r.i0]|, Succ(availIdx))
  {
    forall j | 0 <= j < |availQ| ensures availQ[j] < NUM && availQ[j] != r.i0 {
      HeadInUse(free, owner, reqs, availQ[j]);
    }
    RingHasRoom(availQ, r.i0);
    IdxPush(devIdx, |availQ|, |availQ + [r.i0]|, availIdx);
    hide IdxOk, Succ, Slot;
    Pushed(avail, devIdx, availQ, reqs, With(reqs, r), Queued, availIdx % NUM, r.i0);
  }

  lemma NewBuffer(reqs: map<nat, Req>, of: map<nat, nat>, busy: set<nat>, r: Req)
    requires BuffersOk(reqs, of, busy) && r.b !in of && r.i0 !in reqs && !r.phase.Seen?
    ensures BuffersOk(With(reqs, r), With1(of, r.b, r.i0), busy + {r.b})
  {
  }

  lemma NewBacked(reqs: map<nat, Req>, store: seq<Block>, bufs: map<nat, Block>, r: Req)
    requires Backed(reqs, store, bufs) && r.blockno < |store| && r.b in bufs
    ensures Backed(With(reqs, r), store, bufs)
  {
  }

  lemma KeptNew(ring: seq<nat>, from: nat, q: seq<nat>, reqs: map<nat, Req>, phase: Phase, r: Req)
    requires InRing(ring, from, q, reqs, phase) && r.i0 !in reqs && r.phase != phase
    ensures InRing(ring, from, q, With(reqs, r), phase)
  {
    Kept(ring, from, q, reqs, With(reqs, r), phase);
  }
}
