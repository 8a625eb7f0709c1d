/** The address and page-table-entry macros of kernel/riscv.h, on 64-bit words. */
module Riscv {

  const PGSIZE: bv64 := 4096
  const MAXVA: bv64 := 0x40_0000_0000

  const PTE_V: bv64 := 0x1
  const PTE_COW: bv64 := 0x100

  function PgRoundUp(sz: bv64): bv64 {
    (sz + PGSIZE - 1) & !(PGSIZE - 1)
  }

  function PgRoundDown(a: bv64): bv64 {
    a & !(PGSIZE - 1)
  }

  function Pa2Pte(pa: bv64): bv64 {
    (pa >> 12) << 10
  }

  function Pte2Pa(pte: bv64): bv64 {
    (pte >> 10) << 12
  }

  function PteFlags(pte: bv64): bv64 {
    pte & 0x3FF
  }

  /** The index into the table of the given level. */
  function Px(level: nat, va: bv64): bv64
    requires level < 3
  {
    if level == 0 then (va >> 12) & 0x1FF else if level == 1 then (va >> 21) & 0x1FF else (va >> 30) & 0x1FF
  }

  /** An entry gives back the page address and the flags it was made from: section
      4.4 (Sv39) of the RISC-V Privileged Architecture manual has 44 bits of page
      number above ten bits of flags. */
  lemma EntryRoundTrip(pa: bv64, flags: bv64)
    requires pa & 0xFFF == 0 && pa < 0x100_0000_0000_0000 && flags <= 0x3FF
    ensures Pte2Pa(Pa2Pte(pa) | flags) == pa && PteFlags(Pa2Pte(pa) | flags) == flags
  {
  }

  /** Setting and clearing flags leaves the page address alone. */
  lemma FlagsKeepPage(pte: bv64, set_: bv64, clear: bv64)
    requires set_ <= 0x3FF && clear <= 0x3FF
    ensures Pte2Pa((pte & !clear) | set_) == Pte2Pa(pte)
    ensures PteFlags((pte & !clear) | set_) == (PteFlags(pte) & !clear) | set_
  {
  }

  /** The page address put together again from the indices. */
  lemma PxRebuild(a: bv64)
    requires a < MAXVA
    ensures PgRoundDown(a) == (Px(2, a) << 30) | (Px(1, a) << 21) | (Px(0, a) << 12)
  {
  }

  lemma PxOfPage(level: nat, a: bv64)
    requires level < 3
    ensures Px(level, PgRoundDown(a)) == Px(level, a)
  {
  }

  /** Below MAXVA the three indices name the page. */
  lemma PxInjective(a: bv64, b: bv64)
    requires a < MAXVA && b < MAXVA
    ensures Px(2, a) == Px(2, b) && Px(1, a) == Px(1, b) && Px(0, a) == Px(0, b) <==> PgRoundDown(a) == PgRoundDown(b)
  {
    PxRebuild(a);
    PxRebuild(b);
    PxOfPage(0, a);
    PxOfPage(1, a);
    PxOfPage(2, a);
    PxOfPage(0, b);
    PxOfPage(1, b);
    PxOfPage(2, b);
    hide PgRoundDown, Px;
  }

  lemma PxInRange(level: nat, va: bv64)
    requires level < 3
    ensures Px(level, va) < 512 && (va < MAXVA ==> Px(2, va) < 256)
  {
  }

  lemma RoundsDown(a: bv64)
    ensures PgRoundDown(a) <= a && PgRoundDown(a) & 0xFFF == 0 && PgRoundDown(a) | (a & 0xFFF) == a
  {
  }

  /** A page boundary stays; any other address goes to the next boundary. */
  lemma RoundsUp(a: bv64)
    requires a <= 0xFFFF_FFFF_FFFF_F000
    ensures PgRoundUp(a) == if a & 0xFFF == 0 then a else PgRoundDown(a) + PGSIZE
  {
  }
}
