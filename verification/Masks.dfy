/**
 Masked address comparison on bare 32-bit words. `last` is a power of two less one when
 `last & (last + 1) == 0`; a base is aligned when `base & last == 0`.
 */
module Masks {

  lemma SmallIsLow(t: bv32, last: bv32)
    requires last & (last + 1) == 0 && t <= last
    ensures t & !last == 0
  {
  }

  lemma DisjointSum(x: bv32, t: bv32)
    requires x & t == 0
    ensures x + t == x | t
  {
  }

  lemma PartsDisjoint(base: bv32, t: bv32, last: bv32)
    requires base & last == 0 && t & !last == 0
    ensures base & t == 0
  {
  }

  lemma HighPart(base: bv32, t: bv32, last: bv32)
    requires base & last == 0 && t & !last == 0
    ensures (base | t) & !last == base
  {
  }

  lemma AddedOffset(base: bv32, t: bv32, last: bv32)
    requires last & (last + 1) == 0 && base & last == 0 && t <= last
    ensures (base + t) & !last == base
  {
    SmallIsLow(t, last);
    PartsDisjoint(base, t, last);
    DisjointSum(base, t);
    HighPart(base, t, last);
  }

  lemma SumBack(base: bv32, x: bv32)
    ensures base + (x - base) == x
  {
  }

  lemma WithinIsMasked(addr: bv32, base: bv32, last: bv32)
    requires last & (last + 1) == 0 && base & last == 0 && addr - base <= last
    ensures addr & !last == base
  {
    AddedOffset(base, addr - base, last);
    SumBack(base, addr);
  }

  lemma MaskedIsWithin(addr: bv32, base: bv32, last: bv32)
    requires addr & !last == base
    ensures base <= addr && addr - base <= last
  {
  }

  /** For any power-of-two size and aligned base: the masked comparison is the range test. */
  lemma MaskIsRange(addr: bv32, base: bv32, last: bv32)
    requires last & (last + 1) == 0 && base & last == 0
    ensures addr & !last == base <==> base <= addr && addr - base <= last
  {
    if addr & !last == base {
      MaskedIsWithin(addr, base, last);
    }
    if addr - base <= last {
      WithinIsMasked(addr, base, last);
    }
  }

  lemma SplitSum(addr: bv32, last: bv32)
    ensures (addr & !last) + (addr & last) == addr
  {
  }

  predicate Masked(addr: bv32, mask: bv32, base: bv32) {
    addr & mask == base
  }

  predicate Covers(start: bv32, size: bv32, addr: bv32) {
    start <= addr && addr < start + size
  }

  lemma RamRange(addr: bv32)
    ensures Masked(addr, 0xFFFE_0000, 0x0010_0000) <==> Covers(0x0010_0000, 0x2_0000, addr)
  {
    MaskIsRange(addr, 0x0010_0000, 0x1_FFFF);
  }

  lemma UartRange(addr: bv32)
    ensures Masked(addr, 0xFFFF_F000, 0x8000_0000) <==> Covers(0x8000_0000, 0x1000, addr)
  {
    MaskIsRange(addr, 0x8000_0000, 0xFFF);
  }

  lemma GpioRange(addr: bv32)
    ensures Masked(addr, 0xFFFF_F000, 0x8000_1000) <==> Covers(0x8000_1000, 0x1000, addr)
  {
    MaskIsRange(addr, 0x8000_1000, 0xFFF);
  }

  lemma PwmRange(addr: bv32)
    ensures Masked(addr, 0xFFFF_F000, 0x8000_2000) <==> Covers(0x8000_2000, 0x1000, addr)
  {
    MaskIsRange(addr, 0x8000_2000, 0xFFF);
  }

  lemma TimerRange(addr: bv32)
    ensures Masked(addr, 0xFFFF_F000, 0x8000_3000) <==> Covers(0x8000_3000, 0x1000, addr)
  {
    MaskIsRange(addr, 0x8000_3000, 0xFFF);
  }

  lemma PidRange(addr: bv32)
    ensures Masked(addr, 0xFFFF_FC00, 0x8000_4000) <==> Covers(0x8000_4000, 0x400, addr)
  {
    MaskIsRange(addr, 0x8000_4000, 0x3FF);
  }

  lemma QuadRange(addr: bv32)
    ensures Masked(addr, 0xFFFF_FC00, 0x8000_4400) <==> Covers(0x8000_4400, 0x400, addr)
  {
    MaskIsRange(addr, 0x8000_4400, 0x3FF);
  }

  /** No two ranges share an address. */
  lemma SystemApart(addr: bv32)
    ensures Covers(0x8000_0000, 0x1000, addr) ==> !Covers(0x0010_0000, 0x2_0000, addr)
    ensures Covers(0x8000_1000, 0x1000, addr) ==>
              !Covers(0x0010_0000, 0x2_0000, addr) && !Covers(0x8000_0000, 0x1000, addr)
    ensures Covers(0x8000_2000, 0x1000, addr) ==>
              && !Covers(0x0010_0000, 0x2_0000, addr) && !Covers(0x8000_0000, 0x1000, addr)
              && !Covers(0x8000_1000, 0x1000, addr)
    ensures Covers(0x8000_3000, 0x1000, addr) ==>
              && !Covers(0x0010_0000, 0x2_0000, addr) && !Covers(0x8000_0000, 0x1000, addr)
              && !Covers(0x8000_1000, 0x1000, addr) && !Covers(0x8000_2000, 0x1000, addr)
    ensures Covers(0x8000_4000, 0x400, addr) ==>
              && !Covers(0x0010_0000, 0x2_0000, addr) && !Covers(0x8000_0000, 0x1000, addr)
              && !Covers(0x8000_1000, 0x1000, addr) && !Covers(0x8000_2000, 0x1000, addr)
              && !Covers(0x8000_3000, 0x1000, addr)
    ensures Covers(0x8000_4400, 0x400, addr) ==>
              && !Covers(0x0010_0000, 0x2_0000, addr) && !Covers(0x8000_0000, 0x1000, addr)
              && !Covers(0x8000_1000, 0x1000, addr) && !Covers(0x8000_2000, 0x1000, addr)
              && !Covers(0x8000_3000, 0x1000, addr) && !Covers(0x8000_4000, 0x400, addr)
  {
  }
}
