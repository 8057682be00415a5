/** The older memory bus the CPU is wired to: work RAM with its echo, the
    zero-page RAM, and everything else reading 0 and ignoring writes. The
    two holes no arm covers (0xFEA0-0xFEFF and 0xFFFF) panic. */
module Mmu {
  import opened Wrappers
  import opened Bits

  const BIOS_SZ: nat := 0x100
  const WRAM_SZ: nat := 0x8000
  const ZRAM_SZ: nat := 0x7F

  type Bios = s: seq<bv8> | |s| == BIOS_SZ witness seq(BIOS_SZ, _ => 0)
  type Wram = s: seq<bv8> | |s| == WRAM_SZ witness seq(WRAM_SZ, _ => 0)
  type Zram = s: seq<bv8> | |s| == ZRAM_SZ witness seq(ZRAM_SZ, _ => 0)

  /** `bios` is allocated but no access reaches it. */
  datatype Mmu = Mmu(bios: Bios, wram: Wram, zram: Zram)

  datatype BusError =
    | Unmapped(addr: u16)         // no arm of the address match
    | AddressOverflow(addr: u16)  // `addr + 1` overflows in a 16-bit access

  /** Where an address leads: a work-RAM byte, a zero-page byte, a region
      that reads 0 and ignores writes, or nowhere. */
  datatype Target = WramByte(i: nat) | ZramByte(i: nat) | Inert | Hole

  /** The address match shared by `readb` and `writeb`. Work RAM at
      0xC000-0xDFFF and its echo at 0xE000-0xFDFF both use `addr & 0x1FFF`;
      zero-page RAM at 0xFF80-0xFFFE uses `addr & 0x7F`. */
  function Decode(addr: u16): (t: Target)
    ensures t.Hole? <==> 0xFEA0 <= addr <= 0xFEFF || addr == 0xFFFF
    ensures t.WramByte? <==> 0xC000 <= addr <= 0xFDFF
    ensures t.WramByte? ==> t.i == addr % 0x2000 && t.i < WRAM_SZ
    ensures t.ZramByte? <==> 0xFF80 <= addr <= 0xFFFE
    ensures t.ZramByte? ==> t.i == addr - 0xFF80 && t.i < ZRAM_SZ
  {
    Pow2Values();
    if 0x0000 <= addr <= 0x7FFF then Inert       // cartridge ROM
    else if 0x8000 <= addr <= 0x9FFF then Inert  // GPU
    else if 0xA000 <= addr <= 0xBFFF then Inert  // cartridge RAM
    else if 0xC000 <= addr <= 0xDFFF then WramByte(LowBits(addr, 13))
    else if 0xE000 <= addr <= 0xFDFF then WramByte(LowBits(addr, 13))
    else if 0xFE00 <= addr <= 0xFE9F then Inert  // OAM
    else if 0xFF00 <= addr <= 0xFF7F then Inert  // MMIO
    else if 0xFF80 <= addr <= 0xFFFE then ZramByte(LowBits(addr, 7))
    else Hole
  }

  function New(): (m: Mmu)
    ensures forall a: u16 :: ReadB(m, a).Success? ==> ReadB(m, a).value == 0
  {
    Mmu(seq(BIOS_SZ, _ => 0), seq(WRAM_SZ, _ => 0), seq(ZRAM_SZ, _ => 0))
  }

  /** `readb`: fails exactly on the two holes. */
  function ReadB(m: Mmu, addr: u16): (r: Result<bv8, BusError>)
    ensures r.Failure? <==> 0xFEA0 <= addr <= 0xFEFF || addr == 0xFFFF
    ensures Decode(addr).Inert? ==> r == Success(0)
  {
    match Decode(addr)
    case Inert => Success(0)
    case WramByte(i) => Success(m.wram[i])
    case ZramByte(i) => Success(m.zram[i])
    case Hole => Failure(Unmapped(addr))
  }

  /** `writeb`: fails exactly on the two holes. */
  function WriteB(m: Mmu, addr: u16, val: bv8): (r: Result<Mmu, BusError>)
    ensures r.Failure? <==> 0xFEA0 <= addr <= 0xFEFF || addr == 0xFFFF
    ensures Decode(addr).Inert? ==> r == Success(m)
    ensures r.Success? ==> r.value.bios == m.bios
  {
    match Decode(addr)
    case Inert => Success(m)
    case WramByte(i) => Success(m.(wram := m.wram[i := val]))
    case ZramByte(i) => Success(m.(zram := m.zram[i := val]))
    case Hole => Failure(Unmapped(addr))
  }

  /** `readw`: the low byte from `addr`, the high byte from `addr + 1`. */
  function ReadW(m: Mmu, addr: u16): (r: Result<bv16, BusError>)
    ensures r.Success? <==> ReadB(m, addr).Success? && addr < 0xFFFF && ReadB(m, addr + 1).Success?
    ensures r.Success? ==>
              LowByte(r.value) == ReadB(m, addr).value &&
              HighByte(r.value) == ReadB(m, addr + 1).value
  {
    var lo :- ReadB(m, addr);
    // Unreachable: 0xFFFF is a hole, so `readb(addr)` has already failed.
    if addr == 0xFFFF then Failure(AddressOverflow(addr))
    else
      var hi :- ReadB(m, addr + 1);
      WordBytes(Word(lo, hi), lo, hi);
      Success(Word(lo, hi))
  }

  /** `writew`: the low byte to `addr`, then the high byte to `addr + 1`.
      Every address then reads the high byte if it reaches the same storage
      byte as `addr + 1`, else the low byte if it reaches the same one as
      `addr`, else what it read before. */
  function WriteW(m: Mmu, addr: u16, val: bv16): (r: Result<Mmu, BusError>)
    ensures r.Success? <==> !Decode(addr).Hole? && addr < 0xFFFF && !Decode(addr + 1).Hole?
    ensures r.Success? ==> r.value.bios == m.bios
    ensures r.Success? ==>
              forall b: u16 :: ReadB(r.value, b) ==
                if SameByte(addr + 1, b) then Success(HighByte(val))
                else if SameByte(addr, b) then Success(LowByte(val))
                else ReadB(m, b)
  {
    var m1 :- WriteB(m, addr, LowByte(val));
    // Unreachable: 0xFFFF is a hole, so `writeb(addr)` has already failed.
    if addr == 0xFFFF then Failure(AddressOverflow(addr))
    else
      TwoStores(m, addr, LowByte(val), HighByte(val));
      WriteB(m1, addr + 1, HighByte(val))
  }

  /** The effect of a byte store to `a` followed by one to `a + 1`, seen at
      every address. */
  lemma TwoStores(m: Mmu, a: u16, lo: bv8, hi: bv8)
    requires a < 0xFFFF && WriteB(m, a, lo).Success?
    ensures var m1 := WriteB(m, a, lo).value;
            WriteB(m1, a + 1, hi).Success? ==>
              forall b: u16 :: ReadB(WriteB(m1, a + 1, hi).value, b) ==
                if SameByte(a + 1, b) then Success(hi)
                else if SameByte(a, b) then Success(lo)
                else ReadB(m, b)
  {
    var m1 := WriteB(m, a, lo).value;
    if WriteB(m1, a + 1, hi).Success? {
      forall b: u16
        ensures ReadB(WriteB(m1, a + 1, hi).value, b) ==
                  if SameByte(a + 1, b) then Success(hi)
                  else if SameByte(a, b) then Success(lo)
                  else ReadB(m, b)
      {
        ReadAfterWrite(m, a, b, lo);
        ReadAfterWrite(m1, a + 1, b, hi);
      }
    }
  }

  /** Two addresses reach the same storage byte. */
  predicate SameByte(a: u16, b: u16) {
    (Decode(a).WramByte? || Decode(a).ZramByte?) && Decode(a) == Decode(b)
  }

  /** Read after write: the written byte is seen at every address that
      reaches the same storage byte, and every other address reads as
      before. */
  lemma ReadAfterWrite(m: Mmu, a: u16, b: u16, val: bv8)
    requires WriteB(m, a, val).Success?
    ensures ReadB(WriteB(m, a, val).value, b) ==
              if SameByte(a, b) then Success(val) else ReadB(m, b)
  {
  }

  /** Work RAM and its echo: a write anywhere in 0xC000-0xFDFF is read back
      at every address of that range with the same low 13 bits. */
  lemma EchoReadAfterWrite(m: Mmu, a: u16, b: u16, val: bv8)
    requires 0xC000 <= a <= 0xFDFF && 0xC000 <= b <= 0xFDFF
    requires a % 0x2000 == b % 0x2000
    ensures ReadB(WriteB(m, a, val).value, b) == Success(val)
  {
    ReadAfterWrite(m, a, b, val);
  }

  /** Zero-page RAM reads back what was written. */
  lemma ZramReadAfterWrite(m: Mmu, a: u16, val: bv8)
    requires 0xFF80 <= a <= 0xFFFE
    ensures ReadB(WriteB(m, a, val).value, a) == Success(val)
  {
  }

  /** `readw` on two readable bytes composes them little-endian. */
  lemma ReadWOfBytes(m: Mmu, a: u16)
    requires a < 0xFFFF && ReadB(m, a).Success? && ReadB(m, a + 1).Success?
    ensures ReadW(m, a) == Success(Word(ReadB(m, a).value, ReadB(m, a + 1).value))
  {
  }

  /** The two bytes of a word access inside work RAM or zero-page RAM reach
      different storage bytes. */
  lemma NeighboursDistinct(a: u16)
    requires 0xC000 <= a < 0xFDFF || 0xFF80 <= a < 0xFFFE
    ensures !SameByte(a + 1, a) && !SameByte(a, a + 1)
  {
    if a < 0xFDFF {
      ModSuccessor(a, 0x2000);
    }
  }

  /** A 16-bit write inside work RAM or zero-page RAM reads back as the
      same word. */
  lemma WordReadAfterWrite(m: Mmu, a: u16, val: bv16)
    requires 0xC000 <= a < 0xFDFF || 0xFF80 <= a < 0xFFFE
    ensures WriteW(m, a, val).Success?
    ensures ReadW(WriteW(m, a, val).value, a) == Success(val)
  {
    var m1 := WriteB(m, a, LowByte(val)).value;
    var m2 := WriteB(m1, a + 1, HighByte(val)).value;
    assert WriteW(m, a, val) == Success(m2);
    NeighboursDistinct(a);
    ReadAfterWrite(m, a, a, LowByte(val));
    ReadAfterWrite(m1, a + 1, a, HighByte(val));
    ReadAfterWrite(m1, a + 1, a + 1, HighByte(val));
    ReadWOfBytes(m2, a);
    WordBytes(val, 0, 0);
  }
}
