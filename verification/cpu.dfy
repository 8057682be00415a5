/** The CPU skeleton wired to the older memory bus: the flag bits of the F
    register, the register file, the instruction-stream fetches and a
    decoder for which no opcode is implemented. */
module Cpu {
  import opened Wrappers
  import opened Bits
  import Mmu

  /** The four flags of F: carry, half-carry, subtract and zero. */
  datatype Flag = C | H | N | Z

  /** Position of the flag's bit in F. */
  function Position(f: Flag): nat
  {
    match f
    case C => 4
    case H => 5
    case N => 6
    case Z => 7
  }

  /** The flag's discriminant: one bit, the one at `Position(f)`, in the
      upper nibble of F. */
  function Mask(f: Flag): (m: bv8)
    ensures m == 1 << Position(f)
    ensures m != 0 && m & (m - 1) == 0
    ensures m & 0x0F == 0
  {
    match f
    case C => 0x10
    case H => 0x20
    case N => 0x40
    case Z => 0x80
  }

  datatype Registers = Registers(
    a: bv8, b: bv8, c: bv8, d: bv8, e: bv8, f: bv8, h: bv8, l: bv8,
    pc: u16, sp: u16)

  datatype Cpu = Cpu(reg: Registers, mmu: Mmu.Mmu)

  datatype CpuError =
    | Bus(busError: Mmu.BusError)
    | PcOverflow(pc: u16)                 // `pc += n` overflows
    | Unimplemented(op: bv8, pc: u16)     // the opcode fetched and the advanced pc

  /** `Registers::default()`. */
  function DefaultRegisters(): (r: Registers)
    ensures r.a == 0 && r.b == 0 && r.c == 0 && r.d == 0
    ensures r.e == 0 && r.f == 0 && r.h == 0 && r.l == 0
    ensures r.pc == 0 && r.sp == 0
  {
    Registers(0, 0, 0, 0, 0, 0, 0, 0, 0, 0)
  }

  /** `Cpu::new`: zeroed registers over a fresh bus, so execution starts at
      address 0 with the stack pointer at 0. */
  function New(): (cpu: Cpu)
    ensures cpu.reg == DefaultRegisters()
    ensures forall a: u16 :: Mmu.ReadB(cpu.mmu, a).Success? ==> Mmu.ReadB(cpu.mmu, a).value == 0
  {
    Cpu(DefaultRegisters(), Mmu.New())
  }

  function BusResult<T>(r: Result<T, Mmu.BusError>): (b: Result<T, CpuError>)
    ensures b.Success? <==> r.Success?
    ensures r.Success? ==> b.value == r.value
    ensures r.Failure? ==> b.error == Bus(r.error)
  {
    match r
    case Success(v) => Success(v)
    case Failure(e) => Failure(Bus(e))
  }

  /** `fetchb`: the byte at `pc`, with `pc` advanced by one. */
  function FetchB(cpu: Cpu): (r: Result<(bv8, Cpu), CpuError>)
    ensures r.Success? <==> Mmu.ReadB(cpu.mmu, cpu.reg.pc).Success? && cpu.reg.pc < 0xFFFF
    ensures r.Success? ==>
              && r.value.0 == Mmu.ReadB(cpu.mmu, cpu.reg.pc).value
              && r.value.1.reg.pc == cpu.reg.pc + 1
              && r.value.1 == cpu.(reg := cpu.reg.(pc := r.value.1.reg.pc))
  {
    var val :- BusResult(Mmu.ReadB(cpu.mmu, cpu.reg.pc));
    // Unreachable: 0xFFFF is a hole of the bus, so the read has already failed.
    if cpu.reg.pc == 0xFFFF then Failure(PcOverflow(cpu.reg.pc))
    else Success((val, cpu.(reg := cpu.reg.(pc := cpu.reg.pc + 1))))
  }

  /** `fetchw`: the little-endian word at `pc`, with `pc` advanced by two. */
  function FetchW(cpu: Cpu): (r: Result<(bv16, Cpu), CpuError>)
    ensures r.Success? <==> Mmu.ReadW(cpu.mmu, cpu.reg.pc).Success? && cpu.reg.pc < 0xFFFE
    ensures r.Success? ==>
              && Mmu.ReadW(cpu.mmu, cpu.reg.pc) == Success(r.value.0)
              && r.value.1.reg.pc == cpu.reg.pc + 2
              && r.value.1 == cpu.(reg := cpu.reg.(pc := r.value.1.reg.pc))
  {
    var val :- BusResult(Mmu.ReadW(cpu.mmu, cpu.reg.pc));
    if cpu.reg.pc >= 0xFFFE then Failure(PcOverflow(cpu.reg.pc))
    else Success((val, cpu.(reg := cpu.reg.(pc := cpu.reg.pc + 2))))
  }

  /** `dexec`: the opcode is fetched and, whatever it is, execution stops
      with it and the advanced `pc`; no instruction completes. */
  function Dexec(cpu: Cpu): (r: Result<(u32, Cpu), CpuError>)
    ensures r.Failure?
    ensures FetchB(cpu).Success? ==>
              r.error == Unimplemented(FetchB(cpu).value.0, cpu.reg.pc + 1)
    ensures FetchB(cpu).Failure? ==> r.error == FetchB(cpu).error
  {
    var (op, next) :- FetchB(cpu);
    Failure(Unimplemented(op, next.reg.pc))
  }

  /** The four flags are distinct bits that together fill the upper nibble
      of F. */
  lemma FlagsFillUpperNibble(f: Flag, g: Flag)
    ensures f != g ==> Mask(f) & Mask(g) == 0
    ensures Mask(C) | Mask(H) | Mask(N) | Mask(Z) == 0xF0
  {
  }

  /** `fetchw` is two `fetchb`s, low byte first: either both succeed and the
      word is their little-endian composition, or both fail. */
  lemma {:induction false} FetchWIsTwoFetchB(cpu: Cpu)
    ensures FetchW(cpu).Success? <==>
              FetchB(cpu).Success? && FetchB(FetchB(cpu).value.1).Success?
    ensures FetchW(cpu).Success? ==>
              var (lo, c1) := FetchB(cpu).value;
              var (hi, c2) := FetchB(c1).value;
              FetchW(cpu) == Success((Word(lo, hi), c2))
  {
    var pc := cpu.reg.pc;
    if FetchB(cpu).Success? && pc < 0xFFFE {
      var c1 := FetchB(cpu).value.1;
      assert c1.mmu == cpu.mmu && c1.reg.pc == pc + 1;
      if Mmu.ReadB(cpu.mmu, pc + 1).Success? {
        Mmu.ReadWOfBytes(cpu.mmu, pc);
        assert FetchB(c1).value.1 == cpu.(reg := cpu.reg.(pc := pc + 2));
      }
    }
  }

  /** From a fresh CPU the first instruction is fetched from address 0,
      which reads 0, and is reported unimplemented at pc 1. */
  lemma NewCpuStopsAtOnce()
    ensures Dexec(New()) == Failure(Unimplemented(0, 1))
  {
  }
}
