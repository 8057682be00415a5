/** The GPU register file and its video memories: VRAM and OAM accesses
    gated by the current mode, the LCDC bits, the scroll and window
    registers, and a `step` that does nothing yet. No operation defined
    here changes the mode, so under them a GPU stays in the mode it was
    created in. */
module Gpu {
  import opened Bits
  import Interrupt

  const VRAM_SZ: nat := 0x2000
  const OAM_SZ: nat := 0xA0

  datatype Mode = HBlank | VBlank | AccessingOam | AccessingVram

  type Vram = s: seq<bv8> | |s| == VRAM_SZ witness seq(VRAM_SZ, _ => 0)
  type Oam = s: seq<bv8> | |s| == OAM_SZ witness seq(OAM_SZ, _ => 0)

  datatype Gpu = Gpu(
    mode: Mode,
    vram: Vram,
    oam: Oam,
    lcdEnable: bool,
    bgEnable: bool,
    scrollX: bv8,
    scrollY: bv8,
    winX: bv8,
    winY: bv8)

  /** Mode in which the CPU cannot touch VRAM. */
  predicate VramBlocked(g: Gpu) {
    g.mode == AccessingVram
  }

  /** Modes in which the CPU cannot touch OAM. */
  predicate OamBlocked(g: Gpu) {
    g.mode == AccessingVram || g.mode == AccessingOam
  }

  /** A fresh GPU: searching OAM, display and background off, every
      register and both memories zero. */
  function New(): (g: Gpu)
    ensures g.mode == AccessingOam && OamBlocked(g) && !VramBlocked(g)
    ensures ReadLcdc(g) == 0
    ensures ReadScx(g) == 0 && ReadScy(g) == 0 && ReadWx(g) == 0 && ReadWy(g) == 0
    ensures forall a: u16 :: ReadVram(g, a) == 0
  {
    Gpu(AccessingOam, seq(VRAM_SZ, _ => 0), seq(OAM_SZ, _ => 0), false, false, 0, 0, 0, 0)
  }

  /** `addr & (VRAM_SZ - 1)`: the address modulo the VRAM size. */
  function VramIndex(addr: u16): (i: nat)
    ensures i < VRAM_SZ && i == addr % VRAM_SZ
  {
    LowBits(addr, 13)
  }

  /** `addr & (OAM_SZ - 1)`, that is `addr & 0x9F`: always inside OAM. */
  function OamIndex(addr: u16): (i: nat)
    ensures i < OAM_SZ
  {
    And(addr, OAM_SZ - 1)
  }

  /** The OAM mask 0x9F has bits 5 and 6 clear, so the index never falls in
      0x20-0x7F: those OAM bytes cannot be reached, and addresses 0x20 apart
      in 0xFE00-0xFE7F share an index. */
  lemma {:induction false} OamIndexSkipsMiddle(addr: u16)
    ensures OamIndex(addr) < 0x20 || 0x80 <= OamIndex(addr)
  {
    var a1 := addr / 2;
    var a2 := a1 / 2;
    var a3 := a2 / 2;
    var a4 := a3 / 2;
    var a5 := a4 / 2;
    var a6 := a5 / 2;
    var a7 := a6 / 2;
    // Masks 0x9F, 0x4F, 0x27, 0x13, 0x09, 0x04, 0x02, 0x01 from bit 0 up:
    // the value is 128 times bit 7 of the address plus at most 31.
    var v7 := And(a7, 0x01);
    AndStep(a6, 0x02);
    var v6 := And(a6, 0x02);
    AndStep(a5, 0x04);
    var v5 := And(a5, 0x04);
    AndStep(a4, 0x09);
    var v4 := And(a4, 0x09);
    AndStep(a3, 0x13);
    var v3 := And(a3, 0x13);
    AndStep(a2, 0x27);
    var v2 := And(a2, 0x27);
    AndStep(a1, 0x4F);
    var v1 := And(a1, 0x4F);
    AndStep(addr, 0x9F);
    assert 128 * v7 <= OamIndex(addr) <= 128 * v7 + 31;
  }

  function ReadVram(g: Gpu, addr: u16): (r: bv8)
    ensures VramBlocked(g) ==> r == 0xFF
    ensures !VramBlocked(g) ==> r == g.vram[addr % VRAM_SZ]
  {
    if g.mode == AccessingVram then 0xFF
    else g.vram[VramIndex(addr)]
  }

  function WriteVram(g: Gpu, addr: u16, val: bv8): (r: Gpu)
    ensures VramBlocked(g) ==> r == g
    ensures r.(vram := g.vram) == g
  {
    if g.mode == AccessingVram then g
    else g.(vram := g.vram[VramIndex(addr) := val])
  }

  function ReadOam(g: Gpu, addr: u16): (r: bv8)
    ensures OamBlocked(g) ==> r == 0xFF
    ensures !OamBlocked(g) ==> r == g.oam[OamIndex(addr)]
  {
    if g.mode == AccessingVram || g.mode == AccessingOam then 0xFF
    else g.oam[OamIndex(addr)]
  }

  function WriteOam(g: Gpu, addr: u16, val: bv8): (r: Gpu)
    ensures OamBlocked(g) ==> r == g
    ensures r.(oam := g.oam) == g
    ensures !OamBlocked(g) ==> ReadOam(r, addr) == val
    ensures forall b: u16 :: OamIndex(b) != OamIndex(addr) ==> ReadOam(r, b) == ReadOam(g, b)
  {
    if g.mode == AccessingVram || g.mode == AccessingOam then g
    else g.(oam := g.oam[OamIndex(addr) := val])
  }

  /** `write_lcdc_reg`: only bit 7 (display enable) and bit 0 (background
      enable) are kept. */
  function WriteLcdc(g: Gpu, val: bv8): (r: Gpu)
    ensures r.lcdEnable <==> val & 0x80 != 0
    ensures r.bgEnable <==> val & 0x01 != 0
    ensures r.(lcdEnable := g.lcdEnable, bgEnable := g.bgEnable) == g
  {
    g.(lcdEnable := val & 0x80 != 0, bgEnable := val & 0x01 != 0)
  }

  /** `read_lcdc_reg`: display enable at bit 7, background enable at bit 0,
      every other bit clear. */
  function ReadLcdc(g: Gpu): (r: bv8)
    ensures r & 0x7E == 0
    ensures r & 0x80 != 0 <==> g.lcdEnable
    ensures r & 0x01 != 0 <==> g.bgEnable
  {
    ((if g.lcdEnable then 1 else 0) << 7) | (if g.bgEnable then 1 else 0)
  }

  function WriteWx(g: Gpu, val: bv8): Gpu { g.(winX := val) }
  function WriteWy(g: Gpu, val: bv8): Gpu { g.(winY := val) }
  function ReadWx(g: Gpu): bv8 { g.winX }
  function ReadWy(g: Gpu): bv8 { g.winY }
  function WriteScx(g: Gpu, val: bv8): Gpu { g.(scrollX := val) }
  function WriteScy(g: Gpu, val: bv8): Gpu { g.(scrollY := val) }
  function ReadScx(g: Gpu): bv8 { g.scrollX }
  function ReadScy(g: Gpu): bv8 { g.scrollY }

  /** `step`: returns early when the display is off and does nothing
      otherwise; neither the GPU nor the interrupt controller changes. */
  function Step(g: Gpu, cycles: u32, ic: Interrupt.Controller): (Gpu, Interrupt.Controller)
  {
    (g, ic)
  }

  /** The operations gpu.rs defines. */
  datatype Op =
    | VramWrite(addr: u16, val: bv8)
    | OamWrite(addr: u16, val: bv8)
    | LcdcWrite(val: bv8)
    | ScxWrite(val: bv8)
    | ScyWrite(val: bv8)
    | WxWrite(val: bv8)
    | WyWrite(val: bv8)
    | Tick(cycles: u32)

  function Apply(g: Gpu, op: Op): Gpu
  {
    match op
    case VramWrite(a, v) => WriteVram(g, a, v)
    case OamWrite(a, v) => WriteOam(g, a, v)
    case LcdcWrite(v) => WriteLcdc(g, v)
    case ScxWrite(v) => WriteScx(g, v)
    case ScyWrite(v) => WriteScy(g, v)
    case WxWrite(v) => WriteWx(g, v)
    case WyWrite(v) => WriteWy(g, v)
    case Tick(n) => Step(g, n, Interrupt.New()).0
  }

  function Run(g: Gpu, ops: seq<Op>): Gpu
    decreases |ops|
  {
    if |ops| == 0 then g else Run(Apply(g, ops[0]), ops[1..])
  }

  /** VRAM read after write: outside AccessingVram the written byte is
      read back at every address with the same index modulo 0x2000, and
      every other byte is unchanged; in AccessingVram nothing is written. */
  lemma VramReadAfterWrite(g: Gpu, a: u16, b: u16, val: bv8)
    ensures VramBlocked(g) ==> WriteVram(g, a, val) == g
    ensures !VramBlocked(g) ==>
              ReadVram(WriteVram(g, a, val), b) ==
              (if a % VRAM_SZ == b % VRAM_SZ then val else ReadVram(g, b))
  {
  }

  /** Outside the two modes that close OAM, a write is read back at every
      address with the same masked index, and every other address reads as
      before; inside them the write is ignored. */
  lemma OamReadAfterWrite(g: Gpu, a: u16, b: u16, val: bv8)
    ensures OamBlocked(g) ==> WriteOam(g, a, val) == g
    ensures !OamBlocked(g) ==>
              ReadOam(WriteOam(g, a, val), b) ==
              (if OamIndex(a) == OamIndex(b) then val else ReadOam(g, b))
  {
  }

  /** LCDC keeps only bits 7 and 0 of what was written. */
  lemma LcdcRoundTrip(g: Gpu, val: bv8)
    ensures ReadLcdc(WriteLcdc(g, val)) == val & 0x81
  {
  }

  /** Scroll and window registers read back what was written, and a write
      to one of them leaves the other three, and all other state, alone. */
  lemma ScrollWindowRoundTrip(g: Gpu, val: bv8)
    ensures ReadScx(WriteScx(g, val)) == val && WriteScx(g, val).(scrollX := g.scrollX) == g
    ensures ReadScy(WriteScy(g, val)) == val && WriteScy(g, val).(scrollY := g.scrollY) == g
    ensures ReadWx(WriteWx(g, val)) == val && WriteWx(g, val).(winX := g.winX) == g
    ensures ReadWy(WriteWy(g, val)) == val && WriteWy(g, val).(winY := g.winY) == g
  {
  }

  /** `step` leaves GPU and interrupt controller exactly as they were. */
  lemma StepIsIdentity(g: Gpu, cycles: u32, ic: Interrupt.Controller)
    ensures Step(g, cycles, ic) == (g, ic)
  {
  }

  /** No sequence of operations changes the mode. */
  lemma {:induction false} RunKeepsMode(g: Gpu, ops: seq<Op>)
    ensures Run(g, ops).mode == g.mode
    decreases |ops|
  {
    if |ops| > 0 {
      ApplyKeepsModeAndOam(g, ops[0]);
      RunKeepsMode(Apply(g, ops[0]), ops[1..]);
    }
  }

  /** Starting from a fresh GPU, OAM is never readable nor writable: every
      read yields 0xFF and OAM keeps its initial contents forever. */
  lemma {:induction false} OamStaysBlocked(ops: seq<Op>, addr: u16)
    ensures ReadOam(Run(New(), ops), addr) == 0xFF
    ensures Run(New(), ops).oam == New().oam
  {
    RunKeepsMode(New(), ops);
    RunKeepsOamWhileBlocked(New(), ops);
  }

  /** One operation keeps the mode, and while OAM is closed it keeps OAM. */
  lemma ApplyKeepsModeAndOam(g: Gpu, op: Op)
    ensures Apply(g, op).mode == g.mode
    ensures OamBlocked(g) ==> Apply(g, op).oam == g.oam
  {
  }

  lemma {:induction false} RunKeepsOamWhileBlocked(g: Gpu, ops: seq<Op>)
    requires OamBlocked(g)
    ensures Run(g, ops).oam == g.oam
    decreases |ops|
  {
    if |ops| > 0 {
      ApplyKeepsModeAndOam(g, ops[0]);
      RunKeepsOamWhileBlocked(Apply(g, ops[0]), ops[1..]);
    }
  }
}
