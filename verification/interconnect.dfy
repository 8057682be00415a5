/** The newer memory bus: the full 0x0000-0xFFFF decode over the boot ROM,
    the cartridge, the GPU, work RAM and its echo, the timer and interrupt
    registers and zero-page RAM; 16-bit little-endian accesses; and the
    per-instruction `step` that advances the timer and then the GPU.

    The GPU accessors for tiles, STAT, LY, LYC and the palettes, the
    interrupt controller's `enable_all_interrupts` and the boot ROM's
    `readb`/`is_used` are called here but defined nowhere in the modelled
    code; they are the parameters gathered in `Hooks`. */
module Interconnect {
  import opened Wrappers
  import opened Bits
  import Interrupt
  import Timer
  import Cartridge
  import Gpu

  const WRAM_SZ: nat := 0x2000
  const ZRAM_SZ: nat := 0x7F

  type Wram = s: seq<bv8> | |s| == WRAM_SZ witness seq(WRAM_SZ, _ => 0)
  type Zram = s: seq<bv8> | |s| == ZRAM_SZ witness seq(ZRAM_SZ, _ => 0)

  /** The GPU memories reached only through the undefined accessors. */
  datatype TileArea = Tileset | Tilemap1 | Tilemap2

  /** The GPU registers reached only through the undefined accessors. */
  datatype GpuReg = Stat | Ly | Lyc | Bgp | Obp0 | Obp1

  /** The behaviour of the methods the bus calls that no modelled file
      defines. Tile accesses receive the masked offset the bus computes. */
  datatype Hooks = Hooks(
    tileRead: (Gpu.Gpu, TileArea, u16) -> bv8,
    tileWrite: (Gpu.Gpu, TileArea, u16, bv8) -> Gpu.Gpu,
    regRead: (Gpu.Gpu, GpuReg) -> bv8,
    regWrite: (Gpu.Gpu, GpuReg, bv8) -> Gpu.Gpu,
    enableAllInterrupts: (Interrupt.Controller, bv8) -> Interrupt.Controller,
    bootRead: u16 -> bv8,
    bootUsed: bool)

  datatype Interconnect = Interconnect(
    wram: Wram,
    zram: Zram,
    cart: Cartridge.Cartridge,
    bootMode: bool,   // the boot ROM overlays 0x0000-0x00FF
    ic: Interrupt.Controller,
    timer: Timer.Timer,
    gpu: Gpu.Gpu)

  datatype BusError =
    | Unmapped(addr: u16)                   // no arm of the address match
    | AddressOverflow(addr: u16)            // `addr + 1` overflows in a 16-bit access
    | CartFault(cartError: Cartridge.CartError)
    | TimerFault(timerError: Timer.TimerError)

  /** The arms of the address match. `Mmio` gathers the I/O registers that
      read 0 and ignore writes; `Unused` (0xFF51-0xFF7F) has an arm only in
      `writeb`, and `BootReg` (0xFF50) likewise. */
  datatype Region =
    | BootOverlay                      // 0x0000-0x00FF
    | Rom                              // 0x0100-0x7FFF
    | Tiles(area: TileArea, offset: u16)
    | CartRam                          // 0xA000-0xBFFF
    | WorkRam(i: nat)                  // 0xC000-0xFDFF, echo included
    | Oam                              // 0xFE00-0xFE9F
    | Gap                              // 0xFEA0-0xFEFF
    | Mmio
    | Div | Tima | Tma | Tac | IFlag
    | Lcdc | Scy | Scx | Wy | Wx
    | GpuRegister(reg: GpuReg)
    | BootReg                          // 0xFF50
    | Unused                           // 0xFF51-0xFF7F
    | ZeroPage(i: nat)                 // 0xFF80-0xFFFE
    | Ie                               // 0xFFFF

  /** The address match shared by `readb` and `writeb`. Tiles are reached
      with `addr & 0x17FF` or `addr & 0x03FF`, work RAM with
      `addr & 0x1FFF` and zero-page RAM with `addr & 0x7F`. */
  function Decode(addr: u16): (g: Region)
    ensures g == BootOverlay <==> addr <= 0x00FF
    ensures g == Rom <==> 0x0100 <= addr <= 0x7FFF
    ensures g == CartRam <==> 0xA000 <= addr <= 0xBFFF
    ensures g.WorkRam? <==> 0xC000 <= addr <= 0xFDFF
    ensures g.WorkRam? ==> g.i == addr % WRAM_SZ && g.i < WRAM_SZ
    ensures g.ZeroPage? <==> 0xFF80 <= addr <= 0xFFFE
    ensures g.ZeroPage? ==> g.i == addr - 0xFF80 && g.i < ZRAM_SZ
    ensures g == BootReg <==> addr == 0xFF50
    ensures g == Unused <==> 0xFF51 <= addr <= 0xFF7F
    ensures g == Div <==> addr == 0xFF04
    ensures g == Tima <==> addr == 0xFF05
    ensures g == Tma <==> addr == 0xFF06
    ensures g == Tac <==> addr == 0xFF07
    ensures g == IFlag <==> addr == 0xFF0F
    ensures g == Ie <==> addr == 0xFFFF
    ensures g.Tiles? <==> 0x8000 <= addr <= 0x9FFF
    ensures 0x8000 <= addr <= 0x97FF ==> g == Tiles(Tileset, And(addr, 0x17FF))
    ensures 0x9800 <= addr <= 0x9BFF ==> g == Tiles(Tilemap1, And(addr, 0x03FF))
    ensures 0x9C00 <= addr <= 0x9FFF ==> g == Tiles(Tilemap2, And(addr, 0x03FF))
    ensures g == Oam <==> 0xFE00 <= addr <= 0xFE9F
    ensures g == Gap <==> 0xFEA0 <= addr <= 0xFEFF
    ensures g == Lcdc <==> addr == 0xFF40
    ensures g == Scy <==> addr == 0xFF42
    ensures g == Scx <==> addr == 0xFF43
    ensures g == Wy <==> addr == 0xFF4A
    ensures g == Wx <==> addr == 0xFF4B
    ensures g == GpuRegister(Stat) <==> addr == 0xFF41
    ensures g == GpuRegister(Ly) <==> addr == 0xFF44
    ensures g == GpuRegister(Lyc) <==> addr == 0xFF45
    ensures g == GpuRegister(Bgp) <==> addr == 0xFF47
    ensures g == GpuRegister(Obp0) <==> addr == 0xFF48
    ensures g == GpuRegister(Obp1) <==> addr == 0xFF49
    ensures g == Mmio <==> MmioAddress(addr)
  {
    Pow2Values();
    if addr <= 0xFEFF then DecodeMemory(addr)
    else if addr <= 0xFF7F then DecodeIo(addr)
    else if addr <= 0xFFFE then ZeroPage(LowBits(addr, 7))
    else Ie
  }

  /** `addr & 0x1FFF`: the work-RAM byte an address of 0xC000-0xFDFF
      reaches, the same for an address and its echo. */
  function WramIndex(addr: u16): (i: nat)
    ensures i == addr % WRAM_SZ && i < WRAM_SZ
  {
    Pow2Values();
    LowBits(addr, 13)
  }

  /** Video memory: the tile set at 0x8000-0x97FF through `addr & 0x17FF`,
      the two tile maps at 0x9800-0x9BFF and 0x9C00-0x9FFF through
      `addr & 0x03FF`. */
  function DecodeTiles(addr: u16): (g: Region)
    requires 0x8000 <= addr <= 0x9FFF
    ensures addr <= 0x97FF ==> g == Tiles(Tileset, And(addr, 0x17FF))
    ensures 0x9800 <= addr <= 0x9BFF ==> g == Tiles(Tilemap1, And(addr, 0x03FF))
    ensures 0x9C00 <= addr ==> g == Tiles(Tilemap2, And(addr, 0x03FF))
  {
    if addr <= 0x97FF then Tiles(Tileset, And(addr, 0x17FF))
    else if addr <= 0x9BFF then Tiles(Tilemap1, And(addr, 0x03FF))
    else Tiles(Tilemap2, And(addr, 0x03FF))
  }

  /** The arms of the I/O page. */
  predicate IoRegion(g: Region) {
    || g.Mmio? || g.Div? || g.Tima? || g.Tma? || g.Tac? || g.IFlag?
    || g.Lcdc? || g.Scy? || g.Scx? || g.Wy? || g.Wx? || g.GpuRegister?
    || g.BootReg? || g.Unused?
  }

  /** The arms below the I/O page: ROM, video memory, cartridge RAM, work
      RAM, OAM and the gap. */
  function DecodeMemory(addr: u16): (g: Region)
    requires addr <= 0xFEFF
    ensures g == BootOverlay <==> addr <= 0x00FF
    ensures g == Rom <==> 0x0100 <= addr <= 0x7FFF
    ensures g == CartRam <==> 0xA000 <= addr <= 0xBFFF
    ensures g.WorkRam? <==> 0xC000 <= addr <= 0xFDFF
    ensures g.WorkRam? ==> g.i == addr % WRAM_SZ && g.i < WRAM_SZ
    ensures g.Tiles? <==> 0x8000 <= addr <= 0x9FFF
    ensures g.Tiles? ==> g == DecodeTiles(addr)
    ensures g == Oam <==> 0xFE00 <= addr <= 0xFE9F
    ensures g == Gap <==> 0xFEA0 <= addr <= 0xFEFF
    ensures !IoRegion(g) && !g.ZeroPage? && g != Ie
  {
    if addr <= 0x00FF then BootOverlay
    else if addr <= 0x7FFF then Rom
    else if addr <= 0x9FFF then DecodeTiles(addr)
    else if addr <= 0xBFFF then CartRam
    else if addr <= 0xFDFF then WorkRam(WramIndex(addr))
    else if addr <= 0xFE9F then Oam
    else Gap
  }

  /** The I/O addresses whose arms read 0 and ignore writes (marked MMIO in
      the source), outside 0xFF51-0xFF7F. */
  predicate MmioAddress(addr: u16) {
    || 0xFF00 <= addr <= 0xFF03
    || 0xFF08 <= addr <= 0xFF0E
    || 0xFF10 <= addr <= 0xFF3F
    || addr == 0xFF46
    || 0xFF4C <= addr <= 0xFF4F
  }

  /** The I/O page 0xFF00-0xFF7F. */
  function DecodeIo(addr: u16): (g: Region)
    requires 0xFF00 <= addr <= 0xFF7F
    ensures g == BootReg <==> addr == 0xFF50
    ensures g == Unused <==> 0xFF51 <= addr <= 0xFF7F
    ensures g == Div <==> addr == 0xFF04
    ensures g == Tima <==> addr == 0xFF05
    ensures g == Tma <==> addr == 0xFF06
    ensures g == Tac <==> addr == 0xFF07
    ensures g == IFlag <==> addr == 0xFF0F
    ensures g == Lcdc <==> addr == 0xFF40
    ensures g == Scy <==> addr == 0xFF42
    ensures g == Scx <==> addr == 0xFF43
    ensures g == Wy <==> addr == 0xFF4A
    ensures g == Wx <==> addr == 0xFF4B
    ensures g == GpuRegister(Stat) <==> addr == 0xFF41
    ensures g == GpuRegister(Ly) <==> addr == 0xFF44
    ensures g == GpuRegister(Lyc) <==> addr == 0xFF45
    ensures g == GpuRegister(Bgp) <==> addr == 0xFF47
    ensures g == GpuRegister(Obp0) <==> addr == 0xFF48
    ensures g == GpuRegister(Obp1) <==> addr == 0xFF49
    ensures g == Mmio <==> MmioAddress(addr)
    ensures IoRegion(g)
  {
    if addr <= 0xFF03 then Mmio
    else if addr == 0xFF04 then Div
    else if addr == 0xFF05 then Tima
    else if addr == 0xFF06 then Tma
    else if addr == 0xFF07 then Tac
    else if addr <= 0xFF0E then Mmio
    else if addr == 0xFF0F then IFlag
    else if addr <= 0xFF3F then Mmio
    else if addr == 0xFF40 then Lcdc
    else if addr == 0xFF41 then GpuRegister(Stat)
    else if addr == 0xFF42 then Scy
    else if addr == 0xFF43 then Scx
    else if addr == 0xFF44 then GpuRegister(Ly)
    else if addr == 0xFF45 then GpuRegister(Lyc)
    else if addr == 0xFF46 then Mmio
    else if addr == 0xFF47 then GpuRegister(Bgp)
    else if addr == 0xFF48 then GpuRegister(Obp0)
    else if addr == 0xFF49 then GpuRegister(Obp1)
    else if addr == 0xFF4A then Wy
    else if addr == 0xFF4B then Wx
    else if addr <= 0xFF4F then Mmio
    else if addr == 0xFF50 then BootReg
    else Unused
  }

  function CartResult<T>(r: Result<T, Cartridge.CartError>): (b: Result<T, BusError>)
    ensures b.Success? <==> r.Success?
    ensures r.Success? ==> b.value == r.value
    ensures r.Failure? ==> b.error == CartFault(r.error)
  {
    match r
    case Success(v) => Success(v)
    case Failure(e) => Failure(CartFault(e))
  }

  /** A cartridge whose ROM and RAM reads cannot fail: a nonempty image and
      the RAM gate closed. */
  predicate CartReadable(c: Cartridge.Cartridge) {
    |c.rom| > 0 && !(c.ramEnable == 0x0A && |c.ram| == 0)
  }

  /** `readb`. The I/O addresses 0xFF50-0xFF7F have no arm and fail; the
      only other failures are the cartridge's own. */
  function ReadB(x: Interconnect, h: Hooks, addr: u16): (r: Result<bv8, BusError>)
    ensures 0xFF50 <= addr <= 0xFF7F ==> r == Failure(Unmapped(addr))
    ensures r.Failure? && !(0xFF50 <= addr <= 0xFF7F) ==>
              r.error.CartFault? && (addr <= 0x7FFF || 0xA000 <= addr <= 0xBFFF)
    ensures CartReadable(x.cart) ==> (r.Failure? <==> 0xFF50 <= addr <= 0xFF7F)
    ensures 0xFE00 <= addr <= 0xFE9F ==> r == Success(Gpu.ReadOam(x.gpu, And(addr, 0x9F)))
    ensures 0xFEA0 <= addr <= 0xFEFF || MmioAddress(addr) ==> r == Success(0)
    ensures addr == 0xFFFF ==> r == Success(x.ic.ie)
    ensures 0xA000 <= addr <= 0xBFFF ==> r == CartResult(Cartridge.ReadRam(x.cart, addr))
    ensures addr == 0xFF04 ==> r == Success(Timer.GetDiv(x.timer))
    ensures addr == 0xFF05 ==> r == Success(Timer.GetTima(x.timer))
    ensures addr == 0xFF06 ==> r == Success(Timer.GetTma(x.timer))
    ensures addr == 0xFF07 ==> r == Success(Timer.GetTac(x.timer))
    ensures addr == 0xFF0F ==> r == Success(x.ic.iflag)
  {
    match Decode(addr)
    case BootOverlay =>
      if x.bootMode then Success(h.bootRead(addr))
      else CartResult(Cartridge.ReadRom(x.cart, addr))
    case Rom => CartResult(Cartridge.ReadRom(x.cart, addr))
    case Tiles(area, offset) => Success(h.tileRead(x.gpu, area, offset))
    case CartRam => CartResult(Cartridge.ReadRam(x.cart, addr))
    case WorkRam(i) => Success(x.wram[i])
    case Oam => Success(Gpu.ReadOam(x.gpu, And(addr, 0x9F)))
    case Gap => Success(0)
    case Mmio => Success(0)
    case Div => Success(Timer.GetDiv(x.timer))
    case Tima => Success(Timer.GetTima(x.timer))
    case Tma => Success(Timer.GetTma(x.timer))
    case Tac => Success(Timer.GetTac(x.timer))
    case IFlag => Success(x.ic.iflag)
    case Lcdc => Success(Gpu.ReadLcdc(x.gpu))
    case Scy => Success(Gpu.ReadScy(x.gpu))
    case Scx => Success(Gpu.ReadScx(x.gpu))
    case Wy => Success(Gpu.ReadWy(x.gpu))
    case Wx => Success(Gpu.ReadWx(x.gpu))
    case GpuRegister(reg) => Success(h.regRead(x.gpu, reg))
    case BootReg => Failure(Unmapped(addr))
    case Unused => Failure(Unmapped(addr))
    case ZeroPage(i) => Success(x.zram[i])
    case Ie => Success(x.ic.ie)
  }

  /** `writeb`. Every address has an arm; the only failure is an invalid
      TAC value written to 0xFF07. */
  function WriteB(x: Interconnect, h: Hooks, addr: u16, val: bv8): (r: Result<Interconnect, BusError>)
    ensures r.Failure? <==> addr == 0xFF07 && !Timer.ValidTac(val)
    ensures r.Failure? ==> r.error == TimerFault(Timer.InvalidTac(val))
    ensures 0xFE00 <= addr <= 0xFE9F ==>
              r == Success(x.(gpu := Gpu.WriteOam(x.gpu, And(addr, 0x9F), val)))
    ensures 0xFEA0 <= addr <= 0xFEFF || MmioAddress(addr) || 0xFF51 <= addr <= 0xFF7F ==>
              r == Success(x)
    ensures addr == 0xFFFF ==> r == Success(x.(ic := h.enableAllInterrupts(x.ic, val)))
    ensures addr <= 0x7FFF || 0xA000 <= addr <= 0xBFFF ==> r == Success(x)
    ensures addr == 0xFF04 ==> r == Success(x.(timer := Timer.SetDiv(x.timer, val)))
    ensures addr == 0xFF05 ==> r == Success(x.(timer := Timer.SetTima(x.timer, val)))
    ensures addr == 0xFF06 ==> r == Success(x.(timer := Timer.SetTma(x.timer, val)))
    ensures addr == 0xFF07 && Timer.ValidTac(val) ==>
              r == Success(x.(timer := Timer.SetTac(x.timer, val).value))
    ensures addr == 0xFF0F ==> r == Success(x.(ic := x.ic.(iflag := val)))
  {
    match Decode(addr)
    case BootOverlay => Success(x.(cart := Cartridge.WriteRom(x.cart, addr, val)))
    case Rom => Success(x.(cart := Cartridge.WriteRom(x.cart, addr, val)))
    case Tiles(area, offset) => Success(x.(gpu := h.tileWrite(x.gpu, area, offset, val)))
    case CartRam => Success(x.(cart := Cartridge.WriteRam(x.cart, addr, val)))
    case WorkRam(i) => Success(x.(wram := x.wram[i := val]))
    case Oam => Success(x.(gpu := Gpu.WriteOam(x.gpu, And(addr, 0x9F), val)))
    case Gap => Success(x)
    case Mmio => Success(x)
    case Div => Success(x.(timer := Timer.SetDiv(x.timer, val)))
    case Tima => Success(x.(timer := Timer.SetTima(x.timer, val)))
    case Tma => Success(x.(timer := Timer.SetTma(x.timer, val)))
    case Tac =>
      (match Timer.SetTac(x.timer, val)
       case Success(t) => Success(x.(timer := t))
       case Failure(e) => Failure(TimerFault(e)))
    case IFlag => Success(x.(ic := x.ic.(iflag := val)))
    case Lcdc => Success(x.(gpu := Gpu.WriteLcdc(x.gpu, val)))
    case Scy => Success(x.(gpu := Gpu.WriteScy(x.gpu, val)))
    case Scx => Success(x.(gpu := Gpu.WriteScx(x.gpu, val)))
    case Wy => Success(x.(gpu := Gpu.WriteWy(x.gpu, val)))
    case Wx => Success(x.(gpu := Gpu.WriteWx(x.gpu, val)))
    case GpuRegister(reg) => Success(x.(gpu := h.regWrite(x.gpu, reg, val)))
    case BootReg => Success(x.(bootMode := !(val == 1)))
    case Unused => Success(x)
    case ZeroPage(i) => Success(x.(zram := x.zram[i := val]))
    case Ie => Success(x.(ic := h.enableAllInterrupts(x.ic, val)))
  }

  /** `readw`: `addr + 1` is computed (and read) first, then `addr`; the
      high byte comes from `addr + 1`. */
  function ReadW(x: Interconnect, h: Hooks, addr: u16): (r: Result<bv16, BusError>)
    ensures r.Success? <==> addr < 0xFFFF && ReadB(x, h, addr + 1).Success? && ReadB(x, h, addr).Success?
    ensures addr == 0xFFFF ==> r == Failure(AddressOverflow(addr))
    ensures r.Success? ==>
              LowByte(r.value) == ReadB(x, h, addr).value &&
              HighByte(r.value) == ReadB(x, h, addr + 1).value
  {
    if addr == 0xFFFF then Failure(AddressOverflow(addr))
    else
      var hi :- ReadB(x, h, addr + 1);
      var lo :- ReadB(x, h, addr);
      WordBytes(Word(lo, hi), lo, hi);
      Success(Word(lo, hi))
  }

  /** `writew`: the low byte to `addr`, then the high byte to `addr + 1`;
      the low byte is already stored when `addr + 1` overflows. */
  function WriteW(x: Interconnect, h: Hooks, addr: u16, val: bv16): (r: Result<Interconnect, BusError>)
    ensures r.Success? <==>
              && WriteB(x, h, addr, LowByte(val)).Success?
              && addr < 0xFFFF
              && WriteB(WriteB(x, h, addr, LowByte(val)).value, h, addr + 1, HighByte(val)).Success?
    ensures WriteB(x, h, addr, LowByte(val)).Success? && addr == 0xFFFF ==>
              r == Failure(AddressOverflow(addr))
    ensures r.Success? ==>
              r == WriteB(WriteB(x, h, addr, LowByte(val)).value, h, addr + 1, HighByte(val))
  {
    var x1 :- WriteB(x, h, addr, LowByte(val));
    if addr == 0xFFFF then Failure(AddressOverflow(addr))
    else WriteB(x1, h, addr + 1, HighByte(val))
  }

  /** `step`: the timer runs for `ticks` cycles, then the GPU; the ticks
      are handed back unchanged. Nothing else moves. */
  function Step(x: Interconnect, ticks: u32): (r: Result<(Interconnect, u32), BusError>)
    ensures r.Success? <==> Timer.Step(x.timer, x.ic, ticks).Success?
    ensures r.Success? ==>
              && r.value.1 == ticks
              && Timer.Step(x.timer, x.ic, ticks) == Success((r.value.0.timer, r.value.0.ic))
              && r.value.0.(timer := x.timer, ic := x.ic) == x
    ensures r.Failure? ==> r.error == TimerFault(Timer.Step(x.timer, x.ic, ticks).error)
  {
    match Timer.Step(x.timer, x.ic, ticks)
    case Failure(e) => Failure(TimerFault(e))
    case Success((t, ic)) =>
      var (g, ic') := Gpu.Step(x.gpu, ticks, ic);
      Success((x.(timer := t, ic := ic', gpu := g), ticks))
  }

  /** The 16-bit stores `fake_boot_rom` makes to the timer, interrupt and
      GPU registers, in order, ending with the one to IE at 0xFFFF. */
  const FAKE_BOOT_STORES: seq<(u16, bv16)> := [
    (0xFF05, 0x00), (0xFF06, 0x00), (0xFF07, 0x00),
    (0xFF40, 0x91), (0xFF42, 0x00), (0xFF43, 0x00), (0xFF45, 0x00),
    (0xFF47, 0xFC), (0xFF48, 0xFF), (0xFF49, 0xFF), (0xFF4A, 0x00),
    (0xFF4B, 0x00), (0xFFFF, 0x00)]

  /** Successive `writew` calls, stopping at the first failure. */
  function WriteWAll(x: Interconnect, h: Hooks, stores: seq<(u16, bv16)>): Result<Interconnect, BusError>
    decreases |stores|
  {
    if |stores| == 0 then Success(x)
    else
      var x' :- WriteW(x, h, stores[0].0, stores[0].1);
      WriteWAll(x', h, stores[1..])
  }

  /** The state `new` builds before seeding: boot ROM mapped, memories
      zero, fresh timer, controller and GPU. */
  function Initial(cart: Cartridge.Cartridge): Interconnect {
    Interconnect(seq(WRAM_SZ, _ => 0), seq(ZRAM_SZ, _ => 0), cart, true,
                 Interrupt.New(), Timer.New(), Gpu.New())
  }

  /** `new`: when no boot ROM is in use the registers are seeded by
      `fake_boot_rom`, whose last store overflows `addr + 1`. */
  function New(cart: Cartridge.Cartridge, h: Hooks): (r: Result<Interconnect, BusError>)
    ensures h.bootUsed ==> r.Success? && r.value.bootMode && r.value.cart == cart
    ensures h.bootUsed ==>
              && r.value.timer == Timer.New()
              && r.value.ic == Interrupt.New()
              && r.value.gpu == Gpu.New()
    ensures h.bootUsed ==>
              forall a: u16 :: 0xC000 <= a <= 0xFDFF || 0xFF80 <= a <= 0xFFFE ==>
                ReadB(r.value, h, a) == Success(0)
    ensures !h.bootUsed ==> r == Failure(AddressOverflow(0xFFFF))
  {
    if h.bootUsed then Success(Initial(cart))
    else
      FakeBootRomOverflows(Initial(cart), h);
      WriteWAll(Initial(cart), h, FAKE_BOOT_STORES)
  }

  /** A 16-bit store that cannot fail: `addr + 1` does not overflow and any
      byte it puts into TAC is a valid one. */
  predicate HarmlessStore(s: (u16, bv16)) {
    && s.0 < 0xFFFF
    && (s.0 == 0xFF07 ==> Timer.ValidTac(LowByte(s.1)))
    && (s.0 + 1 == 0xFF07 ==> Timer.ValidTac(HighByte(s.1)))
  }

  lemma HarmlessStoreSucceeds(x: Interconnect, h: Hooks, s: (u16, bv16))
    requires HarmlessStore(s)
    ensures WriteW(x, h, s.0, s.1).Success?
  {
  }

  /** Harmless stores followed by one to 0xFFFF end in the overflow of that
      last store, whatever the hooks do. */
  lemma {:induction false} StoresEndInOverflow(x: Interconnect, h: Hooks, stores: seq<(u16, bv16)>)
    requires |stores| > 0 && stores[|stores| - 1].0 == 0xFFFF
    requires forall k | 0 <= k < |stores| - 1 :: HarmlessStore(stores[k])
    ensures WriteWAll(x, h, stores) == Failure(AddressOverflow(0xFFFF))
    decreases |stores|
  {
    if |stores| == 1 {
      IeRouting(x, h, LowByte(stores[0].1));
    } else {
      HarmlessStoreSucceeds(x, h, stores[0]);
      var x' := WriteW(x, h, stores[0].0, stores[0].1).value;
      StoresEndInOverflow(x', h, stores[1..]);
    }
  }

  /** `fake_boot_rom` fails on its final store to IE. */
  lemma FakeBootRomOverflows(x: Interconnect, h: Hooks)
    ensures WriteWAll(x, h, FAKE_BOOT_STORES) == Failure(AddressOverflow(0xFFFF))
  {
    StoresEndInOverflow(x, h, FAKE_BOOT_STORES);
  }

  /** While `boot_mode` holds, 0x0000-0x00FF reads the boot ROM; otherwise
      it reads the cartridge, as 0x0100-0x7FFF always does. */
  lemma BootOverlayReads(x: Interconnect, h: Hooks, addr: u16)
    requires addr <= 0x7FFF
    ensures addr <= 0x00FF && x.bootMode ==> ReadB(x, h, addr) == Success(h.bootRead(addr))
    ensures addr > 0x00FF || !x.bootMode ==>
              ReadB(x, h, addr) == CartResult(Cartridge.ReadRom(x.cart, addr))
  {
  }

  /** Writing 0xFF50 sets `boot_mode` to "the value is not 1" and changes
      nothing else; after writing 1 the low page reads the cartridge. */
  lemma BootRegisterWrite(x: Interconnect, h: Hooks, val: bv8, addr: u16)
    requires addr <= 0x00FF
    ensures WriteB(x, h, 0xFF50, val) == Success(x.(bootMode := val != 1))
    ensures val == 1 ==>
              ReadB(WriteB(x, h, 0xFF50, val).value, h, addr) ==
              CartResult(Cartridge.ReadRom(x.cart, addr))
  {
  }

  /** One byte of work RAM, through `readb` and `writeb`. */
  lemma WorkRamAccess(x: Interconnect, h: Hooks, a: u16, val: bv8)
    requires 0xC000 <= a <= 0xFDFF
    ensures ReadB(x, h, a) == Success(x.wram[a % WRAM_SZ])
    ensures WriteB(x, h, a, val) == Success(x.(wram := x.wram[a % WRAM_SZ := val]))
  {
  }

  /** One byte of zero-page RAM, through `readb` and `writeb`. */
  lemma ZeroPageAccess(x: Interconnect, h: Hooks, a: u16, val: bv8)
    requires 0xFF80 <= a <= 0xFFFE
    ensures ReadB(x, h, a) == Success(x.zram[a - 0xFF80])
    ensures WriteB(x, h, a, val) == Success(x.(zram := x.zram[a - 0xFF80 := val]))
  {
  }

  /** Video memory goes to the GPU's tile accessors, with the area and
      offset `DecodeTiles` gives. */
  lemma TileRouting(x: Interconnect, h: Hooks, a: u16, val: bv8)
    requires 0x8000 <= a <= 0x9FFF
    ensures var t := DecodeTiles(a);
            && ReadB(x, h, a) == Success(h.tileRead(x.gpu, t.area, t.offset))
            && WriteB(x, h, a, val) == Success(x.(gpu := h.tileWrite(x.gpu, t.area, t.offset, val)))
  {
  }

  /** OAM goes to the GPU through `addr & 0x9F`; the gap after it reads 0
      and ignores writes. */
  lemma OamAndGapRouting(x: Interconnect, h: Hooks, a: u16, val: bv8)
    ensures 0xFE00 <= a <= 0xFE9F ==>
              && ReadB(x, h, a) == Success(Gpu.ReadOam(x.gpu, And(a, 0x9F)))
              && WriteB(x, h, a, val) == Success(x.(gpu := Gpu.WriteOam(x.gpu, And(a, 0x9F), val)))
    ensures 0xFEA0 <= a <= 0xFEFF ==>
              ReadB(x, h, a) == Success(0) && WriteB(x, h, a, val) == Success(x)
  {
  }

  /** The I/O addresses without a device read 0 and ignore writes; the
      unused tail of the I/O page ignores writes too. */
  lemma MmioRouting(x: Interconnect, h: Hooks, a: u16, val: bv8)
    ensures MmioAddress(a) ==>
              ReadB(x, h, a) == Success(0) && WriteB(x, h, a, val) == Success(x)
    ensures 0xFF51 <= a <= 0xFF7F ==> WriteB(x, h, a, val) == Success(x)
  {
  }

  /** LCDC, SCY, SCX, WY and WX go to the GPU's own register accessors. */
  lemma GpuRegisterRouting(x: Interconnect, h: Hooks, val: bv8)
    ensures ReadB(x, h, 0xFF40) == Success(Gpu.ReadLcdc(x.gpu))
    ensures WriteB(x, h, 0xFF40, val) == Success(x.(gpu := Gpu.WriteLcdc(x.gpu, val)))
    ensures ReadB(x, h, 0xFF42) == Success(Gpu.ReadScy(x.gpu))
    ensures WriteB(x, h, 0xFF42, val) == Success(x.(gpu := Gpu.WriteScy(x.gpu, val)))
    ensures ReadB(x, h, 0xFF43) == Success(Gpu.ReadScx(x.gpu))
    ensures WriteB(x, h, 0xFF43, val) == Success(x.(gpu := Gpu.WriteScx(x.gpu, val)))
    ensures ReadB(x, h, 0xFF4A) == Success(Gpu.ReadWy(x.gpu))
    ensures WriteB(x, h, 0xFF4A, val) == Success(x.(gpu := Gpu.WriteWy(x.gpu, val)))
    ensures ReadB(x, h, 0xFF4B) == Success(Gpu.ReadWx(x.gpu))
    ensures WriteB(x, h, 0xFF4B, val) == Success(x.(gpu := Gpu.WriteWx(x.gpu, val)))
  {
  }

  /** STAT, LY, LYC, BGP, OBP0 and OBP1 go to the GPU register hooks. */
  lemma HookRegisterRouting(x: Interconnect, h: Hooks, val: bv8)
    ensures ReadB(x, h, 0xFF41) == Success(h.regRead(x.gpu, Stat))
    ensures WriteB(x, h, 0xFF41, val) == Success(x.(gpu := h.regWrite(x.gpu, Stat, val)))
    ensures ReadB(x, h, 0xFF44) == Success(h.regRead(x.gpu, Ly))
    ensures WriteB(x, h, 0xFF44, val) == Success(x.(gpu := h.regWrite(x.gpu, Ly, val)))
    ensures ReadB(x, h, 0xFF45) == Success(h.regRead(x.gpu, Lyc))
    ensures WriteB(x, h, 0xFF45, val) == Success(x.(gpu := h.regWrite(x.gpu, Lyc, val)))
    ensures ReadB(x, h, 0xFF47) == Success(h.regRead(x.gpu, Bgp))
    ensures WriteB(x, h, 0xFF47, val) == Success(x.(gpu := h.regWrite(x.gpu, Bgp, val)))
    ensures ReadB(x, h, 0xFF48) == Success(h.regRead(x.gpu, Obp0))
    ensures WriteB(x, h, 0xFF48, val) == Success(x.(gpu := h.regWrite(x.gpu, Obp0, val)))
    ensures ReadB(x, h, 0xFF49) == Success(h.regRead(x.gpu, Obp1))
    ensures WriteB(x, h, 0xFF49, val) == Success(x.(gpu := h.regWrite(x.gpu, Obp1, val)))
  {
  }

  /** IE at 0xFFFF reads the controller's enable mask and is written
      through `enable_all_interrupts`. */
  lemma IeRouting(x: Interconnect, h: Hooks, val: bv8)
    ensures ReadB(x, h, 0xFFFF) == Success(x.ic.ie)
    ensures WriteB(x, h, 0xFFFF, val) == Success(x.(ic := h.enableAllInterrupts(x.ic, val)))
  {
  }

  /** The cartridge arms: a store to ROM or cartridge RAM is delegated to
      `write_rom`/`write_ram`, which ignore it, and a read of cartridge RAM
      is whatever `read_ram` answers. */
  lemma CartridgeRouting(x: Interconnect, h: Hooks, a: u16, val: bv8)
    ensures a <= 0x7FFF || 0xA000 <= a <= 0xBFFF ==> WriteB(x, h, a, val) == Success(x)
    ensures 0xA000 <= a <= 0xBFFF ==> ReadB(x, h, a) == CartResult(Cartridge.ReadRam(x.cart, a))
  {
  }

  /** The timer and interrupt-flag registers at 0xFF04-0xFF07 and 0xFF0F
      read through the timer's getters and the flag byte, and are written
      through the timer's setters and the flag byte; a valid TAC value is
      stored by `set_tac`. */
  lemma TimerRouting(x: Interconnect, h: Hooks, val: bv8)
    ensures ReadB(x, h, 0xFF04) == Success(Timer.GetDiv(x.timer))
    ensures ReadB(x, h, 0xFF05) == Success(Timer.GetTima(x.timer))
    ensures ReadB(x, h, 0xFF06) == Success(Timer.GetTma(x.timer))
    ensures ReadB(x, h, 0xFF07) == Success(Timer.GetTac(x.timer))
    ensures ReadB(x, h, 0xFF0F) == Success(x.ic.iflag)
    ensures WriteB(x, h, 0xFF04, val) == Success(x.(timer := Timer.SetDiv(x.timer, val)))
    ensures WriteB(x, h, 0xFF05, val) == Success(x.(timer := Timer.SetTima(x.timer, val)))
    ensures WriteB(x, h, 0xFF06, val) == Success(x.(timer := Timer.SetTma(x.timer, val)))
    ensures Timer.ValidTac(val) ==>
              WriteB(x, h, 0xFF07, val) == Success(x.(timer := Timer.SetTac(x.timer, val).value))
    ensures WriteB(x, h, 0xFF0F, val) == Success(x.(ic := x.ic.(iflag := val)))
  {
  }

  /** Work RAM and its echo: a write anywhere in 0xC000-0xFDFF changes only
      work RAM and is read back at every address of that range with the
      same low 13 bits; the other addresses of the range read as before. */
  lemma EchoReadAfterWrite(x: Interconnect, h: Hooks, a: u16, b: u16, val: bv8)
    requires 0xC000 <= a <= 0xFDFF && 0xC000 <= b <= 0xFDFF
    ensures WriteB(x, h, a, val).Success?
    ensures WriteB(x, h, a, val).value.(wram := x.wram) == x
    ensures ReadB(WriteB(x, h, a, val).value, h, b) ==
              if a % WRAM_SZ == b % WRAM_SZ then Success(val) else ReadB(x, h, b)
  {
    WorkRamAccess(x, h, a, val);
    WorkRamAccess(x, h, b, val);
    WorkRamAccess(x.(wram := x.wram[a % WRAM_SZ := val]), h, b, val);
  }

  /** Zero-page RAM reads back what was written, and the write changes
      nothing but zero-page RAM. */
  lemma ZramReadAfterWrite(x: Interconnect, h: Hooks, a: u16, b: u16, val: bv8)
    requires 0xFF80 <= a <= 0xFFFE && 0xFF80 <= b <= 0xFFFE
    ensures WriteB(x, h, a, val).Success?
    ensures WriteB(x, h, a, val).value.(zram := x.zram) == x
    ensures ReadB(WriteB(x, h, a, val).value, h, b) ==
              if a == b then Success(val) else ReadB(x, h, b)
  {
    ZeroPageAccess(x, h, a, val);
    ZeroPageAccess(x, h, b, val);
    ZeroPageAccess(x.(zram := x.zram[a - 0xFF80 := val]), h, b, val);
  }

  /** The interrupt flag register and TIMA/TMA read back what was written;
      DIV reads 0 after any write. */
  lemma RegisterRoundTrips(x: Interconnect, h: Hooks, val: bv8)
    ensures ReadB(WriteB(x, h, 0xFF0F, val).value, h, 0xFF0F) == Success(val)
    ensures WriteB(x, h, 0xFF0F, val).value.ic == x.ic.(iflag := val)
    ensures ReadB(WriteB(x, h, 0xFF05, val).value, h, 0xFF05) == Success(val)
    ensures ReadB(WriteB(x, h, 0xFF06, val).value, h, 0xFF06) == Success(val)
    ensures ReadB(WriteB(x, h, 0xFF04, val).value, h, 0xFF04) == Success(0)
  {
  }

  /** Through the bus, TAC does not read back what was written: enabling
      the timer with 0x01 reads back as 0x04. */
  lemma TacBusMismatch(x: Interconnect, h: Hooks)
    ensures WriteB(x, h, 0xFF07, 0x01).Success?
    ensures ReadB(WriteB(x, h, 0xFF07, 0x01).value, h, 0xFF07) == Success(0x04)
  {
    Timer.TacWriteReadMismatch(x.timer);
  }

  /** `readw` fails at 0xFFFF; elsewhere it is the little-endian composition
      of two `readb`s. */
  lemma ReadWOfBytes(x: Interconnect, h: Hooks, a: u16)
    requires a < 0xFFFF && ReadB(x, h, a).Success? && ReadB(x, h, a + 1).Success?
    ensures ReadW(x, h, a) == Success(Word(ReadB(x, h, a).value, ReadB(x, h, a + 1).value))
  {
  }

  /** A 16-bit write inside work RAM or zero-page RAM reads back as the
      same word. */
  lemma WordReadAfterWrite(x: Interconnect, h: Hooks, a: u16, val: bv16)
    requires 0xC000 <= a < 0xFDFF || 0xFF80 <= a < 0xFFFE
    ensures WriteW(x, h, a, val).Success?
    ensures ReadW(WriteW(x, h, a, val).value, h, a) == Success(val)
  {
    var lo, hi := LowByte(val), HighByte(val);
    var x1 := WriteB(x, h, a, lo).value;
    var x2 := WriteB(x1, h, a + 1, hi).value;
    if a < 0xFDFF && a >= 0xC000 {
      WorkRamWordStore(x, h, a, lo, hi);
    } else {
      ZeroPageWordStore(x, h, a, lo, hi);
    }
    assert WriteW(x, h, a, val) == Success(x2);
    ReadWOfBytes(x2, h, a);
    WordBytes(val, 0, 0);
  }

  /** Two byte stores to neighbouring work-RAM addresses both read back. */
  lemma WorkRamWordStore(x: Interconnect, h: Hooks, a: u16, lo: bv8, hi: bv8)
    requires 0xC000 <= a < 0xFDFF
    ensures WriteB(x, h, a, lo).Success?
    ensures var x1 := WriteB(x, h, a, lo).value;
            && WriteB(x1, h, a + 1, hi).Success?
            && ReadB(WriteB(x1, h, a + 1, hi).value, h, a) == Success(lo)
            && ReadB(WriteB(x1, h, a + 1, hi).value, h, a + 1) == Success(hi)
  {
    ModSuccessor(a, WRAM_SZ);
    var i, j := a % WRAM_SZ, (a + 1) % WRAM_SZ;
    assert i != j;
    WorkRamAccess(x, h, a, lo);
    var x1 := x.(wram := x.wram[i := lo]);
    assert WriteB(x, h, a, lo) == Success(x1);
    WorkRamAccess(x1, h, a + 1, hi);
    var x2 := x1.(wram := x1.wram[j := hi]);
    assert WriteB(x1, h, a + 1, hi) == Success(x2);
    assert x2.wram[i] == lo && x2.wram[j] == hi;
    WorkRamAccess(x2, h, a, lo);
    WorkRamAccess(x2, h, a + 1, hi);
  }

  /** Two byte stores to neighbouring zero-page addresses both read back. */
  lemma ZeroPageWordStore(x: Interconnect, h: Hooks, a: u16, lo: bv8, hi: bv8)
    requires 0xFF80 <= a < 0xFFFE
    ensures WriteB(x, h, a, lo).Success?
    ensures var x1 := WriteB(x, h, a, lo).value;
            && WriteB(x1, h, a + 1, hi).Success?
            && ReadB(WriteB(x1, h, a + 1, hi).value, h, a) == Success(lo)
            && ReadB(WriteB(x1, h, a + 1, hi).value, h, a + 1) == Success(hi)
  {
    ZeroPageAccess(x, h, a, lo);
    var x1 := x.(zram := x.zram[a - 0xFF80 := lo]);
    ZeroPageAccess(x1, h, a + 1, hi);
    var x2 := x1.(zram := x1.zram[a + 1 - 0xFF80 := hi]);
    ZeroPageAccess(x2, h, a, lo);
    ZeroPageAccess(x2, h, a + 1, hi);
  }

  /** `step` hands back the ticks it was given and leaves memory, the
      cartridge, the boot mapping and the GPU as they were. */
  lemma StepFrame(x: Interconnect, ticks: u32)
    requires Step(x, ticks).Success?
    ensures Step(x, ticks).value.1 == ticks
    ensures var y := Step(x, ticks).value.0;
              y.wram == x.wram && y.zram == x.zram && y.cart == x.cart &&
              y.bootMode == x.bootMode && y.gpu == x.gpu
  {
  }
}
