# iogb core in Dafny

A model of the emulated hardware of iogb, an early Game Boy emulator
written in Rust, with proofs about it. The model covers these parts of
the console:

- the interrupt controller;
- the timer (DIV, TIMA, TMA, TAC);
- the cartridge header decoding and its ROM/RAM reads;
- the GPU register file with its mode-gated VRAM and OAM;
- the two memory buses, the older `Mmu` and the newer `Interconnect`;
- the CPU's fetch helpers and its decoder;
- the cycle clock.

Each component is an immutable datatype. Each of its operations is a
pure function that returns the new state. Bytes are `bv8` and words are
`bv16`. Addresses and 32-bit counters are integer subset types (`u16`,
`u32`).

The model follows the code as written, quirks included:

- `set_tac` and `get_tac` use different bit layouts.
- The timer's `icounter` is never reset.
- MBC1 adds the bank offset to an address that is already at least 0x4000.
- `read_ram` opens its gate only when the RAM is empty, so a read through
  the open gate always fails; with the gate closed it returns 0.
- `Interconnect::readb` has no arm for 0xFF50-0xFF7F.
- OAM is indexed by `addr & 0x9F`, which clears bits 5 and 6. OAM bytes
  0x20-0x7F can never be reached, and 0xFE00, 0xFE20, 0xFE40 and 0xFE60
  all reach index 0.
- No operation gpu.rs defines changes the GPU mode, so a new GPU, which
  starts in AccessingOam mode, keeps OAM closed under them forever. The
  tile and register hooks are unconstrained, so through the bus this is
  not proved.

Each quirk is exhibited by a member's contract:

- `Timer.TacReadWriteMismatch` and `Timer.TacWriteReadMismatch`;
- `Timer.ThresholdStaysReached`;
- `Cartridge.Mbc1WindowShowsNextBank`;
- `Cartridge.ReadRam`;
- `Interconnect.ReadB`;
- `Gpu.OamIndexSkipsMiddle`;
- `Gpu.OamStaysBlocked`.

Every `panic!` is a `Failure` of a `Result`. This includes the integer
overflow panics of a debug build: `addr + 1` in a 16-bit access, `pc += n`,
and the timer's and clock's `u32` additions.
A Rust `Option` return value stays an `Option`.

Some methods are called but defined nowhere in the code:

- the GPU's tile, STAT, LY, LYC and palette accessors;
- `InterruptController::enable_all_interrupts`;
- `Bootrom::readb` and `Bootrom::is_used`.

These are parameters, gathered in `Interconnect.Hooks`. Every property
proved about the bus holds whatever those functions do.

Files:

- `wrappers.dfy`: `Option` and `Result`.
- `bits.dfy`: the bitwise AND on naturals used for the address masks, and
  its modulo lemmas.
- `utf8.dfy`: the UTF-8 well-formedness check applied to the title.
- One file per component: `interrupt.dfy`, `timer.dfy`, `cartridge.dfy`,
  `gpu.dfy`, `mmu.dfy`, `interconnect.dfy`, `cpu.dfy` and `clock.dfy`.

## Model

| member | source | states |
|---|---|---|
| Interrupt.Bit | src/interrupt/interrupt.rs:4-10 | each source's discriminant is a single bit |
| Interrupt.BitPosition | src/interrupt/interrupt.rs:4-10 | the discriminant of the source is `1 << Index(i)`: VBlank at bit 0 up to Joypad at bit 4 |
| Interrupt.Vector | src/interrupt/interrupt.rs:13-22 | the handler address is 0x40 + 8 × the source's bit index |
| Interrupt.New | src/interrupt/interrupt.rs:41-47 | a new controller has `ime` off and IF = IE = 0, so no source is requested or enabled |
| Interrupt.GetInterrupt | src/interrupt/interrupt.rs:49-68 | `None` exactly when IF & IE is 0 or `ime` is off; a source exactly when `ime` is on and IF & IE has a bit among bits 0-4; that source is serviceable and has the lowest index of all serviceable ones; a panic exactly when IF & IE is nonzero only in bits 5-7 |
| Interrupt.PendingBit | src/interrupt/interrupt.rs:51 | a source's bit is set in IF & IE exactly when the source is both requested and enabled |
| Interrupt.Lowest | src/interrupt/interrupt.rs:55-65 | the priority chain yields a source exactly when one of bits 0-4 is set; that source's bit is set, and no set source has a lower index |
| Interrupt.LowestIsServiceable | src/interrupt/interrupt.rs:49-64 | with `ime` on, the source the chain picks from IF & IE is requested and enabled, and every serviceable source has an index at least as high |
| Interrupt.SomeServiceable | src/interrupt/interrupt.rs:51-64 | some source is serviceable iff `ime` is on and IF & IE & 0x1F ≠ 0 |
| Interrupt.Reset | src/interrupt/interrupt.rs:70-72 | clears the source's IF bit, keeps every other IF bit, IE and `ime` |
| Interrupt.Request | src/interrupt/interrupt.rs:74-76 | sets the source's IF bit, keeps every other IF bit, IE and `ime` |
| Interrupt.RequestPendingSet | src/interrupt/interrupt.rs:74-76 | after a request, the requested sources are the old ones plus the new one |
| Interrupt.ResetPendingSet | src/interrupt/interrupt.rs:70-72 | after a reset, the requested sources are the old ones minus the reset one |
| Interrupt.RequestIdempotent | src/interrupt/interrupt.rs:74-76 | requesting twice is requesting once |
| Interrupt.ResetAfterRequest | src/interrupt/interrupt.rs:70-76 | reset after request leaves the bit clear, equals a plain reset, and undoes the request if the bit was clear |
| Interrupt.RequestedIsDispatched | src/interrupt/interrupt.rs:49-76 | with `ime` on and the source enabled, after a request `get_interrupt` returns it or a source of higher priority |
| Interrupt.VBlankBeforeTimer | src/interrupt/interrupt.rs:55-60 | VBlank and Timer both pending and enabled: VBlank is dispatched |
| Timer.ToCycles | src/timer/timer.rs:13-21 | cycles per TIMA increment × frequency = 2^20 for every frequency |
| Timer.New | src/timer/timer.rs:47-57 | a new timer reads 0 in DIV, TIMA, TMA and TAC, is disabled and has zero sub-counters |
| Timer.SetDiv | src/timer/timer.rs:59-65 | a DIV write makes DIV read 0 whatever the value and changes nothing else |
| Timer.SetTima | src/timer/timer.rs:67-73 | TIMA reads back the written value; nothing else changes |
| Timer.SetTma | src/timer/timer.rs:75-81 | TMA reads back the written value; nothing else changes |
| Timer.TimaTmaRoundTrip | src/timer/timer.rs:67-81 | read-after-write and write-after-read identities for TIMA and TMA; a second write overrides; neither touches the other |
| Timer.GetTac | src/timer/timer.rs:83-92 | bit 2 is the enable flag; the other bits are the clock code |
| Timer.SetTac | src/timer/timer.rs:94-104 | succeeds iff `val >> 2` is one of 0x00, 0x01, 0x10, 0x11; the frequency is the one with that code, the enable flag is bit 0, and nothing else changes |
| Timer.TacReadWriteMismatch | src/timer/timer.rs:83-104 | writing back what TAC reads fails for the two upper codes, and otherwise swaps the enable flag with the low clock bit |
| Timer.TacWriteReadMismatch | src/timer/timer.rs:83-104 | writing 0x01 reads back as 0x04 |
| Timer.StepDiv | src/timer/timer.rs:126-134 | fails iff `idiv + cycles` overflows u32; DIV advances by at most one (wrapping) exactly when `idiv + cycles` ≥ 0xFF; `idiv + cycles` = new `idiv` + 0xFF × the increment; nothing else changes |
| Timer.StepDivKeepsIdivBelow | src/timer/timer.rs:126-134 | from `idiv` < 0xFF, adding at most 0xFF cycles keeps `idiv` < 0xFF |
| Timer.Step | src/timer/timer.rs:106-124 | fails iff a u32 sub-counter overflows; DIV moves as in `step_div`; when disabled nothing else changes; when enabled `icounter` grows by the cycles, TIMA is unchanged while `icounter` is below the threshold, and at or above it TIMA increments or, at 0xFF, reloads from TMA and requests the Timer interrupt |
| Timer.ThresholdStaysReached | src/timer/timer.rs:113-122 | `icounter` is never reset, so once at the threshold every later enabled step advances or reloads TIMA |
| Timer.OverflowRequestsOnlyTimer | src/timer/timer.rs:115-122 | a step changes no IF bit but the Timer bit (bit 2), and neither IE nor `ime` |
| Timer.StepAllMonotone | src/timer/timer.rs:106-124 | over any run of steps `icounter` never decreases and the enable flag and frequency stay fixed |
| Timer.StepAllDisabled | src/timer/timer.rs:106-111 | a disabled timer changes only DIV and `idiv` over any run, and never touches the interrupt controller |
| Utf8.FirstCharLength | src/cartridge/cartridge.rs:54-57 | the length of a well-formed leading character (Unicode Table 3-7): 1 exactly for ASCII, at most 4, continuation bytes after the first |
| Utf8.AsciiIsValid | src/cartridge/cartridge.rs:54-57 | seven-bit ASCII passes the UTF-8 check |
| Utf8.ValidBeforeNuls | src/cartridge/cartridge.rs:54-60 | cutting trailing NULs off valid UTF-8 leaves valid UTF-8 |
| Cartridge.FromHeader | src/cartridge/cartridge.rs:20-26 | 0x00 is no controller, 0x01-0x03 are MBC1, anything else is rejected |
| Cartridge.TrimNul | src/cartridge/cartridge.rs:60 | the result is a prefix that does not end in NUL, and every byte cut off is NUL |
| Cartridge.Decode | src/cartridge/cartridge.rs:46-67 | succeeds iff the image is long enough, the controller byte is at most 0x03, the RAM-size byte is 0 and the title bytes are UTF-8; each failure is the first check the code makes that fails (byte 0x147 missing, unknown controller, byte 0x149 missing, unknown RAM size, invalid UTF-8); the result keeps the image, RAM empty, ROM bank 1, RAM bank 0, RAM disabled; the title is the 0x134..0x143 bytes minus trailing NULs, valid UTF-8 |
| Cartridge.Assemble | src/cartridge/cartridge.rs:52-67 | the cartridge built from a passing header keeps the image as ROM and the controller, has empty disabled RAM, ROM bank 1 and RAM bank 0, and a title that is the title field minus trailing NULs and valid UTF-8 |
| Cartridge.ReadRom | src/cartridge/cartridge.rs:78-90 | fails iff the image is empty; otherwise the byte read is a byte of the image |
| Bits.AndLowMask | src/cartridge/cartridge.rs:89 | masking with 2^k − 1 is reduction modulo 2^k |
| Cartridge.ReadRomPow2 | src/cartridge/cartridge.rs:78-90 | for a power-of-two image `read_rom` reads the computed address modulo the size |
| Cartridge.ReadRomDirect | src/cartridge/cartridge.rs:79-89 | without a controller, and below 0x4000 with MBC1, an address inside a power-of-two image reads the byte at that address |
| Cartridge.Mbc1WindowShowsNextBank | src/cartridge/cartridge.rs:81-89 | MBC1's window 0x4000-0x7FFF shows bank `rom_bank + 1` (modulo the bank count) |
| Cartridge.ReadRam | src/cartridge/cartridge.rs:92-98 | fails iff the gate is open (enable 0x0A) and RAM is empty; every successful read is 0 |
| Cartridge.WritesChangeNothing | src/cartridge/cartridge.rs:100-101 | any run of ROM/RAM writes leaves the cartridge unchanged, so with RAM disabled every RAM read is 0 |
| Cartridge.DecodedCartridgeReads | src/cartridge/cartridge.rs:59-98 | a decoded cartridge reads RAM as 0 and never fails a ROM read |
| Gpu.New | src/gpu/gpu.rs:27-39 | a new GPU is in AccessingOam mode (OAM closed, VRAM open), LCDC and the scroll and window registers read 0, and VRAM reads 0 |
| Gpu.VramIndex | src/gpu/gpu.rs:46 | `addr & (VRAM_SZ - 1)` is `addr` modulo 0x2000, inside VRAM |
| Gpu.OamIndex | src/gpu/gpu.rs:108 | `addr & (OAM_SZ - 1)` is inside OAM |
| Gpu.OamIndexSkipsMiddle | src/gpu/gpu.rs:104-116 | the OAM index `addr & 0x9F` is below 0x20 or at least 0x80, so OAM bytes 0x20-0x7F are unreachable |
| Gpu.ReadVram | src/gpu/gpu.rs:41-47 | 0xFF in AccessingVram, otherwise the VRAM byte at `addr` modulo 0x2000 |
| Gpu.WriteVram | src/gpu/gpu.rs:49-55 | no effect in AccessingVram; otherwise changes only VRAM |
| Gpu.VramReadAfterWrite | src/gpu/gpu.rs:41-55 | outside AccessingVram a write is read back at every address congruent modulo 0x2000 and other addresses read as before |
| Gpu.ReadOam | src/gpu/gpu.rs:104-109 | 0xFF in AccessingOam and AccessingVram, otherwise the OAM byte at the masked index |
| Gpu.WriteOam | src/gpu/gpu.rs:111-116 | ignored in AccessingOam and AccessingVram; otherwise changes only OAM, is read back, and every address with another masked index reads as before |
| Gpu.OamReadAfterWrite | src/gpu/gpu.rs:104-116 | outside the OAM-closing modes a write is read back at every address with the same masked index and other addresses read as before; inside them the write is ignored |
| Gpu.WriteLcdc | src/gpu/gpu.rs:57-60 | the display flag is bit 7, the background flag bit 0; nothing else changes |
| Gpu.ReadLcdc | src/gpu/gpu.rs:62-64 | bit 7 is the display flag, bit 0 the background flag, bits 1-6 are clear |
| Gpu.LcdcRoundTrip | src/gpu/gpu.rs:57-64 | LCDC reads back the written value masked with 0x81 |
| Gpu.ScrollWindowRoundTrip | src/gpu/gpu.rs:66-96 | SCX, SCY, WX and WY read back what was written and each write changes only its own register |
| Gpu.StepIsIdentity | src/gpu/gpu.rs:98-102 | `step` changes neither the GPU nor the interrupt controller |
| Gpu.ApplyKeepsModeAndOam | src/gpu/gpu.rs:41-116 | no single GPU operation changes the mode, and none changes OAM while OAM is closed |
| Gpu.RunKeepsMode | src/gpu/gpu.rs:41-116 | no sequence of GPU operations changes the mode |
| Gpu.RunKeepsOamWhileBlocked | src/gpu/gpu.rs:104-116 | while OAM is closed, no sequence of operations changes it |
| Gpu.OamStaysBlocked | src/gpu/gpu.rs:27-39 | from a new GPU, OAM reads 0xFF and keeps its initial contents forever |
| Mmu.Decode | src/mmu/mmu.rs:22-35 | work RAM and echo at 0xC000-0xFDFF use `addr` modulo 0x2000; zero-page RAM at 0xFF80-0xFFFE uses `addr` − 0xFF80; only 0xFEA0-0xFEFF and 0xFFFF have no arm |
| Mmu.New | src/mmu/mmu.rs:14-20 | every readable address of a new bus reads 0 |
| Mmu.ReadB | src/mmu/mmu.rs:22-35 | fails exactly on 0xFEA0-0xFEFF and 0xFFFF; ROM, GPU, cart RAM, OAM and I/O ranges read 0 |
| Mmu.WriteB | src/mmu/mmu.rs:37-50 | fails exactly on 0xFEA0-0xFEFF and 0xFFFF; writes to ROM, GPU, cart RAM, OAM and I/O ranges change nothing |
| Mmu.ReadAfterWrite | src/mmu/mmu.rs:22-50 | a write is read back at every address that reaches the same storage byte; every other address reads as before |
| Mmu.EchoReadAfterWrite | src/mmu/mmu.rs:28-29 | a write in 0xC000-0xFDFF is seen at every address of that range with the same low 13 bits |
| Mmu.ZramReadAfterWrite | src/mmu/mmu.rs:32 | zero-page RAM reads back what was written |
| Mmu.ReadW | src/mmu/mmu.rs:52-54 | succeeds iff both bytes can be read and `addr + 1` does not overflow; low byte from `addr`, high byte from `addr + 1` |
| Mmu.WriteW | src/mmu/mmu.rs:56-59 | succeeds iff neither `addr` nor `addr + 1` is a hole and `addr + 1` does not overflow; then every address reads the high byte if it reaches the storage byte of `addr + 1`, else the low byte if it reaches that of `addr`, else what it read before; `bios` is kept |
| Mmu.TwoStores | src/mmu/mmu.rs:56-59 | after a byte store to `a` and one to `a + 1`, every address reads the later store where both reach it, the earlier where only it does, and its old value elsewhere |
| Mmu.ReadWOfBytes | src/mmu/mmu.rs:52-54 | `readw` is the little-endian composition of the two `readb`s |
| Mmu.NeighboursDistinct | src/mmu/mmu.rs:28-32 | the two bytes of a word inside work or zero-page RAM are different storage bytes |
| Mmu.WordReadAfterWrite | src/mmu/mmu.rs:52-59 | a word written in work or zero-page RAM reads back unchanged |
| Bits.WordBytes | src/interconnect/interconnect.rs:169-176 | splitting a word into low and high byte and joining them back are inverse |
| Interconnect.Decode | src/interconnect/interconnect.rs:79-163 | the exact address range of every arm: boot overlay 0x0000-0x00FF, ROM 0x0100-0x7FFF, tile set and tile maps 0x8000-0x9FFF with their masks, cart RAM 0xA000-0xBFFF, work RAM and echo modulo 0x2000, OAM 0xFE00-0xFE9F, gap 0xFEA0-0xFEFF, each I/O register at its address, the MMIO ranges, 0xFF50, 0xFF51-0xFF7F, zero page at `addr` − 0xFF80, IE at 0xFFFF |
| Interconnect.DecodeMemory | src/interconnect/interconnect.rs:81-97 | the arms below the I/O page: boot overlay, ROM, tiles, cart RAM, work RAM modulo 0x2000, OAM and gap, each exactly on its range |
| Interconnect.DecodeTiles | src/interconnect/interconnect.rs:89-91 | the tile set at 0x8000-0x97FF through `addr & 0x17FF`, tile map 1 at 0x9800-0x9BFF and tile map 2 at 0x9C00-0x9FFF through `addr & 0x03FF` |
| Interconnect.WramIndex | src/interconnect/interconnect.rs:94-95 | `addr & 0x1FFF` is the address modulo 0x2000, inside work RAM |
| Interconnect.DecodeIo | src/interconnect/interconnect.rs:98-121 | each I/O register (timer, IF, LCDC, STAT, SCY, SCX, LY, LYC, BGP, OBP0, OBP1, WY, WX, 0xFF50) exactly at its address, the MMIO ranges, and 0xFF51-0xFF7F |
| Interconnect.ReadB | src/interconnect/interconnect.rs:79-123 | 0xFF50-0xFF7F fail as unmapped; any other failure is a cartridge fault at a ROM or cart-RAM address; with a readable cartridge, reads fail exactly on 0xFF50-0xFF7F; OAM reads through `addr & 0x9F`; the gap and MMIO read 0; cartridge RAM reads through `read_ram`; DIV, TIMA, TMA and TAC read through the timer's getters and 0xFF0F reads the flag byte; 0xFFFF reads IE |
| Interconnect.WriteB | src/interconnect/interconnect.rs:125-163 | every address has an arm; the only failure is an invalid TAC value written to 0xFF07; OAM is written through `addr & 0x9F`; writes to ROM, cartridge RAM, the gap, MMIO and 0xFF51-0xFF7F change nothing; DIV, TIMA and TMA are written through the timer's setters, a valid TAC through `set_tac`, and 0xFF0F sets the flag byte; 0xFFFF is written through `enable_all_interrupts` |
| Interconnect.BootOverlayReads | src/interconnect/interconnect.rs:81-88 | 0x0000-0x00FF read the boot ROM while `boot_mode` holds, else the cartridge; 0x0100-0x7FFF always read the cartridge |
| Interconnect.TileRouting | src/interconnect/interconnect.rs:89-130 | video memory is read and written through the tile hooks with the area and offset of `DecodeTiles` |
| Interconnect.OamAndGapRouting | src/interconnect/interconnect.rs:96-136 | OAM is read and written through the GPU at `addr & 0x9F`; the gap reads 0 and ignores writes |
| Interconnect.MmioRouting | src/interconnect/interconnect.rs:98-159 | the MMIO addresses read 0 and ignore writes; 0xFF51-0xFF7F ignore writes |
| Interconnect.GpuRegisterRouting | src/interconnect/interconnect.rs:106-156 | LCDC, SCY, SCX, WY and WX are read and written through the GPU's own register accessors |
| Interconnect.HookRegisterRouting | src/interconnect/interconnect.rs:107-154 | STAT, LY, LYC, BGP, OBP0 and OBP1 are read and written through the GPU register hooks |
| Interconnect.CartridgeRouting | src/interconnect/interconnect.rs:88-131 | a store to 0x0000-0x7FFF or 0xA000-0xBFFF leaves the whole interconnect unchanged; a read of 0xA000-0xBFFF is `read_ram`'s answer |
| Interconnect.TimerRouting | src/interconnect/interconnect.rs:99-143 | 0xFF04-0xFF07 read through `get_div`, `get_tima`, `get_tma` and `get_tac` and 0xFF04-0xFF06 are written through `set_div`, `set_tima` and `set_tma`; a valid TAC byte is stored by `set_tac`; 0xFF0F reads and writes the flag byte |
| Interconnect.IeRouting | src/interconnect/interconnect.rs:120-161 | 0xFFFF reads IE and is written through `enable_all_interrupts` |
| Interconnect.BootRegisterWrite | src/interconnect/interconnect.rs:158 | writing 0xFF50 sets `boot_mode` to "value ≠ 1" and changes nothing else; after writing 1 the low page reads the cartridge |
| Interconnect.WorkRamAccess | src/interconnect/interconnect.rs:94-134 | every address of 0xC000-0xFDFF reads and writes work RAM at the address modulo 0x2000, and a write changes nothing else |
| Interconnect.ZeroPageAccess | src/interconnect/interconnect.rs:119-160 | every address of 0xFF80-0xFFFE reads and writes zero-page RAM at the address minus 0xFF80, and a write changes nothing else |
| Interconnect.EchoReadAfterWrite | src/interconnect/interconnect.rs:94-95 | a work-RAM write changes only work RAM and is read back at every address of 0xC000-0xFDFF congruent modulo 0x2000; other addresses read as before |
| Interconnect.ZramReadAfterWrite | src/interconnect/interconnect.rs:119 | a zero-page write changes only zero-page RAM, reads back, and leaves other zero-page addresses as they were |
| Interconnect.RegisterRoundTrips | src/interconnect/interconnect.rs:99-104 | IF, TIMA and TMA read back what was written through the bus; DIV reads 0 after any write |
| Interconnect.TacBusMismatch | src/interconnect/interconnect.rs:102 | through the bus, TAC written with 0x01 reads back as 0x04 |
| Interconnect.ReadW | src/interconnect/interconnect.rs:169-171 | fails at 0xFFFF by overflow; succeeds iff both bytes can be read; low byte from `addr`, high byte from `addr + 1` |
| Interconnect.WriteW | src/interconnect/interconnect.rs:173-176 | succeeds iff the low-byte write, the increment and the high-byte write all succeed; at 0xFFFF it fails by overflow after the low byte is stored; a successful store is the low-byte `writeb` followed by the high-byte `writeb` |
| Interconnect.ReadWOfBytes | src/interconnect/interconnect.rs:169-171 | `readw` is the little-endian composition of the two `readb`s |
| Interconnect.WorkRamWordStore | src/interconnect/interconnect.rs:133-134 | two byte stores to neighbouring work-RAM addresses both succeed and both read back |
| Interconnect.ZeroPageWordStore | src/interconnect/interconnect.rs:160 | two byte stores to neighbouring zero-page addresses both succeed and both read back |
| Interconnect.WordReadAfterWrite | src/interconnect/interconnect.rs:169-176 | a word written in work or zero-page RAM reads back unchanged |
| Interconnect.Step | src/interconnect/interconnect.rs:178-183 | succeeds iff the timer step does; the timer and controller advance exactly as the timer's `step` for `ticks`; `ticks` is returned; everything else is as before |
| Interconnect.StepFrame | src/interconnect/interconnect.rs:178-183 | `step` returns its ticks and leaves memory, cartridge, boot mapping and GPU alone |
| Interconnect.New | src/interconnect/interconnect.rs:25-41 | with a boot ROM in use, the new bus maps it (`boot_mode`), keeps the cartridge, has a new timer, interrupt controller and GPU, and work and zero-page RAM read 0; without one it fails on the overflowing last store of the register seeding |
| Interconnect.HarmlessStoreSucceeds | src/interconnect/interconnect.rs:173-176 | a 16-bit store below 0xFFFF whose bytes put no invalid value into TAC succeeds |
| Interconnect.StoresEndInOverflow | src/interconnect/interconnect.rs:173-176 | stores that cannot fail, followed by one to 0xFFFF, end in the overflow of that last store |
| Interconnect.FakeBootRomOverflows | src/interconnect/interconnect.rs:43-77 | the register seeding fails on its final store to IE at 0xFFFF |
| Cpu.Mask | src/cpu/cpu.rs:9-14 | each flag is one bit, at position 4 to 7, in the upper nibble of F |
| Cpu.FlagsFillUpperNibble | src/cpu/cpu.rs:9-14 | the four flags are pairwise disjoint and together make 0xF0 |
| Cpu.DefaultRegisters | src/cpu/cpu.rs:16-28 | every register, `pc` and `sp` included, is 0 |
| Cpu.New | src/cpu/cpu.rs:31-36 | a new CPU has default registers over a new bus that reads 0 |
| Cpu.FetchB | src/cpu/cpu.rs:38-42 | succeeds iff the byte at `pc` can be read and `pc + 1` does not overflow; returns that byte; `pc` advances by one and nothing else changes |
| Cpu.FetchW | src/cpu/cpu.rs:44-48 | returns the bus's word at `pc`; `pc` advances by two and nothing else changes |
| Cpu.FetchWIsTwoFetchB | src/cpu/cpu.rs:38-48 | `fetchw` succeeds iff two `fetchb`s do, and then equals them composed little-endian, with the same final state |
| Cpu.Dexec | src/cpu/cpu.rs:51-59 | never succeeds: after a successful fetch it reports the opcode as unimplemented with `pc` advanced by one; otherwise it fails as the fetch did |
| Cpu.NewCpuStopsAtOnce | src/cpu/cpu.rs:31-59 | a new CPU fetches 0 from address 0 and stops with it at pc 1 |
| Clock.Default | src/cpu/clk.rs:1-4 | a default clock has 0 cycles |
| Clock.Tick | src/cpu/clk.rs:7-9 | adds exactly 4 cycles; fails iff that overflows u32 |
| Clock.AddCycles | src/cpu/clk.rs:11-13 | adds exactly `n` cycles; fails iff that overflows u32 |
| Clock.RunAdds | src/cpu/clk.rs:7-13 | a run of ticks and additions completes iff the total fits in u32, and then adds exactly the total |
| Clock.RunMonotone | src/cpu/clk.rs:7-13 | the cycle count never decreases |

## Left out

- `src/renderer.rs`, `src/main.rs`, `src/gameboy.rs` and `src/gb.rs` are not part of this model. They hold drawing, argument parsing and the run loop. The run loop calls CPU functions that `cpu.rs` does not define.
- Reading the ROM and boot ROM files is left out: `Cartridge::open_rom` and `bootrom.rs`. `Cartridge.Decode` takes the image bytes, and the boot ROM is the `bootRead` hook.
- The `Debug` implementations and the debug `print!` in `writeb` are left out. They only produce output.
- `fake_boot_rom`'s stores to the sound registers 0xFF10-0xFF26 are left out of `FAKE_BOOT_STORES`. Both bytes of each of those stores land on arms that do nothing.
- Interconnect.New: the state reached when the seeding fails is not modelled. The seeding always fails, so only the failure is stated.
- Only debug-build arithmetic is modelled: every overflow is a failure. A release build would wrap `addr + 1`, `pc += n` and the `u32` counters instead.
- Nothing in the code implements these, so the model has none of them: PPU mode sequencing and frame production, MBC bank-select writes, DMA, the instruction set, HALT, and the joypad register.
- `Mmu.bios` is allocated but never read or written, and the model keeps it so.
- Cpu.Dexec: the panic message names `self.regs.pc`, but the field is `reg`. The model reads the `pc` of `reg`.
- Cartridge.Decode: the title is kept as its UTF-8 bytes, not as a `String` of characters.
