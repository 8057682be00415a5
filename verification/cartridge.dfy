/** The cartridge: header decoding of a ROM image already read into
    memory, and the ROM/RAM accesses of its memory-bank controller.
    Header problems that panic in the source (an image too short for the
    header byte being read, an unknown controller or RAM size, a title that
    is not UTF-8) are `Failure`s here. */
module Cartridge {
  import opened Wrappers
  import opened Bits
  import Utf8

  const ROM_BANK_SZ: nat := 0x4000
  const RAM_BANK_SZ: nat := 0x2000

  /** Header offsets. */
  const TITLE_START: nat := 0x134
  const TITLE_END: nat := 0x143   // exclusive
  const MBC_TYPE: nat := 0x147
  const RAM_SIZE: nat := 0x149

  datatype Mbc = NoMbc | Mbc1

  datatype CartError =
    | Truncated(index: nat)        // header byte `index` lies past the image
    | UnknownMbc(code: bv8)
    | UnknownRamSize(code: bv8)
    | InvalidUtf8
    | EmptyRom                     // `rom.len() - 1` underflows
    | RamOutOfBounds(index: nat)

  datatype Cartridge = Cartridge(
    title: seq<bv8>,
    mbc: Mbc,
    rom: seq<bv8>,
    romBank: bv8,
    ram: seq<bv8>,
    ramBank: bv8,
    ramEnable: bv8)

  /** `Mbc::from_header`: code 0x00 is a bare ROM, codes 0x01 to 0x03 are
      MBC1 (with or without RAM and battery), anything else is rejected. */
  function FromHeader(code: bv8): (r: Result<Mbc, CartError>)
    ensures r.Success? <==> code <= 0x03
    ensures r == Success(NoMbc) <==> code == 0x00
    ensures r.Failure? ==> r.error == UnknownMbc(code)
  {
    if code == 0x00 then Success(NoMbc)
    else if code == 0x01 || code == 0x02 || code == 0x03 then Success(Mbc1)
    else Failure(UnknownMbc(code))
  }

  /** `trim_right_matches('\0')` on the title: the longest prefix that does
      not end in NUL, all of whose cut-off bytes are NUL. */
  function TrimNul(s: seq<bv8>): (r: seq<bv8>)
    ensures r <= s
    ensures |r| == 0 || r[|r| - 1] != 0
    ensures forall k | |r| <= k < |s| :: s[k] == 0
    decreases |s|
  {
    if |s| > 0 && s[|s| - 1] == 0 then TrimNul(s[..|s| - 1]) else s
  }

  /** The header checks `Cartridge::new` makes, in the order it makes them,
      all of which pass. */
  predicate WellFormedHeader(buf: seq<bv8>) {
    && |buf| > RAM_SIZE
    && buf[MBC_TYPE] <= 0x03
    && buf[RAM_SIZE] == 0x00
    && Utf8.Valid(buf[TITLE_START..TITLE_END])
  }

  /** `Cartridge::new` after the image has been read: the controller from
      byte 0x147, the RAM size from byte 0x149 (only "none" is known), the
      title from bytes 0x134 to 0x142 without trailing NULs; ROM bank 1 is
      selected, RAM bank 0, RAM disabled. */
  function Decode(buf: seq<bv8>): (r: Result<Cartridge, CartError>)
    ensures r.Success? <==> WellFormedHeader(buf)
    ensures |buf| <= MBC_TYPE ==> r == Failure(Truncated(MBC_TYPE))
    ensures |buf| > MBC_TYPE && buf[MBC_TYPE] > 0x03 ==> r == Failure(UnknownMbc(buf[MBC_TYPE]))
    ensures |buf| > MBC_TYPE && buf[MBC_TYPE] <= 0x03 && |buf| <= RAM_SIZE ==>
              r == Failure(Truncated(RAM_SIZE))
    ensures |buf| > RAM_SIZE && buf[MBC_TYPE] <= 0x03 && buf[RAM_SIZE] != 0x00 ==>
              r == Failure(UnknownRamSize(buf[RAM_SIZE]))
    ensures |buf| > RAM_SIZE && buf[MBC_TYPE] <= 0x03 && buf[RAM_SIZE] == 0x00 &&
            !Utf8.Valid(buf[TITLE_START..TITLE_END]) ==>
              r == Failure(InvalidUtf8)
    ensures r.Success? ==>
              && r.value.rom == buf
              && (r.value.mbc == NoMbc <==> buf[MBC_TYPE] == 0x00)
              && r.value.ram == []
              && r.value.romBank == 1 && r.value.ramBank == 0 && r.value.ramEnable == 0
    ensures r.Success? ==>
              var t := r.value.title;
              && t <= buf[TITLE_START..TITLE_END]
              && (|t| == 0 || t[|t| - 1] != 0)
              && (forall k | TITLE_START + |t| <= k < TITLE_END :: buf[k] == 0)
              && Utf8.Valid(t)
  {
    if |buf| <= MBC_TYPE then Failure(Truncated(MBC_TYPE))
    else
      var mbc :- FromHeader(buf[MBC_TYPE]);
      if |buf| <= RAM_SIZE then Failure(Truncated(RAM_SIZE))
      else if buf[RAM_SIZE] != 0x00 then Failure(UnknownRamSize(buf[RAM_SIZE]))
      else if !Utf8.Valid(buf[TITLE_START..TITLE_END]) then Failure(InvalidUtf8)
      else Success(Assemble(buf, mbc))
  }

  /** The cartridge built from a header that passed every check: the title
      without trailing NULs, the image as ROM, ROM bank 1, RAM bank 0, RAM
      empty and disabled. */
  function Assemble(buf: seq<bv8>, mbc: Mbc): (c: Cartridge)
    requires |buf| >= TITLE_END && Utf8.Valid(buf[TITLE_START..TITLE_END])
    ensures c.rom == buf && c.mbc == mbc && c.ram == []
    ensures c.romBank == 1 && c.ramBank == 0 && c.ramEnable == 0
    ensures var t := c.title;
            && t <= buf[TITLE_START..TITLE_END]
            && (|t| == 0 || t[|t| - 1] != 0)
            && (forall k | TITLE_START + |t| <= k < TITLE_END :: buf[k] == 0)
            && Utf8.Valid(t)
  {
    var titleBuf := buf[TITLE_START..TITLE_END];
    var title := TrimNul(titleBuf);
    Utf8.ValidBeforeNuls(titleBuf, |title|);
    assert titleBuf[..|title|] == title;
    NulTail(buf, |title|);
    Cartridge(title, mbc, buf, 1, [], 0, 0)
  }

  /** The bytes `TrimNul` cuts from the title field, at their offsets in
      the image. */
  lemma NulTail(buf: seq<bv8>, n: nat)
    requires |buf| >= TITLE_END && n <= TITLE_END - TITLE_START
    requires forall k | n <= k < TITLE_END - TITLE_START :: buf[TITLE_START..TITLE_END][k] == 0
    ensures forall k | TITLE_START + n <= k < TITLE_END :: buf[k] == 0
  {
    forall k | TITLE_START + n <= k < TITLE_END
      ensures buf[k] == 0
    {
      assert buf[k] == buf[TITLE_START..TITLE_END][k - TITLE_START];
    }
  }

  /** The `usize` address `read_rom` computes before masking. With MBC1 the
      bank offset is added to the address itself, which for the switchable
      window is already at least 0x4000. */
  function RomAddress(c: Cartridge, addr: u16): nat
  {
    match c.mbc
    case NoMbc => addr
    case Mbc1 =>
      if addr < ROM_BANK_SZ then addr
      else addr + c.romBank as int * ROM_BANK_SZ
  }

  /** `read_rom`: the byte at the address masked with `len - 1`, which is
      always inside the image; an empty image underflows the mask. */
  function ReadRom(c: Cartridge, addr: u16): (r: Result<bv8, CartError>)
    ensures r.Success? <==> |c.rom| > 0
    ensures r.Success? ==> r.value in c.rom
  {
    if |c.rom| == 0 then Failure(EmptyRom)
    else Success(c.rom[And(RomAddress(c, addr), |c.rom| - 1)])
  }

  /** `read_ram`: the gate tests `is_empty()`, so when it opens (enable
      register 0x0A) the RAM is empty and the index misses; otherwise the
      read yields 0. No read ever returns a RAM byte. */
  function ReadRam(c: Cartridge, addr: u16): (r: Result<bv8, CartError>)
    ensures r.Success? <==> !(c.ramEnable == 0x0A && |c.ram| == 0)
    ensures r.Success? ==> r.value == 0
  {
    if c.ramEnable == 0x0A && |c.ram| == 0 then
      // the index into the (empty) RAM is out of bounds whatever it is
      Failure(RamOutOfBounds(And(addr, RAM_BANK_SZ - 1) + c.ramBank as int * RAM_BANK_SZ))
    else Success(0)
  }

  /** `write_rom` and `write_ram` have empty bodies: bank-select and RAM
      writes are ignored. */
  function WriteRom(c: Cartridge, addr: u16, val: bv8): Cartridge { c }
  function WriteRam(c: Cartridge, addr: u16, val: bv8): Cartridge { c }

  datatype CartWrite = RomWrite(addr: u16, val: bv8) | RamWrite(addr: u16, val: bv8)

  function ApplyWrites(c: Cartridge, ws: seq<CartWrite>): Cartridge
    decreases |ws|
  {
    if |ws| == 0 then c
    else
      var c' := match ws[0]
        case RomWrite(a, v) => WriteRom(c, a, v)
        case RamWrite(a, v) => WriteRam(c, a, v);
      ApplyWrites(c', ws[1..])
  }

  /** For an image whose length is a power of two, `read_rom` reads the
      computed address modulo the image size. */
  lemma ReadRomPow2(c: Cartridge, addr: u16, k: nat)
    requires |c.rom| == Pow2(k)
    ensures ReadRom(c, addr) == Success(c.rom[RomAddress(c, addr) % |c.rom|])
  {
    AndLowMask(RomAddress(c, addr), k);
  }

  /** Without a controller, and in MBC1's fixed bank, an address inside a
      power-of-two image reads the byte at that address. */
  lemma ReadRomDirect(c: Cartridge, addr: u16, k: nat)
    requires |c.rom| == Pow2(k) && addr < |c.rom|
    requires c.mbc == NoMbc || addr < ROM_BANK_SZ
    ensures ReadRom(c, addr) == Success(c.rom[addr])
  {
    ReadRomPow2(c, addr, k);
    assert RomAddress(c, addr) == addr;
    ModUnique(addr, |c.rom|, 0, addr);
  }

  /** MBC1's switchable window 0x4000-0x7FFF shows bank `rom_bank + 1`
      (modulo the number of banks), one past the selected bank, because the
      bank offset is added to an address that already includes 0x4000. */
  lemma Mbc1WindowShowsNextBank(c: Cartridge, addr: u16, k: nat)
    requires c.mbc == Mbc1 && |c.rom| == Pow2(k)
    requires ROM_BANK_SZ <= addr < 2 * ROM_BANK_SZ
    ensures ReadRom(c, addr) ==
              Success(c.rom[((c.romBank as int + 1) * ROM_BANK_SZ + (addr - ROM_BANK_SZ)) % |c.rom|])
  {
    ReadRomPow2(c, addr, k);
  }

  /** Writes never change a cartridge, so a decoded cartridge keeps RAM
      disabled and every RAM read yields 0, whatever was written. */
  lemma {:induction false} WritesChangeNothing(c: Cartridge, ws: seq<CartWrite>, addr: u16)
    ensures ApplyWrites(c, ws) == c
    ensures c.ramEnable == 0 ==> ReadRam(ApplyWrites(c, ws), addr) == Success(0)
    decreases |ws|
  {
    if |ws| > 0 {
      WritesChangeNothing(c, ws[1..], addr);
    }
  }

  /** A decoded cartridge reads its RAM as 0 and its ROM from the image. */
  lemma DecodedCartridgeReads(buf: seq<bv8>, addr: u16)
    requires Decode(buf).Success?
    ensures ReadRam(Decode(buf).value, addr) == Success(0)
    ensures ReadRom(Decode(buf).value, addr).Success?
  {
  }
}
