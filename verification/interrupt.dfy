/** The interrupt controller: the pending mask IF (`iflag`), the enable
    mask IE (`ie`) and the master enable flag (`ime`), together with the
    five interrupt sources, their bits and their handler vectors. */
module Interrupt {
  import opened Wrappers
  import opened Bits

  /** The five interrupt sources, in priority order. */
  datatype Interrupt = VBlank | LcdcStat | Timer | Serial | Joypad

  /** Position of the source's bit in IF and IE; a lower position is
      serviced first. */
  function Index(i: Interrupt): nat
  {
    match i
    case VBlank => 0
    case LcdcStat => 1
    case Timer => 2
    case Serial => 3
    case Joypad => 4
  }

  /** The source's bit in IF and IE (the discriminant of the source's enum):
      exactly one bit, the one at `Index(i)`. */
  function Bit(i: Interrupt): (m: bv8)
    ensures m != 0 && m & (m - 1) == 0
  {
    match i
    case VBlank => 1
    case LcdcStat => 2
    case Timer => 4
    case Serial => 8
    case Joypad => 0x10
  }

  /** The source's bit is the one at `Index(i)`. */
  lemma BitPosition(i: Interrupt)
    ensures Bit(i) == 1 << Index(i)
  {
  }

  /** Handler address of the source (`get_addr`): eight bytes per source,
      starting at 0x40. */
  function Vector(i: Interrupt): (a: u16)
    ensures a == 0x40 + 8 * Index(i)
  {
    match i
    case VBlank => 0x0040
    case LcdcStat => 0x0048
    case Timer => 0x0050
    case Serial => 0x0058
    case Joypad => 0x0060
  }

  datatype Controller = Controller(ime: bool, iflag: bv8, ie: bv8)

  /** The panic of `get_interrupt`: IF & IE has bits set, but only among
      bits 5 to 7, which name no source. */
  datatype InterruptError = InvalidInterrupt(ie: bv8, iflag: bv8)

  predicate Requested(c: Controller, i: Interrupt) {
    c.iflag & Bit(i) != 0
  }

  predicate Enabled(c: Controller, i: Interrupt) {
    c.ie & Bit(i) != 0
  }

  /** The source may be dispatched: the master flag is on and the source is
      both requested and enabled. */
  predicate Serviceable(c: Controller, i: Interrupt) {
    c.ime && Requested(c, i) && Enabled(c, i)
  }

  /** A fresh controller: nothing requested, nothing enabled, master flag
      off, so nothing can be dispatched. */
  function New(): (c: Controller)
    ensures !c.ime && c.iflag == 0 && c.ie == 0
    ensures forall i :: !Requested(c, i) && !Enabled(c, i)
  {
    Controller(false, 0, 0)
  }

  /** IF & IE: the sources both requested and enabled. */
  function Pending(c: Controller): bv8 {
    c.iflag & c.ie
  }

  /** A source's bit is in IF & IE exactly when it is requested and
      enabled. */
  lemma PendingBit(c: Controller, i: Interrupt)
    ensures Pending(c) & Bit(i) != 0 <==> Requested(c, i) && Enabled(c, i)
  {
  }

  /** The priority chain of `get_interrupt`: the source of the lowest set
      bit among bits 0 to 4 of `p`, or `None` when those bits are clear. */
  function Lowest(p: bv8): (r: Option<Interrupt>)
    ensures r.Some? <==> p & 0x1F != 0
    ensures r.Some? ==> p & Bit(r.value) != 0
    ensures r.Some? ==> forall j :: p & Bit(j) != 0 ==> Index(r.value) <= Index(j)
  {
    if p & 1 == 1 then Some(VBlank)
    else if p & (1 << 1) == 1 << 1 then Some(LcdcStat)
    else if p & (1 << 2) == 1 << 2 then Some(Timer)
    else if p & (1 << 3) == 1 << 3 then Some(Serial)
    else if p & (1 << 4) == 1 << 4 then Some(Joypad)
    else None
  }

  /** With the master flag on, the source `Lowest` picks from IF & IE is
      serviceable and no serviceable source has a lower index. */
  lemma LowestIsServiceable(c: Controller)
    requires c.ime && Lowest(Pending(c)).Some?
    ensures Serviceable(c, Lowest(Pending(c)).value)
    ensures forall j :: Serviceable(c, j) ==> Index(Lowest(Pending(c)).value) <= Index(j)
  {
    var i := Lowest(Pending(c)).value;
    PendingBit(c, i);
    forall j | Serviceable(c, j)
      ensures Index(i) <= Index(j)
    {
      PendingBit(c, j);
    }
  }

  /** `get_interrupt`: the serviceable source of highest priority, `None`
      when nothing is serviceable, and a failure when IF & IE has bits only
      outside the five sources while the master flag is on. */
  function GetInterrupt(c: Controller): (r: Result<Option<Interrupt>, InterruptError>)
    ensures r == Success(None) <==> (c.iflag & c.ie == 0 || !c.ime)
    ensures r.Success? && r.value.Some? <==> c.ime && c.iflag & c.ie & 0x1F != 0
    ensures r.Success? && r.value.Some? ==>
              Serviceable(c, r.value.value) &&
              forall j :: Serviceable(c, j) ==> Index(r.value.value) <= Index(j)
    ensures r.Failure? <==> c.ime && c.iflag & c.ie != 0 && c.iflag & c.ie & 0x1F == 0
  {
    var interrupt := Pending(c);
    if interrupt == 0 || !c.ime then Success(None)
    else
      var lowest := Lowest(interrupt);
      if lowest.None? then Failure(InvalidInterrupt(c.ie, c.iflag))
      else
        LowestIsServiceable(c);
        Success(lowest)
  }

  /** `reset_interrupt`: clears the source's pending bit and no other bit. */
  function Reset(c: Controller, i: Interrupt): (r: Controller)
    ensures !Requested(r, i)
    ensures r.iflag & !Bit(i) == c.iflag & !Bit(i)
    ensures r.ie == c.ie && r.ime == c.ime
  {
    c.(iflag := c.iflag & !Bit(i))
  }

  /** `request_interrupt`: sets the source's pending bit and no other bit. */
  function Request(c: Controller, i: Interrupt): (r: Controller)
    ensures Requested(r, i)
    ensures r.iflag & !Bit(i) == c.iflag & !Bit(i)
    ensures r.ie == c.ie && r.ime == c.ime
  {
    c.(iflag := c.iflag | Bit(i))
  }

  /** Some source is serviceable exactly when the master flag is on and
      IF & IE has a bit among the five source bits. */
  lemma SomeServiceable(c: Controller)
    ensures (exists j :: Serviceable(c, j)) <==> c.ime && c.iflag & c.ie & 0x1F != 0
  {
    var m := c.iflag & c.ie & 0x1F;
    if c.ime && m != 0 {
      if m & 1 != 0 { assert Serviceable(c, VBlank); }
      else if m & 2 != 0 { assert Serviceable(c, LcdcStat); }
      else if m & 4 != 0 { assert Serviceable(c, Timer); }
      else if m & 8 != 0 { assert Serviceable(c, Serial); }
      else { assert Serviceable(c, Joypad); }
    }
  }

  /** Requesting only ever adds the one source to the pending set. */
  lemma RequestPendingSet(c: Controller, i: Interrupt, j: Interrupt)
    ensures Requested(Request(c, i), j) <==> Requested(c, j) || j == i
  {
  }

  /** Clearing only ever removes the one source from the pending set. */
  lemma ResetPendingSet(c: Controller, i: Interrupt, j: Interrupt)
    ensures Requested(Reset(c, i), j) <==> Requested(c, j) && j != i
  {
  }

  lemma RequestIdempotent(c: Controller, i: Interrupt)
    ensures Request(Request(c, i), i) == Request(c, i)
  {
  }

  /** Clearing after a request undoes the request: the bit is clear again
      and the controller is as if the request had never happened. */
  lemma ResetAfterRequest(c: Controller, i: Interrupt)
    ensures !Requested(Reset(Request(c, i), i), i)
    ensures Reset(Request(c, i), i) == Reset(c, i)
    ensures !Requested(c, i) ==> Reset(Request(c, i), i) == c
  {
  }

  /** A requested and enabled source is dispatched once the master flag is
      on, unless a source of higher priority is dispatched first. */
  lemma RequestedIsDispatched(c: Controller, i: Interrupt)
    requires c.ime && Enabled(c, i)
    ensures var r := GetInterrupt(Request(c, i));
            r.Success? && r.value.Some? && Index(r.value.value) <= Index(i)
  {
    assert Serviceable(Request(c, i), i);
  }

  /** Dispatch order: VBlank pending together with Timer is served first. */
  lemma VBlankBeforeTimer(c: Controller)
    requires c.ime && c.ie & 0x05 == 0x05 && c.iflag & 0x05 == 0x05
    ensures GetInterrupt(c) == Success(Some(VBlank))
  {
  }
}
