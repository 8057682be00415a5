/** The timer: the divider DIV with its sub-counter, the counter TIMA, the
    modulo TMA and the control register TAC, advanced by a number of CPU
    cycles at a time and requesting the Timer interrupt when TIMA
    overflows. The `u32` sub-counters panic on overflow (a debug build), which
    is modelled as `CounterOverflow`. */
module Timer {
  import opened Wrappers
  import opened Bits
  import Interrupt

  datatype InputClockFreq = Freq4096 | Freq262144 | Freq65536 | Freq16384

  /** The frequency in hertz (the discriminant of the source's enum). */
  function Hertz(f: InputClockFreq): nat
  {
    match f
    case Freq4096 => 4096
    case Freq262144 => 262144
    case Freq65536 => 65536
    case Freq16384 => 16384
  }

  /** `to_cycles`: cycles between two TIMA increments at frequency `f`, so
      that every frequency spends the same 2^20 cycles per second. */
  function ToCycles(f: InputClockFreq): (n: u32)
    ensures n * Hertz(f) == 0x10_0000
  {
    match f
    case Freq4096 => 256
    case Freq262144 => 4
    case Freq65536 => 16
    case Freq16384 => 64
  }

  /** The clock-select code TAC uses for each frequency. Both `get_tac` and
      `set_tac` use hexadecimal 0x10 and 0x11 where the hardware's codes are
      binary 10 and 11. */
  function ClockCode(f: InputClockFreq): bv8
  {
    match f
    case Freq4096 => 0x00
    case Freq262144 => 0x01
    case Freq65536 => 0x10
    case Freq16384 => 0x11
  }

  datatype Timer = Timer(
    counter: bv8,   // TIMA
    modulo: bv8,    // TMA
    div: bv8,       // DIV
    idiv: u32,      // cycles towards the next DIV increment
    icounter: u32,  // cycles accumulated for TIMA; never reset
    enabled: bool,
    inputFreq: InputClockFreq)

  datatype TimerError =
    | InvalidTac(val: bv8)  // `set_tac` panics on an unknown clock select
    | CounterOverflow       // `idiv` or `icounter` overflows its u32

  /** A fresh timer: every register reads zero and TIMA is stopped. */
  function New(): (t: Timer)
    ensures GetDiv(t) == 0 && GetTima(t) == 0 && GetTma(t) == 0 && GetTac(t) == 0
    ensures !t.enabled && t.idiv == 0 && t.icounter == 0
  {
    Timer(0, 0, 0, 0, 0, false, Freq4096)
  }

  function GetDiv(t: Timer): bv8 { t.div }
  function GetTima(t: Timer): bv8 { t.counter }
  function GetTma(t: Timer): bv8 { t.modulo }

  /** `set_div`: any write zeroes DIV; the written value is ignored and
      the sub-counter `idiv` is left as it is. */
  function SetDiv(t: Timer, val: bv8): (r: Timer)
    ensures GetDiv(r) == 0
    ensures r.(div := t.div) == t
  {
    t.(div := 0)
  }

  function SetTima(t: Timer, val: bv8): (r: Timer)
    ensures GetTima(r) == val
    ensures r.(counter := t.counter) == t
  {
    t.(counter := val)
  }

  function SetTma(t: Timer, val: bv8): (r: Timer)
    ensures GetTma(r) == val
    ensures r.(modulo := t.modulo) == t
  {
    t.(modulo := val)
  }

  /** `get_tac`: the enable flag at bit 2, the clock code in the remaining
      bits. */
  function GetTac(t: Timer): (r: bv8)
    ensures r & 0x04 != 0 <==> t.enabled
    ensures r & !0x04 == ClockCode(t.inputFreq)
  {
    ((if t.enabled then 1 else 0) << 2) | ClockCode(t.inputFreq)
  }

  /** The TAC values `set_tac` accepts: those whose bits above bit 1 form
      one of the four clock codes. */
  predicate ValidTac(val: bv8) {
    val >> 2 in {0x00, 0x01, 0x10, 0x11}
  }

  /** `set_tac`: the clock code is read from `val >> 2` and the enable flag
      from bit 0 -- not the layout `get_tac` produces. An unknown code
      panics. */
  function SetTac(t: Timer, val: bv8): (r: Result<Timer, TimerError>)
    ensures r.Success? <==> ValidTac(val)
    ensures r.Success? ==> ClockCode(r.value.inputFreq) == val >> 2
    ensures r.Success? ==> (r.value.enabled <==> val & 0x01 != 0)
    ensures r.Success? ==> r.value.(inputFreq := t.inputFreq, enabled := t.enabled) == t
    ensures r.Failure? ==> r.error == InvalidTac(val)
  {
    var freq :=
      if val >> 2 == 0x00 then Some(Freq4096)
      else if val >> 2 == 0x01 then Some(Freq262144)
      else if val >> 2 == 0x10 then Some(Freq65536)
      else if val >> 2 == 0x11 then Some(Freq16384)
      else None;
    if freq.None? then Failure(InvalidTac(val))
    else Success(t.(inputFreq := freq.value, enabled := val & 0x01 != 0))
  }

  /** `step_div`: adds the cycles to the sub-counter and, when it reaches
      0xFF, advances DIV by one (wrapping) and takes 0xFF back off -- once
      per call, however many cycles were added. */
  function StepDiv(t: Timer, cycles: u32): (r: Result<Timer, TimerError>)
    ensures r.Success? <==> t.idiv + cycles < U32_LIMIT
    ensures r.Success? ==> r.value.(div := t.div, idiv := t.idiv) == t
    ensures r.Success? ==> (r.value.div != t.div <==> t.idiv + cycles >= 0xFF)
    ensures r.Success? ==> r.value.div == t.div || r.value.div == t.div + 1
    ensures r.Success? ==>
              t.idiv + cycles == r.value.idiv + (if r.value.div == t.div then 0 else 0xFF)
  {
    var idiv := t.idiv + cycles;
    if idiv >= U32_LIMIT then Failure(CounterOverflow)
    else if idiv >= 0xFF then Success(t.(div := t.div + 1, idiv := idiv - 0xFF))
    else Success(t.(idiv := idiv))
  }

  /** `step`: DIV always advances; TIMA only when enabled, by one once the
      accumulated cycles reach the threshold of the selected frequency, and
      on overflow it reloads from TMA and requests the Timer interrupt. */
  function Step(t: Timer, ic: Interrupt.Controller, cycles: u32)
    : (r: Result<(Timer, Interrupt.Controller), TimerError>)
    ensures r.Success? <==>
              t.idiv + cycles < U32_LIMIT && (t.enabled ==> t.icounter + cycles < U32_LIMIT)
    ensures r.Success? ==>
              StepDiv(t, cycles) == Success(r.value.0.(counter := t.counter, icounter := t.icounter))
    ensures r.Success? ==> r.value.0.icounter >= t.icounter
    ensures r.Success? && !t.enabled ==>
              r.value.0.counter == t.counter && r.value.0.icounter == t.icounter && r.value.1 == ic
    ensures r.Success? && t.enabled ==> r.value.0.icounter == t.icounter + cycles
    ensures r.Success? && t.enabled && r.value.0.icounter < ToCycles(t.inputFreq) ==>
              r.value.0.counter == t.counter && r.value.1 == ic
    ensures r.Success? && t.enabled && r.value.0.icounter >= ToCycles(t.inputFreq) ==>
              if t.counter != 0xFF then r.value.0.counter == t.counter + 1 && r.value.1 == ic
              else r.value.0.counter == t.modulo &&
                   r.value.1 == Interrupt.Request(ic, Interrupt.Timer)
  {
    var d :- StepDiv(t, cycles);
    if !d.enabled then Success((d, ic))
    else
      var icounter := d.icounter + cycles;
      if icounter >= U32_LIMIT then Failure(CounterOverflow)
      else
        var n := d.(icounter := icounter);
        if icounter >= ToCycles(n.inputFreq) then
          if n.counter != 0xFF then Success((n.(counter := n.counter + 1), ic))
          else Success((n.(counter := n.modulo), Interrupt.Request(ic, Interrupt.Timer)))
        else Success((n, ic))
  }

  /** Successive `step` calls, stopping at the first failure. */
  function StepAll(t: Timer, ic: Interrupt.Controller, cycles: seq<u32>)
    : Result<(Timer, Interrupt.Controller), TimerError>
    decreases |cycles|
  {
    if |cycles| == 0 then Success((t, ic))
    else
      var (t', ic') :- Step(t, ic, cycles[0]);
      StepAll(t', ic', cycles[1..])
  }

  /** Writing TIMA or TMA reads back the written value, writing back what
      was read changes nothing, and a second write overrides the first. */
  lemma TimaTmaRoundTrip(t: Timer, a: bv8, b: bv8)
    ensures GetTima(SetTima(t, a)) == a && GetTma(SetTma(t, a)) == a
    ensures SetTima(t, GetTima(t)) == t && SetTma(t, GetTma(t)) == t
    ensures SetTima(SetTima(t, a), b) == SetTima(t, b)
    ensures SetTma(SetTma(t, a), b) == SetTma(t, b)
    ensures GetTma(SetTima(t, a)) == GetTma(t) && GetTima(SetTma(t, a)) == GetTima(t)
  {
  }

  /** TAC does not round-trip: writing back the value `get_tac` reads
      succeeds only for the two lower clock codes, and then swaps the roles
      of the enable flag and the low clock bit. */
  lemma TacReadWriteMismatch(t: Timer)
    ensures SetTac(t, GetTac(t)).Success? <==> t.inputFreq in {Freq4096, Freq262144}
    ensures SetTac(t, GetTac(t)).Success? ==>
              var n := SetTac(t, GetTac(t)).value;
              (n.enabled <==> t.inputFreq == Freq262144) &&
              (n.inputFreq == Freq262144 <==> t.enabled)
  {
  }

  /** Concretely: writing 0x01 (enable, 4096 Hz) reads back as 0x04. */
  lemma TacWriteReadMismatch(t: Timer)
    ensures SetTac(t, 0x01).Success?
    ensures GetTac(SetTac(t, 0x01).value) == 0x04
  {
  }

  /** Starting below 0xFF, and adding at most 0xFF cycles, the DIV
      sub-counter stays below 0xFF. */
  lemma StepDivKeepsIdivBelow(t: Timer, cycles: u32)
    requires t.idiv < 0xFF && cycles <= 0xFF
    ensures StepDiv(t, cycles).Success? && StepDiv(t, cycles).value.idiv < 0xFF
  {
  }

  /** Because `icounter` is never reset, once it has reached the threshold
      every later step of an enabled timer advances TIMA (or reloads it). */
  lemma ThresholdStaysReached(t: Timer, ic: Interrupt.Controller, cycles: u32)
    requires t.enabled && t.icounter >= ToCycles(t.inputFreq)
    requires Step(t, ic, cycles).Success?
    ensures var n := Step(t, ic, cycles).value.0;
            n.counter == (if t.counter == 0xFF then t.modulo else t.counter + 1)
    ensures Step(t, ic, cycles).value.0.icounter >= ToCycles(t.inputFreq)
  {
  }

  /** TIMA overflow requests the Timer interrupt and touches no other
      interrupt bit, IE or the master flag. */
  lemma OverflowRequestsOnlyTimer(t: Timer, ic: Interrupt.Controller, cycles: u32)
    requires Step(t, ic, cycles).Success?
    ensures var ic' := Step(t, ic, cycles).value.1;
            ic'.iflag & !0x04 == ic.iflag & !0x04 && ic'.ie == ic.ie && ic'.ime == ic.ime
  {
  }

  /** Over any run of steps `icounter` never decreases and the enable flag
      and frequency never change. */
  lemma {:induction false} StepAllMonotone(t: Timer, ic: Interrupt.Controller, cycles: seq<u32>)
    requires StepAll(t, ic, cycles).Success?
    ensures StepAll(t, ic, cycles).value.0.icounter >= t.icounter
    ensures StepAll(t, ic, cycles).value.0.enabled == t.enabled
    ensures StepAll(t, ic, cycles).value.0.inputFreq == t.inputFreq
    decreases |cycles|
  {
    if |cycles| > 0 {
      var (t', ic') := Step(t, ic, cycles[0]).value;
      StepAllMonotone(t', ic', cycles[1..]);
    }
  }

  /** A disabled timer stays disabled, and a run of steps changes only DIV
      and its sub-counter: TIMA, TMA, `icounter` and the interrupt
      controller are untouched. */
  lemma {:induction false} StepAllDisabled(t: Timer, ic: Interrupt.Controller, cycles: seq<u32>)
    requires !t.enabled && StepAll(t, ic, cycles).Success?
    ensures StepAll(t, ic, cycles).value.0.(div := t.div, idiv := t.idiv) == t
    ensures StepAll(t, ic, cycles).value.1 == ic
    decreases |cycles|
  {
    if |cycles| > 0 {
      var (t', ic') := Step(t, ic, cycles[0]).value;
      StepAllDisabled(t', ic', cycles[1..]);
    }
  }
}
