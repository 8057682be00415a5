/** The machine-cycle clock: a 32-bit count that `tick` advances by one
    machine cycle (four clock cycles) and `add_cycles` by any amount. An
    addition past the 32-bit range panics and is a `Failure` here. */
module Clock {
  import opened Wrappers
  import opened Bits

  datatype Clock = Clock(cycles: u32)

  /** The count and the amount of an addition that overflowed. */
  datatype ClockError = CycleOverflow(cycles: u32, n: u32)

  /** `Clock::default()`. */
  function Default(): (c: Clock)
    ensures c.cycles == 0
  {
    Clock(0)
  }

  function AddCycles(c: Clock, n: u32): (r: Result<Clock, ClockError>)
    ensures r.Success? <==> c.cycles + n < U32_LIMIT
    ensures r.Success? ==> r.value.cycles == c.cycles + n
    ensures r.Failure? ==> r.error == CycleOverflow(c.cycles, n)
  {
    if c.cycles + n >= U32_LIMIT then Failure(CycleOverflow(c.cycles, n))
    else Success(Clock(c.cycles + n))
  }

  function Tick(c: Clock): (r: Result<Clock, ClockError>)
    ensures r.Success? <==> c.cycles + 4 < U32_LIMIT
    ensures r.Success? ==> r.value.cycles == c.cycles + 4
    ensures r.Failure? ==> r.error == CycleOverflow(c.cycles, 4)
  {
    AddCycles(c, 4)
  }

  datatype ClockOp = TickOp | AddOp(n: u32)

  function Amount(op: ClockOp): nat
  {
    match op
    case TickOp => 4
    case AddOp(n) => n
  }

  /** The total number of cycles a sequence of operations adds. */
  function Total(ops: seq<ClockOp>): nat
    decreases |ops|
  {
    if |ops| == 0 then 0 else Amount(ops[0]) + Total(ops[1..])
  }

  function Apply(c: Clock, op: ClockOp): Result<Clock, ClockError>
  {
    match op
    case TickOp => Tick(c)
    case AddOp(n) => AddCycles(c, n)
  }

  /** Successive operations, stopping at the first overflow. */
  function Run(c: Clock, ops: seq<ClockOp>): Result<Clock, ClockError>
    decreases |ops|
  {
    if |ops| == 0 then Success(c)
    else
      var c' :- Apply(c, ops[0]);
      Run(c', ops[1..])
  }

  /** A run completes exactly when the final count fits in 32 bits, and
      then the clock has advanced by exactly the total. */
  lemma {:induction false} RunAdds(c: Clock, ops: seq<ClockOp>)
    ensures Run(c, ops).Success? <==> c.cycles + Total(ops) < U32_LIMIT
    ensures Run(c, ops).Success? ==> Run(c, ops).value.cycles == c.cycles + Total(ops)
    decreases |ops|
  {
    if |ops| > 0 {
      match Apply(c, ops[0])
      case Failure(_) =>
      case Success(c') =>
        RunAdds(c', ops[1..]);
    }
  }

  /** The count never decreases. */
  lemma RunMonotone(c: Clock, ops: seq<ClockOp>)
    requires Run(c, ops).Success?
    ensures Run(c, ops).value.cycles >= c.cycles
  {
    RunAdds(c, ops);
  }
}
