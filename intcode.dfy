/** The Intcode computer of d2t2: a flat integer memory holding both program and data,
    bounds-checked accessors over it, and a fetch-decode-execute loop from address 0. */
module Intcode {
  import opened Wrappers

  /** Opcodes the interpreter knows. */
  const Add := 1
  const Multiply := 2
  const Halt := 99

  /** Why a memory access was refused: the offending address and the memory size. */
  datatype MemError = OutOfBounds(address: int, size: int)

  /** Why `CalculateOpResult` refused an opcode. */
  datatype OpError = UnknownOpcode(opcode: int)

  /** Why a run stopped without halting. `pc` is the program counter the Go code reports,
      which it has already advanced past the opcode for every check after the fetch. */
  datatype RunError =
    | FetchFailed(pc: int, cause: MemError)        // a process exit (`log.Fatal`) in the Go code
    | OperandFailed(pc: int, cause: MemError)
    | OpcodeRejected(pc: int, opError: OpError)
    | DestinationFailed(pc: int, cause: MemError)

  predicate InBounds(mem: seq<int>, address: int)
  {
    0 <= address < |mem|
  }

  /** Direct read. The Go code checks only `address >= len`; a negative address, which
      would panic there, is refused here like one past the end. */
  function ValueAtAddress(mem: seq<int>, address: int): (r: Result<int, MemError>)
    ensures r.Success? <==> InBounds(mem, address)
    ensures r.Success? ==> r.value == mem[address]
    ensures r.Failure? ==> r.error == OutOfBounds(address, |mem|)
  {
    if address < 0 || address >= |mem| then Failure(OutOfBounds(address, |mem|))
    else Success(mem[address])
  }

  /** One-level pointer read: the cell at `address` holds the address of the operand. The
      error names whichever of the two addresses was out of range. */
  function ValueAtPtr(mem: seq<int>, address: int): (r: Result<int, MemError>)
    ensures r.Success? <==> InBounds(mem, address) && InBounds(mem, mem[address])
    ensures r.Success? ==> r.value == mem[mem[address]]
    ensures !InBounds(mem, address) ==> r == Failure(OutOfBounds(address, |mem|))
    ensures InBounds(mem, address) && !InBounds(mem, mem[address]) ==>
              r == Failure(OutOfBounds(mem[address], |mem|))
  {
    match ValueAtAddress(mem, address)
    case Failure(e) => Failure(e)
    case Success(ptrAddress) => ValueAtAddress(mem, ptrAddress)
  }

  /** The memory after a write of `value` to `address`; an out-of-range write leaves it as it was. */
  function Written(mem: seq<int>, address: int, value: int): (r: seq<int>)
    ensures |r| == |mem|
    ensures forall i :: 0 <= i < |mem| ==> r[i] == (if i == address then value else mem[i])
  {
    if InBounds(mem, address) then mem[address := value] else mem
  }

  /** A read after a write sees the written value at the written address and the old
      contents everywhere else. */
  lemma ReadAfterWrite(mem: seq<int>, address: int, value: int, other: int)
    ensures ValueAtAddress(Written(mem, address, value), other) ==
              if other == address && InBounds(mem, address) then Success(value)
              else ValueAtAddress(mem, other)
  {
  }

  /** In-place write: only `mem[address]` changes, and an out-of-range write fails and changes nothing. */
  method WriteToAddress(mem: array<int>, address: int, value: int) returns (r: Outcome<MemError>)
    modifies mem
    ensures r.Pass? <==> 0 <= address < mem.Length
    ensures r.Fail? ==> r.error == OutOfBounds(address, mem.Length)
    ensures mem[..] == Written(old(mem[..]), address, value)
  {
    if address < 0 || address >= mem.Length {
      return Fail(OutOfBounds(address, mem.Length));
    }
    mem[address] := value;
    return Pass;
  }

  /** The arithmetic of an instruction: opcode 1 adds, opcode 2 multiplies, any other opcode
      is rejected. Integers are unbounded here; Go's 64-bit wrap-around is not modelled. */
  function CalculateOpResult(opcode: int, arg1: int, arg2: int): (r: Result<int, OpError>)
    ensures r.Success? <==> opcode == Add || opcode == Multiply
    ensures opcode == Add ==> r.value == arg1 + arg2
    ensures opcode == Multiply ==> r.value == arg1 * arg2
    ensures r.Failure? ==> r.error == UnknownOpcode(opcode)
  {
    if opcode == Add then Success(arg1 + arg2)
    else if opcode == Multiply then Success(arg1 * arg2)
    else Failure(UnknownOpcode(opcode))
  }

  /** What one instruction at `pc` does. */
  datatype StepResult =
    | Stop(value: int)                  // opcode 99: the run ends with this result
    | Continue(next: seq<int>)          // an arithmetic instruction; execution goes on at pc + 4
    | Fault(error: RunError)

  /** One fetch-decode-execute step, with the checks in the Go code's order: opcode fetch,
      halt test, first operand, second operand, opcode validity, destination read. The
      write's error is discarded, so an out-of-range destination is skipped. */
  function Step(mem: seq<int>, pc: nat): (s: StepResult)
    ensures s.Stop? <==> InBounds(mem, pc) && mem[pc] == Halt
    ensures s.Stop? ==> s.value == mem[0]
    ensures s.Continue? ==>
              && InBounds(mem, pc + 3) && (mem[pc] == Add || mem[pc] == Multiply)
              && |s.next| == |mem|
              && forall a :: 0 <= a < |mem| && a != mem[pc + 3] ==> s.next[a] == mem[a]
    ensures s.Fault? ==> s.error.pc == pc || s.error.pc == pc + 1 || s.error.pc == pc + 2 || s.error.pc == pc + 3
  {
    match ValueAtAddress(mem, pc)
    case Failure(e) => Fault(FetchFailed(pc, e))
    case Success(opcode) =>
      if opcode == Halt then Stop(ValueAtAddress(mem, 0).GetOr(0))
      else
        match ValueAtPtr(mem, pc + 1)
        case Failure(e) => Fault(OperandFailed(pc + 1, e))
        case Success(arg1) =>
          match ValueAtPtr(mem, pc + 2)
          case Failure(e) => Fault(OperandFailed(pc + 2, e))
          case Success(arg2) =>
            match CalculateOpResult(opcode, arg1, arg2)
            case Failure(e) => Fault(OpcodeRejected(pc + 2, e))
            case Success(result) =>
              match ValueAtAddress(mem, pc + 3)
              case Failure(e) => Fault(DestinationFailed(pc + 3, e))
              case Success(destAddress) => Continue(Written(mem, destAddress, result))
  }

  /** How a run ends, with the memory as it is at that point. */
  datatype Execution = Halted(value: int, mem: seq<int>) | Faulted(error: RunError, mem: seq<int>) {
    /** What `runProgram` returns. */
    function Verdict(): Result<int, RunError> {
      match this
      case Halted(v, _) => Success(v)
      case Faulted(e, _) => Failure(e)
    }
  }

  /** The run from program counter `pc` on. It ends because every non-halting instruction
      moves `pc` on by 4 and the fetch fails once `pc` passes the end of memory. */
  function Run(mem: seq<int>, pc: nat): (e: Execution)
    ensures |e.mem| == |mem|
    decreases |mem| - pc
  {
    match Step(mem, pc)
    case Stop(v) => Halted(v, mem)
    case Fault(err) => Faulted(err, mem)
    case Continue(next) => Run(next, pc + 4)
  }

  /** Opcode 99 ends the run at once with `mem[0]`; nothing is read past it and nothing is written. */
  lemma HaltStopsAtOnce(mem: seq<int>, pc: nat)
    requires pc < |mem| && mem[pc] == Halt
    ensures Run(mem, pc) == Halted(mem[0], mem)
  {
  }

  /** A failed opcode fetch is reported at pc itself, and only when pc is outside memory. */
  lemma FetchFaultOrder(mem: seq<int>, pc: nat, reported: int, e: MemError)
    ensures Step(mem, pc) == Fault(FetchFailed(reported, e)) <==>
              !InBounds(mem, pc) && e == OutOfBounds(pc, |mem|) && reported == pc
  {
  }

  /** An operand read fails only after a fetched opcode that is not a halt, before the
      opcode itself is checked: the first operand is reported at pc + 1, and the second,
      at pc + 2, only when the first was read. */
  lemma OperandFaultOrder(mem: seq<int>, pc: nat, reported: int, e: MemError)
    ensures Step(mem, pc) == Fault(OperandFailed(reported, e)) <==>
              && InBounds(mem, pc) && mem[pc] != Halt
              && ((reported == pc + 1 && ValueAtPtr(mem, pc + 1) == Failure(e)) ||
                  (reported == pc + 2 && ValueAtPtr(mem, pc + 1).Success? && ValueAtPtr(mem, pc + 2) == Failure(e)))
  {
  }

  /** The destination cell is read last: its failure is reported at pc + 3, and only for an
      add or a multiply whose two operands were read. */
  lemma DestinationFaultOrder(mem: seq<int>, pc: nat, reported: int, e: MemError)
    ensures Step(mem, pc) == Fault(DestinationFailed(reported, e)) <==>
              && InBounds(mem, pc) && (mem[pc] == Add || mem[pc] == Multiply)
              && ValueAtPtr(mem, pc + 1).Success? && ValueAtPtr(mem, pc + 2).Success?
              && ValueAtAddress(mem, pc + 3) == Failure(e)
              && reported == pc + 3
  {
  }

  /** An unknown opcode is reported only after both operand reads succeed, before the
      destination is read and before anything is written, and it names pc + 2. */
  lemma UnknownOpcodeOrder(mem: seq<int>, pc: nat, reported: int, opcode: int)
    ensures Step(mem, pc) == Fault(OpcodeRejected(reported, UnknownOpcode(opcode))) <==>
              && InBounds(mem, pc) && mem[pc] == opcode
              && opcode != Halt && opcode != Add && opcode != Multiply
              && ValueAtPtr(mem, pc + 1).Success? && ValueAtPtr(mem, pc + 2).Success?
              && reported == pc + 2
  {
  }

  /** An instruction whose destination is out of range changes nothing and execution goes on. */
  lemma BadDestinationSkipped(mem: seq<int>, pc: nat)
    requires pc + 3 < |mem|
    requires mem[pc] == Add || mem[pc] == Multiply
    requires ValueAtPtr(mem, pc + 1).Success? && ValueAtPtr(mem, pc + 2).Success?
    requires !InBounds(mem, mem[pc + 3])
    ensures Step(mem, pc) == Continue(mem)
  {
  }

  /** An instruction with valid operands and destination stores the sum or product of the
      operands at the destination and changes nothing else. */
  lemma ArithmeticStep(mem: seq<int>, pc: nat)
    requires pc + 3 < |mem|
    requires mem[pc] == Add || mem[pc] == Multiply
    requires InBounds(mem, mem[pc + 1]) && InBounds(mem, mem[pc + 2]) && InBounds(mem, mem[pc + 3])
    ensures Step(mem, pc) == Continue(mem[mem[pc + 3] :=
              if mem[pc] == Add then mem[mem[pc + 1]] + mem[mem[pc + 2]]
              else mem[mem[pc + 1]] * mem[mem[pc + 2]]])
  {
  }

  /** A run that halts returns the first cell of its final memory. */
  lemma {:induction false} HaltedRunReturnsFirstCell(mem: seq<int>, pc: nat)
    requires Run(mem, pc).Halted?
    ensures |mem| > 0 && Run(mem, pc).value == Run(mem, pc).mem[0]
    decreases |mem| - pc
  {
    match Step(mem, pc)
    case Stop(v) =>
    case Continue(next) =>
      HaltedRunReturnsFirstCell(next, pc + 4);
  }

  /** `p` is `offset` cells into an instruction that starts a multiple of 4 after `start`. */
  predicate OnGrid(p: int, start: int, offset: int)
  {
    p >= start && (p - start) % 4 == offset
  }

  lemma GridShift(p: int, start: int, offset: int)
    requires OnGrid(p, start + 4, offset)
    ensures OnGrid(p, start, offset)
  {
    assert p - start == (p - (start + 4)) + 4;
  }

  /** Where a run can fault, relative to the pc it started at: instructions start at
      multiples of 4 from it, a fetch fails only past the end of memory, operand faults
      name the instruction's second or third cell, an unknown opcode its third, and a
      destination fault its fourth. */
  lemma {:induction false} FaultOnInstructionGrid(mem: seq<int>, pc: nat)
    requires Run(mem, pc).Faulted?
    ensures match Run(mem, pc).error
      case FetchFailed(p, _) => OnGrid(p, pc, 0) && p >= |mem|
      case OperandFailed(p, _) => OnGrid(p, pc, 1) || OnGrid(p, pc, 2)
      case OpcodeRejected(p, _) => OnGrid(p, pc, 2)
      case DestinationFailed(p, _) => OnGrid(p, pc, 3)
    decreases |mem| - pc
  {
    match Step(mem, pc)
    case Fault(err) =>
    case Continue(next) =>
      FaultOnInstructionGrid(next, pc + 4);
      assert Run(mem, pc) == Run(next, pc + 4);
      match Run(mem, pc).error
      case FetchFailed(p, _) => GridShift(p, pc, 0);
      case OperandFailed(p, _) => if OnGrid(p, pc + 4, 1) { GridShift(p, pc, 1); } else { GridShift(p, pc, 2); }
      case OpcodeRejected(p, _) => GridShift(p, pc, 2);
      case DestinationFailed(p, _) => GridShift(p, pc, 3);
  }

  /** `runProgram`: runs the program in `mem` in place from pc 0 and returns `mem[0]` at the halt. */
  method RunProgram(mem: array<int>) returns (r: Result<int, RunError>)
    modifies mem
    ensures r == Run(old(mem[..]), 0).Verdict()
    ensures mem[..] == Run(old(mem[..]), 0).mem
  {
    var pc: nat := 0;
    while true
      invariant pc % 4 == 0
      invariant Run(mem[..], pc) == Run(old(mem[..]), 0)
      decreases mem.Length - pc
    {
      var start := pc;
      ghost var before := mem[..];
      var opcode := ValueAtAddress(mem[..], pc);
      if opcode.Failure? {
        return Failure(FetchFailed(pc, opcode.error));
      }
      if opcode.value == Halt {
        var result := ValueAtAddress(mem[..], 0);
        return Success(result.GetOr(0));
      }

      pc := pc + 1;
      var arg1 := ValueAtPtr(mem[..], pc);
      if arg1.Failure? {
        return Failure(OperandFailed(pc, arg1.error));
      }

      pc := pc + 1;
      var arg2 := ValueAtPtr(mem[..], pc);
      if arg2.Failure? {
        return Failure(OperandFailed(pc, arg2.error));
      }

      var result := CalculateOpResult(opcode.value, arg1.value, arg2.value);
      if result.Failure? {
        return Failure(OpcodeRejected(pc, result.error));
      }

      pc := pc + 1;
      var destAddress := ValueAtAddress(mem[..], pc);
      if destAddress.Failure? {
        return Failure(DestinationFailed(pc, destAddress.error));
      }

      var _ := WriteToAddress(mem, destAddress.value, result.value);
      pc := pc + 1;
      assert Step(before, start) == Continue(mem[..]);
    }
  }

  /** Worked example: a program that adds cell 0 to itself. */
  lemma SelfAddExample()
    ensures Run([1, 0, 0, 0, 99], 0) == Halted(2, [2, 0, 0, 0, 99])
  {
  }

  /** Worked example: a program that multiplies into cell 3. */
  lemma MultiplyExample()
    ensures Run([2, 3, 0, 3, 99], 0) == Halted(2, [2, 3, 0, 6, 99])
  {
  }

  /** Worked example: a program whose first instruction rewrites its own halt into a multiply. */
  lemma SelfModifyingExample()
    ensures Run([1, 1, 1, 4, 99, 5, 6, 0, 99], 0) == Halted(30, [30, 1, 1, 4, 2, 5, 6, 0, 99])
  {
    var m1 := [1, 1, 1, 4, 99, 5, 6, 0, 99];
    assert Step(m1, 0) == Continue(m1[4 := 2]);
    var m2 := m1[4 := 2];
    assert Step(m2, 4) == Continue(m2[0 := 30]);
  }

  /** Worked example: opcode 3 is rejected, reported at pc 2. */
  lemma UnknownOpcodeExample()
    ensures Run([3, 0, 0, 0], 0) == Faulted(OpcodeRejected(2, UnknownOpcode(3)), [3, 0, 0, 0])
  {
  }
}
