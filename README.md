# Advent of Code 2019, days 1–3, in Dafny

This project models the Go solutions to days 1–3 of Advent of Code 2019 and proves
properties of them:

- **Fuel** (`d1t1`, `d1t2`): a module's fuel is a third of its mass, rounded down, minus
  two. Part 2 also fuels the fuel, through a recursive accumulator, until the amount is
  no longer positive. Both parts sum the fuel over every module
  (`fuel_part_one.dfy`, `fuel_part_two.dfy`).
- **Intcode** (`d2t2`): a flat integer memory with bounds-checked direct, pointer and
  write accessors. An interpreter runs from pc 0: opcode 1 adds, 2 multiplies, and 99
  halts and returns `mem[0]`. A brute-force search tries every `(op1, op2)` in
  0..99 × 0..99 on a fresh copy of the memory and stops at the first run that yields
  the target (`intcode.dfy`, `intcode_search.dfy`).
- **Crossed wires** (`d3t1`, `d3t2`): a path such as `R8,U5,L5,D3` is parsed into
  segments from the origin. Perpendicular segments of two wires are checked for
  crossings. The closest non-zero crossing is reported, by Manhattan distance in part 1
  and by combined wire steps in part 2 (`wires_part_one.dfy`, `wires_part_two.dfy`).

Pure code is modelled as functions. In-place code is modelled as methods proved against
those functions:
- memory writes and the interpreter loop work on an `array<int>`;
- the search, path-reading and min-scan loops are `while`/`for` loops with invariants.

Errors and process exits (`log.Fatal`, `log.Panic`, `panic`) become `Result` values. The
interpreter, for example, reports a failed opcode fetch as `FetchFailed`, where the Go
code exits the process.

The model follows the Go code in these places:
- `runProgram` checks the opcode only after both operand reads have succeeded
  (`d2t2/d2t2.go:57-70`). The error names pc + 2, the counter the code has already
  advanced, so `[3,0,0,0]` is rejected at pc 2.
- `runProgram` discards the error of the destination write (`d2t2/d2t2.go:79`). An
  out-of-range destination is skipped and execution goes on.
- `calculateOpResult` adds and multiplies without an overflow check
  (`d2t2/d2t2.go:117-119`). Integers here are unbounded, so there is no overflow fault.
- The search target, 19690720 at `d2t2/d2t2.go:145`, is a parameter of the search.

## Model

| member | source | states |
|---|---|---|
| FuelPartOne.ModuleFuel | d1t1/d1t1.go:12-14 | the fuel is the floor of mass/3 minus 2 (3·(fuel+2) ≤ mass < 3·(fuel+2)+3); it is negative exactly below mass 6 and zero exactly for masses 6..8 (no clamping) |
| FuelPartOne.ModuleFuelMonotone | d1t1/d1t1.go:13 | a heavier module never needs less fuel |
| FuelPartOne.TotalFuelAppend | d1t1/d1t1.go:24-28 | the total over a concatenation of mass lists is the sum of the two totals |
| FuelPartOne.SumModuleFuel | d1t1/d1t1.go:24-28 | the summation loop returns the sum of the module fuel over every mass |
| FuelPartTwo.CalcModuleFuel | d1t2/d1t2.go:12-18 | the result is never below the running total; it equals the running total when the first fuel amount is not positive and otherwise adds at least that amount; recursion ends because each recursive mass is smaller |
| FuelPartTwo.CalcModuleFuelIsChain | d1t2/d1t2.go:12-18 | the accumulator adds exactly the accumulator-free fuel chain (fuel + fuel of fuel + …) to the running total |
| FuelPartTwo.AccumulatorFactors | d1t2/d1t2.go:12-18 | calcModuleFuel(m, t) == t + calcModuleFuel(m, 0) |
| FuelPartTwo.FuelChainBounds | d1t2/d1t2.go:13-17 | the full fuel is never negative, is zero for masses below 9, and is at least the first fuel amount otherwise |
| FuelPartTwo.SumModuleFuel | d1t2/d1t2.go:28-32 | the summation loop returns the sum of calcModuleFuel(m, 0) over every mass, and the sum is non-negative |
| Intcode.ValueAtAddress | d2t2/d2t2.go:14-19 | fails exactly when the address is outside the memory, with the address and size; otherwise returns mem[address] |
| Intcode.ValueAtPtr | d2t2/d2t2.go:21-31 | succeeds exactly when the address and the pointer stored there are both in range, returning mem[mem[address]]; the error names the outer address if it is out of range, else the pointer |
| Intcode.Written | d2t2/d2t2.go:33-39 | the memory after a write keeps its length and differs at most at the written address, which holds the value |
| Intcode.ReadAfterWrite | d2t2/d2t2.go:33-39 | a read after a write sees the value at an in-range written address and the old contents elsewhere |
| Intcode.WriteToAddress | d2t2/d2t2.go:33-39 | succeeds exactly for an in-range address; the array afterwards equals the old contents with only that cell set; a failed write changes nothing |
| Intcode.CalculateOpResult | d2t2/d2t2.go:114-123 | opcode 1 gives the sum, opcode 2 the product, any other opcode an unknown-opcode error carrying it |
| Intcode.Step | d2t2/d2t2.go:45-80 | one instruction stops exactly on opcode 99 at an in-range pc, with mem[0]; it goes on only for opcode 1 or 2 with pc + 3 in range, keeping the memory size and every cell other than the destination; a fault names pc, pc + 1, pc + 2 or pc + 3 |
| Intcode.FetchFaultOrder | d2t2/d2t2.go:45-48 | a fetch fault happens exactly when pc is outside memory, and it names pc and the memory size |
| Intcode.OperandFaultOrder | d2t2/d2t2.go:56-66 | an operand fault happens exactly after a fetched non-halt opcode: at pc + 1 when the first pointer read fails, and at pc + 2 when the first succeeds and the second fails, before the opcode is checked |
| Intcode.DestinationFaultOrder | d2t2/d2t2.go:73-77 | a destination fault happens exactly for opcode 1 or 2 whose two operand reads succeed and whose destination cell pc + 3 is out of range; it names pc + 3 |
| Intcode.Run | d2t2/d2t2.go:41-82 | a run never changes the length of memory |
| Intcode.HaltStopsAtOnce | d2t2/d2t2.go:50-54 | opcode 99 at pc ends the run with mem[0] and the memory unchanged |
| Intcode.UnknownOpcodeOrder | d2t2/d2t2.go:45-76 | an unknown-opcode fault happens exactly when the fetch succeeds, the opcode is not 1, 2 or 99 and both operand reads succeed; it is reported at pc + 2, before the destination read and any write |
| Intcode.BadDestinationSkipped | d2t2/d2t2.go:74-80 | an arithmetic instruction whose destination is out of range leaves memory unchanged and execution goes on |
| Intcode.ArithmeticStep | d2t2/d2t2.go:56-80 | an add or multiply with valid operands and destination stores the sum or product at the destination and changes nothing else |
| Intcode.HaltedRunReturnsFirstCell | d2t2/d2t2.go:50-54 | however many instructions ran before it, a halted run returns the first cell of its final memory |
| Intcode.FaultOnInstructionGrid | d2t2/d2t2.go:43-81 | pc moves in steps of 4: a fault is reported at start + 4k (fetch, and only past the end of memory), +4k+1 or +4k+2 (operands), +4k+2 (opcode) or +4k+3 (destination) |
| Intcode.RunProgram | d2t2/d2t2.go:41-82 | the loop returns exactly the verdict of the run from pc 0 and leaves the array holding the run's final memory |
| Intcode.SelfAddExample | d2t2/d2t2.go:41-82 | [1,0,0,0,99] halts with 2 and memory [2,0,0,0,99] |
| Intcode.MultiplyExample | d2t2/d2t2.go:41-82 | [2,3,0,3,99] halts with 2 and memory [2,3,0,6,99] |
| Intcode.SelfModifyingExample | d2t2/d2t2.go:41-82 | [1,1,1,4,99,5,6,0,99] rewrites its own halt into a multiply and halts with 30 |
| Intcode.UnknownOpcodeExample | d2t2/d2t2.go:68-71 | [3,0,0,0] is rejected as unknown opcode 3 at pc 2 |
| IntcodeSearch.Patched | d2t2/d2t2.go:135-139 | the fresh copy keeps the size, holds op1 at address 1 and op2 at address 2 when those exist, and every other cell of the initial memory |
| IntcodeSearch.Trial | d2t2/d2t2.go:135-141 | a trial keeps the memory size, and a halted trial returns the first cell of its final memory |
| IntcodeSearch.SearchFrom | d2t2/d2t2.go:133-150 | a pair the scan reports lies in 0..99 × 0..99 and not before the starting pair |
| IntcodeSearch.Search | d2t2/d2t2.go:133-151 | a reported pair lies in 0..99 × 0..99, and a Found pair's trial halts with the target |
| IntcodeSearch.SearchFromSpec | d2t2/d2t2.go:133-150 | from any starting pair the scan reports the first later pair whose trial hits the target (Found) or faults (Aborted), every pair scanned before it halting with another value; NotFound only when all remaining pairs miss |
| IntcodeSearch.SearchSpec | d2t2/d2t2.go:133-151 | the whole search returns the first pair in op1-outer, op2-inner order that hits the target or faults; NotFound means every pair in 0..99 × 0..99 halts with another value |
| IntcodeSearch.SearchFromTrial | d2t2/d2t2.go:141-148 | one scan step aborts on a fault, stops on a hit, and otherwise moves on to the next op2 |
| IntcodeSearch.RunTrial | d2t2/d2t2.go:135-141 | a trial runs a fresh copy of the initial memory with op1 and op2 written to addresses 1 and 2 (skipped when out of range) |
| IntcodeSearch.FindNounVerb | d2t2/d2t2.go:133-151 | the nested loop returns exactly the search outcome; the initial memory is never written |
| WiresPartOne.Abs | d3t2/d3t2.go:22-27 | the absolute value is non-negative and equals x or -x |
| WiresPartOne.IsVertical | d3t1/d3t1.go:19-21 | a segment is vertical exactly when x1 == x2 |
| WiresPartOne.Intersects | d3t1/d3t1.go:23-41 | segments of equal orientation never cross; a reported crossing lies in both segments' boxes and is (vertical x1, horizontal y1); no crossing reports (false, 0, 0) |
| WiresPartOne.IntersectsSymmetric | d3t1/d3t1.go:25-31 | the test gives the same answer with its arguments swapped |
| WiresPartOne.IntersectsComplete | d3t1/d3t1.go:33-40 | for axis-aligned perpendicular segments, any shared point is reported as the crossing |
| WiresPartOne.ManhattanDistance | d3t1/d3t1.go:107 | the distance is non-negative and zero exactly at the origin |
| WiresPartOne.FindClosestIntersect | d3t1/d3t1.go:100-115 | the result is positive, at most 100000000000, no larger than any non-zero crossing distance, and is either 100000000000 or the distance of some crossing |
| WiresPartOne.Split | d3t1/d3t1.go:53-63 | tokenising yields at least one token and no token holds a comma |
| WiresPartOne.SplitJoin | d3t1/d3t1.go:53-63 | joining the tokens with commas gives back the input |
| WiresPartOne.JoinSplit | d3t1/d3t1.go:53-63 | tokenising comma-joined comma-free tokens gives back the tokens |
| WiresPartOne.DecimalRoundTrip | d3t1/d3t1.go:64 | the decimal spelling of a length reads back as that length |
| WiresPartOne.ParseMove | d3t1/d3t1.go:64-80 | a token is accepted exactly when it is a U/R/D/L letter followed by decimal digits; a missing or bad length is reported before a bad direction |
| WiresPartOne.MoveRoundTrip | d3t1/d3t1.go:64-80 | the token that spells a move parses back to that move |
| WiresPartOne.ParseMoves | d3t1/d3t1.go:54-88 | all tokens parse exactly when each does, giving one move per token in order; otherwise the error is that of the first bad token |
| WiresPartOne.ParseMovesFirstFailure | d3t1/d3t1.go:54-88 | the first token that fails decides the path's error |
| WiresPartOne.ParseMovesExtend | d3t1/d3t1.go:54-83 | a token that parses extends the moves read from the tokens before it by its move |
| WiresPartOne.ParseMovesStopAt | d3t1/d3t1.go:64-80 | a bad token after tokens that all parse decides the path's error |
| WiresPartOne.Advance | d3t1/d3t1.go:67-80 | U and D change only y, R and L only x, each in its own sense, and the end is exactly `length` away from the start |
| WiresPartOne.TracesExtend | d3t1/d3t1.go:82-83 | a segment drawn from the previous end (or the origin) keeps the wire contiguous |
| WiresPartOne.PathAppend | d3t1/d3t1.go:67-83 | one more move adds one segment, from where the path ended to where the move leads |
| WiresPartOne.PathTraces | d3t1/d3t1.go:49-90 | the path drawn for the moves starts at (0,0), each segment starts at the previous end and ends where its move leads, and the path ends at the last segment's end |
| WiresPartOne.ReadPathTraces | d3t1/d3t1.go:49-90 | reading fails exactly when some token does not parse, with the first bad token's error; otherwise the segments trace the moves, one per token in order |
| WiresPartOne.ReadInputLine | d3t1/d3t1.go:49-90 | the loop returns exactly what reading the tokens yields: the first bad token's error, or the path its moves draw |
| WiresPartTwo.IntersectsSteps | d3t2/d3t2.go:29-49 | a crossing is reported exactly when the part-1 test reports one; its value is the steps each wire takes to the crossing point, summed; same orientation gives (false, 0) |
| WiresPartTwo.IntersectsStepsSymmetric | d3t2/d3t2.go:30-37 | the test gives the same answer with its arguments swapped |
| WiresPartTwo.FindClosestIntersect | d3t2/d3t2.go:109-123 | the result is non-zero, at most 100000000000, no larger than any non-zero combined step count of a crossing, and is either 100000000000 or such a count |
| WiresPartTwo.StepsExtend | d3t2/d3t2.go:90-91 | the step count grows by the move's length, and every segment records the total length of the moves before it |
| WiresPartTwo.WireAppend | d3t2/d3t2.go:76-92 | one more move adds one segment, from where the wire ended to where the move leads, carrying the steps before it; the total length grows by the move's length |
| WiresPartTwo.WireIsPath | d3t2/d3t2.go:57-99 | without their step counts, the segments part 2 draws are exactly those of part 1 |
| WiresPartTwo.WireCountsSteps | d3t2/d3t2.go:58-91 | segment k of the drawn wire records the sum of the lengths of moves 0..k-1 (0 for the first) |
| WiresPartTwo.ReadWireTraces | d3t2/d3t2.go:57-99 | reading fails exactly when some token does not parse, with the first bad token's error; otherwise the segments trace the moves as in part 1, and segment k records the sum of the lengths of moves 0..k-1 |
| WiresPartTwo.ReadInputLine | d3t2/d3t2.go:57-99 | the loop returns exactly what reading the tokens yields: the first bad token's error, or the wire its moves draw |

## Left out

- File reading and line splitting (`common/common_input.go`, and `readInput` in each
  program): the model starts from a memory `seq`/`array`, a list of masses, or one path
  string. `os.Args` and all printing are left out as well.
- Process exits: `log.Fatal`, `log.Panic` and `panic` become error results. The search
  turns a faulting trial into `Aborted` and an exhausted space into `NotFound`.
- Floating point: `math.Floor(float64(mass)/3)` is modelled as integer floor division and
  `math.Abs(float64(x))` as the integer absolute value. float64 rounding of huge values is
  not modelled.
- Go's 64-bit wrap-around in add, multiply, fuel sums and coordinate sums: integers are
  unbounded.
- Negative addresses: the Go accessors check only the upper bound, and a negative address
  panics. Here a negative address or pointer is an out-of-range error. A negative
  destination is therefore skipped like one past the end.
- The text of the Go error messages: faults keep the reported pc and the offending
  address or opcode, not the formatted string.
- `strconv.Atoi` corner cases for masses (and the ignored conversion error) are out of
  scope. Masses arrive as integers.
- WiresPartOne.ParseMove: accepts only a letter followed by unsigned decimal digits.
  Signed lengths that `strconv.Atoi` would accept (`+5`, `-5`) are rejected. Tokens are
  read as characters, not bytes: a token whose first character is not ASCII is reported
  as InvalidDirection where the Go code reports a bad length. Lengths beyond Go's `int`
  range, which `strconv.Atoi` rejects with a range error and the Go code then panics on
  (`d3t1/d3t1.go:64-65`, `d3t2/d3t2.go:72-73`), are accepted as unbounded integers.
- WiresPartOne.Split: tokens of 4096 bytes or more, which the Go buffered reader rejects
  with `ErrBufferFull` and a panic (`d3t1/d3t1.go:53-62`, `d3t2/d3t2.go:61-70`), are
  accepted; the model tokenises lines of any length.
- Collinear overlapping segments never count as crossings, as in the Go code; the model
  keeps that behaviour and does not treat it as a defect.
