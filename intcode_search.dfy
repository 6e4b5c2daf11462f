/** The brute-force search of d2t2's entry point: for each (op1, op2) in 0..99 x 0..99,
    outer op1 and inner op2, run a fresh copy of the initial memory with the pair written
    to addresses 1 and 2, and stop at the first run whose result equals the target. */
module IntcodeSearch {
  import opened Wrappers
  import opened Intcode

  /** Each parameter ranges over 0 .. Bound - 1. */
  const Bound: nat := 100

  /** How the search ends. A faulting run aborts the whole search (a process exit in the
      Go code), naming the pair it was trying. */
  datatype SearchOutcome =
    | Found(op1: nat, op2: nat)
    | Aborted(op1: nat, op2: nat, error: RunError)
    | NotFound

  /** The initial memory with the pair injected; writes out of range are skipped, as the
      Go code discards their errors. */
  function Patched(initial: seq<int>, op1: int, op2: int): (mem: seq<int>)
    ensures |mem| == |initial|
    ensures |initial| > 1 ==> mem[1] == op1
    ensures |initial| > 2 ==> mem[2] == op2
    ensures forall i :: 0 <= i < |initial| && i != 1 && i != 2 ==> mem[i] == initial[i]
  {
    Written(Written(initial, 1, op1), 2, op2)
  }

  /** One trial: the run of the patched copy. It keeps the memory size, and a halted trial
      returns the first cell of its final memory. */
  function Trial(initial: seq<int>, op1: int, op2: int): (e: Execution)
    ensures |e.mem| == |initial|
    ensures e.Halted? ==> |initial| > 0 && e.value == e.mem[0]
  {
    var e := Run(Patched(initial, op1, op2), 0);
    if e.Halted? then HaltedRunReturnsFirstCell(Patched(initial, op1, op2), 0); e else e
  }

  /** (a1, a2) comes before (b1, b2) in the scan: op1 varies slowest. */
  predicate Before(a1: int, a2: int, b1: int, b2: int)
  {
    a1 < b1 || (a1 == b1 && a2 < b2)
  }

  predicate InSpace(op1: int, op2: int)
  {
    0 <= op1 < Bound && 0 <= op2 < Bound
  }

  /** The search from the pair (op1, op2) on, in iteration order. A reported pair lies in
      the space and not before the starting pair. */
  function SearchFrom(initial: seq<int>, target: int, op1: nat, op2: nat): (r: SearchOutcome)
    requires op1 <= Bound && op2 <= Bound
    ensures !r.NotFound? ==> InSpace(r.op1, r.op2) && !Before(r.op1, r.op2, op1, op2)
    decreases Bound - op1, Bound - op2
  {
    if op1 == Bound then NotFound
    else if op2 == Bound then SearchFrom(initial, target, op1 + 1, 0)
    else
      match Trial(initial, op1, op2)
      case Faulted(e, _) => Aborted(op1, op2, e)
      case Halted(v, _) =>
        if v == target then Found(op1, op2) else SearchFrom(initial, target, op1, op2 + 1)
  }

  /** The whole search, from (0, 0). Found reports a pair whose trial halted with the target. */
  function Search(initial: seq<int>, target: int): (r: SearchOutcome)
    ensures !r.NotFound? ==> InSpace(r.op1, r.op2)
    ensures r.Found? ==> Trial(initial, r.op1, r.op2) == Halted(target, Trial(initial, r.op1, r.op2).mem)
  {
    SearchFromSpec(initial, target, 0, 0);
    SearchFrom(initial, target, 0, 0)
  }

  /** The trial of a pair halts, with a result other than the target. */
  predicate Misses(initial: seq<int>, target: int, op1: int, op2: int)
  {
    Trial(initial, op1, op2).Halted? && Trial(initial, op1, op2).value != target
  }

  /** Every pair in the space from (s1, s2) up to (but excluding) (e1, e2) misses. */
  ghost predicate AllMiss(initial: seq<int>, target: int, s1: int, s2: int, e1: int, e2: int)
  {
    forall a, b :: InSpace(a, b) && !Before(a, b, s1, s2) && Before(a, b, e1, e2) ==>
      Misses(initial, target, a, b)
  }

  /** What the scan from (s1, s2) promises about its outcome `r`: the first pair from
      (s1, s2) on that hits or faults, all pairs between missing; or all remaining pairs miss. */
  ghost predicate ReportsFirst(initial: seq<int>, target: int, s1: int, s2: int, r: SearchOutcome)
  {
    match r
    case Found(a, b) =>
      InSpace(a, b) && !Before(a, b, s1, s2) && Trial(initial, a, b).Halted?
      && Trial(initial, a, b).value == target && AllMiss(initial, target, s1, s2, a, b)
    case Aborted(a, b, e) =>
      InSpace(a, b) && !Before(a, b, s1, s2) && Trial(initial, a, b).Faulted?
      && Trial(initial, a, b).error == e && AllMiss(initial, target, s1, s2, a, b)
    case NotFound =>
      AllMiss(initial, target, s1, s2, Bound, 0)
  }

  /** Moving the start from (op1 + 1, 0) back to the end (op1, Bound) of the previous row
      adds no pair of the space. */
  lemma ReportsFirstWrap(initial: seq<int>, target: int, op1: int, r: SearchOutcome)
    requires ReportsFirst(initial, target, op1 + 1, 0, r)
    ensures ReportsFirst(initial, target, op1, Bound, r)
  {
    match r
    case Found(a, b) =>
      assert AllMiss(initial, target, op1, Bound, a, b);
    case Aborted(a, b, e) =>
      assert AllMiss(initial, target, op1, Bound, a, b);
    case NotFound =>
      assert AllMiss(initial, target, op1, Bound, Bound, 0);
  }

  /** Moving the start back by one pair that misses keeps the promise. */
  lemma ReportsFirstMiss(initial: seq<int>, target: int, op1: int, op2: int, r: SearchOutcome)
    requires InSpace(op1, op2) && Misses(initial, target, op1, op2)
    requires ReportsFirst(initial, target, op1, op2 + 1, r)
    ensures ReportsFirst(initial, target, op1, op2, r)
  {
    match r
    case Found(a, b) =>
      assert AllMiss(initial, target, op1, op2, a, b);
    case Aborted(a, b, e) =>
      assert AllMiss(initial, target, op1, op2, a, b);
    case NotFound =>
      assert AllMiss(initial, target, op1, op2, Bound, 0);
  }

  lemma {:induction false} SearchFromSpec(initial: seq<int>, target: int, op1: nat, op2: nat)
    requires op1 <= Bound && op2 <= Bound
    ensures ReportsFirst(initial, target, op1, op2, SearchFrom(initial, target, op1, op2))
    decreases Bound - op1, Bound - op2
  {
    var r := SearchFrom(initial, target, op1, op2);
    if op1 == Bound {
      assert r == NotFound;
      assert AllMiss(initial, target, op1, op2, Bound, 0);
    } else if op2 == Bound {
      assert r == SearchFrom(initial, target, op1 + 1, 0);
      SearchFromSpec(initial, target, op1 + 1, 0);
      ReportsFirstWrap(initial, target, op1, r);
    } else {
      var t := Trial(initial, op1, op2);
      if t.Faulted? {
        assert r == Aborted(op1, op2, t.error);
        assert AllMiss(initial, target, op1, op2, op1, op2);
      } else if t.value == target {
        assert r == Found(op1, op2);
        assert AllMiss(initial, target, op1, op2, op1, op2);
      } else {
        assert r == SearchFrom(initial, target, op1, op2 + 1);
        SearchFromSpec(initial, target, op1, op2 + 1);
        ReportsFirstMiss(initial, target, op1, op2, r);
      }
    }
  }

  /** The search reports the first pair in scan order whose trial does not miss: a hit is
      reported as Found, a fault as Aborted; NotFound means every pair in the space missed. */
  lemma SearchSpec(initial: seq<int>, target: int)
    ensures match Search(initial, target)
      case Found(a, b) =>
        InSpace(a, b) && Trial(initial, a, b) == Halted(target, Trial(initial, a, b).mem)
        && AllMiss(initial, target, 0, 0, a, b)
      case Aborted(a, b, e) =>
        InSpace(a, b) && Trial(initial, a, b) == Faulted(e, Trial(initial, a, b).mem)
        && AllMiss(initial, target, 0, 0, a, b)
      case NotFound =>
        forall a, b :: InSpace(a, b) ==> Misses(initial, target, a, b)
  {
    SearchFromSpec(initial, target, 0, 0);
  }

  /** One step of the scan, in terms of what the trial of the current pair returns. */
  lemma SearchFromTrial(initial: seq<int>, target: int, op1: nat, op2: nat)
    requires InSpace(op1, op2)
    ensures SearchFrom(initial, target, op1, op2) ==
              match Trial(initial, op1, op2).Verdict()
              case Failure(e) => Aborted(op1, op2, e)
              case Success(v) => if v == target then Found(op1, op2) else SearchFrom(initial, target, op1, op2 + 1)
  {
  }

  /** One trial of the inner loop: a fresh copy of the initial memory, the pair written to
      addresses 1 and 2 (errors discarded), and a run of the copy. */
  method RunTrial(initial: array<int>, op1: int, op2: int) returns (result: Result<int, RunError>)
    ensures result == Trial(initial[..], op1, op2).Verdict()
  {
    var mem := new int[initial.Length];
    forall i | 0 <= i < initial.Length {
      mem[i] := initial[i];
    }
    assert mem[..] == initial[..];

    var _ := WriteToAddress(mem, 1, op1);
    var _ := WriteToAddress(mem, 2, op2);
    assert mem[..] == Patched(initial[..], op1, op2);

    result := RunProgram(mem);
  }

  /** The search loop lifted out of `main`. Each trial runs on a fresh array, so the
      initial memory is never modified (no `modifies` clause names it). */
  method FindNounVerb(initial: array<int>, target: int) returns (r: SearchOutcome)
    ensures r == Search(initial[..], target)
  {
    for op1 := 0 to Bound
      invariant Search(initial[..], target) == SearchFrom(initial[..], target, op1, 0)
    {
      for op2 := 0 to Bound
        invariant Search(initial[..], target) == SearchFrom(initial[..], target, op1, op2)
      {
        var result := RunTrial(initial, op1, op2);
        SearchFromTrial(initial[..], target, op1, op2);
        if result.Failure? {
          return Aborted(op1, op2, result.error);
        }
        if result.value == target {
          return Found(op1, op2);
        }
      }
    }
    return NotFound;
  }
}
