/** Fuel for a module when the fuel itself needs fuel (d1t2). */
module FuelPartTwo {
  import FuelPartOne

  /** The recursive accumulator of the Go code: add the fuel the current mass needs to
      `runningTotal` and carry on with that fuel as the new mass, until the fuel needed is
      no longer positive. Each recursive mass is the positive fuel amount, which is strictly
      smaller than the mass it came from. */
  function CalcModuleFuel(mass: int, runningTotal: int): (total: int)
    ensures total >= runningTotal
    ensures FuelPartOne.ModuleFuel(mass) <= 0 ==> total == runningTotal
    ensures FuelPartOne.ModuleFuel(mass) > 0 ==> total >= runningTotal + FuelPartOne.ModuleFuel(mass)
    decreases mass
  {
    var fuelRequired := FuelPartOne.ModuleFuel(mass);
    if fuelRequired <= 0 then runningTotal
    else CalcModuleFuel(fuelRequired, runningTotal + fuelRequired)
  }

  /** Reference definition without an accumulator: the fuel chain of a mass is its fuel
      plus the fuel chain of that fuel, as long as the fuel is positive. */
  function FuelChain(mass: int): int
    decreases mass
  {
    var fuel := FuelPartOne.ModuleFuel(mass);
    if fuel <= 0 then 0 else fuel + FuelChain(fuel)
  }

  /** The accumulator adds exactly the fuel chain to the running total. */
  lemma {:induction false} CalcModuleFuelIsChain(mass: int, runningTotal: int)
    ensures CalcModuleFuel(mass, runningTotal) == runningTotal + FuelChain(mass)
    decreases mass
  {
    var fuel := FuelPartOne.ModuleFuel(mass);
    if fuel > 0 {
      CalcModuleFuelIsChain(fuel, runningTotal + fuel);
    }
  }

  /** The running total can be factored out of the recursion. */
  lemma AccumulatorFactors(mass: int, runningTotal: int)
    ensures CalcModuleFuel(mass, runningTotal) == runningTotal + CalcModuleFuel(mass, 0)
  {
    CalcModuleFuelIsChain(mass, runningTotal);
    CalcModuleFuelIsChain(mass, 0);
  }

  /** Modules of mass below 9 need no fuel at all; heavier ones need at least their first step. */
  lemma {:induction false} FuelChainBounds(mass: int)
    ensures FuelChain(mass) >= 0
    ensures mass < 9 ==> FuelChain(mass) == 0
    ensures mass >= 9 ==> FuelChain(mass) >= FuelPartOne.ModuleFuel(mass) > 0
    decreases mass
  {
    var fuel := FuelPartOne.ModuleFuel(mass);
    if fuel > 0 {
      FuelChainBounds(fuel);
    }
  }

  /** The total the program prints: the full fuel of every module, summed. */
  function TotalFuel(masses: seq<int>): int
  {
    if masses == [] then 0 else TotalFuel(masses[..|masses| - 1]) + CalcModuleFuel(masses[|masses| - 1], 0)
  }

  /** The summation loop of the program's entry point, over already-parsed masses. */
  method SumModuleFuel(masses: seq<int>) returns (sum: int)
    ensures sum == TotalFuel(masses)
    ensures sum >= 0
  {
    sum := 0;
    for i := 0 to |masses|
      invariant sum == TotalFuel(masses[..i])
      invariant sum >= 0
    {
      assert masses[..i + 1][..i] == masses[..i];
      sum := sum + CalcModuleFuel(masses[i], 0);
    }
    assert masses[..|masses|] == masses;
  }
}
