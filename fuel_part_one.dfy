/** Fuel for a module from its mass (d1t1): a third of the mass, rounded down, minus two. */
module FuelPartOne {

  /** Fuel a module of the given mass needs. The Go code divides in floating point and
      floors; for a divisor of 3 that is exact integer floor division, which Dafny's `/` is. */
  function ModuleFuel(mass: int): (fuel: int)
    ensures 3 * (fuel + 2) <= mass < 3 * (fuel + 2) + 3
    ensures fuel < 0 <==> mass < 6
    ensures fuel == 0 <==> 6 <= mass < 9
  {
    mass / 3 - 2
  }

  /** A heavier module never needs less fuel. */
  lemma ModuleFuelMonotone(m1: int, m2: int)
    requires m1 <= m2
    ensures ModuleFuel(m1) <= ModuleFuel(m2)
  {
  }

  /** The total the program prints: the fuel of every module, summed. */
  function TotalFuel(masses: seq<int>): int
  {
    if masses == [] then 0 else TotalFuel(masses[..|masses| - 1]) + ModuleFuel(masses[|masses| - 1])
  }

  /** The total over two lists of modules is the sum of their totals. */
  lemma {:induction false} TotalFuelAppend(a: seq<int>, b: seq<int>)
    ensures TotalFuel(a + b) == TotalFuel(a) + TotalFuel(b)
    decreases |b|
  {
    if b == [] {
      assert a + b == a;
    } else {
      var last := |b| - 1;
      assert (a + b)[..|a + b| - 1] == a + b[..last];
      TotalFuelAppend(a, b[..last]);
    }
  }

  /** The summation loop of the program's entry point, over already-parsed masses. */
  method SumModuleFuel(masses: seq<int>) returns (sum: int)
    ensures sum == TotalFuel(masses)
  {
    sum := 0;
    for i := 0 to |masses|
      invariant sum == TotalFuel(masses[..i])
    {
      assert masses[..i + 1][..i] == masses[..i];
      sum := sum + ModuleFuel(masses[i]);
    }
    assert masses[..|masses|] == masses;
  }
}
