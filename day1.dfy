/** Day 1 (src/days/day_1.rs): fuel for the spacecraft modules, where the
    fuel itself needs fuel. */
module Day1 {
  import opened Wrappers

  /** `module_fuel_requirement`: a third of the mass (rounded down) minus
      two, plus the fuel that fuel needs; masses of at most 8 need none.
      The total never exceeds half the mass, so it fits wherever the mass
      does. */
  function ModuleFuel(mass: u32): (fuel: u32)
    ensures fuel == 0 <==> mass / 3 <= 2
    ensures fuel <= mass / 2
    decreases mass
  {
    if mass / 3 <= 2 then 0
    else
      var f: u32 := mass / 3 - 2;
      f + ModuleFuel(f)
  }

  /** With the recursion unrolled once: the direct fuel is counted, and the
      rest is the requirement of that fuel. */
  lemma FuelOfFuel(mass: u32)
    requires mass / 3 > 2
    ensures ModuleFuel(mass) == (mass / 3 - 2) + ModuleFuel(mass / 3 - 2)
    ensures ModuleFuel(mass) >= mass / 3 - 2
  {
  }

  lemma ModuleFuelSmallExamples()
    ensures ModuleFuel(12) == 2
    ensures ModuleFuel(14) == 2
    ensures ModuleFuel(1969) == 966
  {
    assert ModuleFuel(2) == 0;
    assert ModuleFuel(5) == 0;
    assert ModuleFuel(21) == 5;
    assert ModuleFuel(70) == 21 + 5;
    assert ModuleFuel(216) == 70 + 26;
    assert ModuleFuel(654) == 216 + 96;
    assert ModuleFuel(1969) == 654 + 312;
  }

  lemma ModuleFuelLargeExample()
    ensures ModuleFuel(100756) == 50346
  {
    assert ModuleFuel(2) == 0;
    assert ModuleFuel(12) == 2;
    assert ModuleFuel(43) == 12 + 2;
    assert ModuleFuel(135) == 43 + 14;
    assert ModuleFuel(411) == 135 + 57;
    assert ModuleFuel(1240) == 411 + 192;
    assert ModuleFuel(3728) == 1240 + 603;
    assert ModuleFuel(11192) == 3728 + 1843;
    assert ModuleFuel(33583) == 11192 + 5571;
    assert ModuleFuel(100756) == 33583 + 16763;
  }

  /** `total_fuel_requirement` on the parsed masses: the sum of the
      modules' requirements, never more than half the total mass. */
  function TotalFuel(masses: seq<u32>): (total: nat)
    ensures total <= MassSum(masses) / 2
  {
    if masses == [] then 0 else ModuleFuel(masses[0]) + TotalFuel(masses[1..])
  }

  /** The total is additive over any split of the module list. */
  lemma {:induction false} TotalFuelSplits(a: seq<u32>, b: seq<u32>)
    ensures TotalFuel(a + b) == TotalFuel(a) + TotalFuel(b)
    decreases |a|
  {
    if a == [] {
      assert a + b == b;
    } else {
      assert (a + b)[1..] == a[1..] + b;
      TotalFuelSplits(a[1..], b);
    }
  }

  /** Every module contributes: the total is at least each module's share. */
  lemma {:induction false} TotalFuelBounds(masses: seq<u32>)
    ensures forall i :: 0 <= i < |masses| ==> ModuleFuel(masses[i]) <= TotalFuel(masses)
    decreases |masses|
  {
    if masses != [] {
      TotalFuelBounds(masses[1..]);
      assert forall i :: 1 <= i < |masses| ==> masses[i] == masses[1..][i - 1];
    }
  }

  /** The sum of the masses. */
  function MassSum(masses: seq<u32>): nat {
    if masses == [] then 0 else masses[0] + MassSum(masses[1..])
  }
}
