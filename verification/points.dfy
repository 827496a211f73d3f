/** The points policy of the rewards program: how many points one purchase earns. */
module PointsPolicy {
  import opened Records

  /** Rupees per base point. */
  const RupeesPerPoint: nat := 300
  /** The density (in thousandths) from which petrol earns the quality bonus. */
  const PremiumDensity: nat := 750
  /** The amount from which diesel earns the slab bonus, and that bonus. */
  const DieselSlab: nat := 500
  const DieselBonus: nat := 2

  const Petrol := "petrol"
  const Diesel := "diesel"

  function BasePoints(amount: nat): nat { amount / RupeesPerPoint }

  /** The truthiness test on the optional density: absent and zero both fail it. */
  predicate DensityGiven(density: Option<nat>) { density.Some? && density.value != 0 }

  predicate PremiumPetrol(fuelType: string, density: Option<nat>) {
    fuelType == Petrol && DensityGiven(density) && density.value >= PremiumDensity
  }

  function Max(a: nat, b: nat): nat { if a >= b then a else b }

  /** Points earned by a purchase: floor(amount/300), plus a truncated 20%
      for premium petrol, plus 2 for diesel from 500 rupees, and never less
      than 1 once the amount reaches 300. */
  function CalculatePoints(amount: nat, fuelType: string, density: Option<nat>): (points: nat)
    ensures amount < RupeesPerPoint ==> points == 0
    ensures amount >= RupeesPerPoint ==> points >= 1
    ensures points >= BasePoints(amount)
  {
    var base := BasePoints(amount);
    var graded := if PremiumPetrol(fuelType, density) then base + base / 5 else base;
    var slabbed := if fuelType == Diesel && amount >= DieselSlab then graded + DieselBonus else graded;
    Max(slabbed, if amount >= RupeesPerPoint then 1 else 0)
  }

  /** Petrol earns base + floor(base/5) with a present density of at least
      0.75, and exactly the base otherwise. */
  lemma PetrolPoints(amount: nat, density: Option<nat>)
    ensures CalculatePoints(amount, Petrol, density) ==
            if DensityGiven(density) && density.value >= PremiumDensity
            then BasePoints(amount) + BasePoints(amount) / 5
            else BasePoints(amount)
  {
  }

  /** Diesel earns base + 2 from 500 rupees, and exactly the base below. */
  lemma DieselPoints(amount: nat, density: Option<nat>)
    ensures CalculatePoints(amount, Diesel, density) ==
            if amount >= DieselSlab then BasePoints(amount) + DieselBonus else BasePoints(amount)
  {
  }

  /** Any other fuel type earns exactly floor(amount/300), whatever the density. */
  lemma OtherFuelPoints(amount: nat, fuelType: string, density: Option<nat>)
    requires fuelType != Petrol && fuelType != Diesel
    ensures CalculatePoints(amount, fuelType, density) == BasePoints(amount)
  {
  }

  /** Worked values of the rule: 299 rupees of diesel earn nothing; 300
      rupees of another fuel earn 1; 600 rupees of petrol at density 0.80
      earn 2, since the 20% bonus on 2 points rounds down to nothing; 500
      and 900 rupees of diesel earn 3 and 5, the base plus 2. */
  lemma WorkedValues()
    ensures CalculatePoints(299, Diesel, None) == 0
    ensures CalculatePoints(300, "regular", None) == 1
    ensures CalculatePoints(600, Petrol, Some(800)) == 2
    ensures CalculatePoints(500, Diesel, None) == 3
    ensures CalculatePoints(900, Diesel, None) == 5
  {
  }
}
