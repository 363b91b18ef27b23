/**
 * The four static emission-factor tables (kg CO2e per unit) and the
 * per-category emission functions: table factor times quantity, with
 * factor 0 for an activity type the table does not list.
 */
module Emissions {

  const TransportTypes: set<string> := {"car", "bus", "train", "flight", "bike", "walk"}
  const WasteTypes: set<string> := {"general", "recyclable", "biodegradable", "compost"}
  const DietTypes: set<string> := {"meat", "fish", "vegetarian", "vegan"}
  const EnergyTypes: set<string> := {"fossil", "renewable", "mixed"}

  function TransportFactor(t: string): (f: real)
    ensures 0.0 <= f <= 0.15
    ensures t !in TransportTypes ==> f == 0.0
  {
    if t == "car" then 0.12
    else if t == "bus" then 0.05
    else if t == "train" then 0.03
    else if t == "flight" then 0.15
    else if t == "bike" then 0.0
    else if t == "walk" then 0.0
    else 0.0
  }

  function WasteFactor(t: string): (f: real)
    ensures 0.0 <= f <= 2.5
    ensures f == 2.5 <==> t == "general"
    ensures t !in WasteTypes ==> f == 0.0
  {
    if t == "general" then 2.5
    else if t == "recyclable" then 1.0
    else if t == "biodegradable" then 0.8
    else if t == "compost" then 0.2
    else 0.0
  }

  function DietFactor(t: string): (f: real)
    ensures 0.0 <= f <= 3.0
    ensures f == 3.0 <==> t == "meat"
    ensures t !in DietTypes ==> f == 0.0
  {
    if t == "meat" then 3.0
    else if t == "fish" then 1.5
    else if t == "vegetarian" then 1.0
    else if t == "vegan" then 0.5
    else 0.0
  }

  function EnergyFactor(t: string): (f: real)
    ensures 0.0 <= f <= 0.5
    ensures f == 0.5 <==> t == "fossil"
    ensures t !in EnergyTypes ==> f == 0.0
  {
    if t == "fossil" then 0.5
    else if t == "renewable" then 0.1
    else if t == "mixed" then 0.3
    else 0.0
  }

  function TransportEmissions(t: string, distance: real): (r: real)
    ensures distance >= 0.0 ==> r >= 0.0
    ensures t !in TransportTypes || t == "bike" || t == "walk" ==> r == 0.0
    ensures t == "car" ==> r == 0.12 * distance
  {
    TransportFactor(t) * distance
  }

  function WasteEmissions(t: string, weight: real): (r: real)
    ensures weight >= 0.0 ==> 0.0 <= r <= 2.5 * weight
    ensures t !in WasteTypes ==> r == 0.0
    ensures t == "general" ==> r == 2.5 * weight
  {
    WasteFactor(t) * weight
  }

  function DietEmissions(t: string, meals: real): (r: real)
    ensures meals >= 0.0 ==> 0.0 <= r <= 3.0 * meals
    ensures t !in DietTypes ==> r == 0.0
    ensures t == "meat" ==> r == 3.0 * meals
  {
    DietFactor(t) * meals
  }

  /** The energy table has no entry for "saved", so it emits 0 here. */
  function EnergyEmissions(t: string, amount: real): (r: real)
    ensures amount >= 0.0 ==> 0.0 <= r <= 0.5 * amount
    ensures t !in EnergyTypes ==> r == 0.0
    ensures t == "saved" ==> r == 0.0
    ensures t == "fossil" ==> r == 0.5 * amount
  {
    EnergyFactor(t) * amount
  }

  /** Every emission function is linear in its quantity. */
  lemma EmissionsLinear(t: string, q1: real, q2: real, k: real)
    ensures TransportEmissions(t, q1 + q2) == TransportEmissions(t, q1) + TransportEmissions(t, q2)
    ensures WasteEmissions(t, q1 + q2) == WasteEmissions(t, q1) + WasteEmissions(t, q2)
    ensures DietEmissions(t, q1 + q2) == DietEmissions(t, q1) + DietEmissions(t, q2)
    ensures EnergyEmissions(t, q1 + q2) == EnergyEmissions(t, q1) + EnergyEmissions(t, q2)
    ensures TransportEmissions(t, k * q1) == k * TransportEmissions(t, q1)
    ensures WasteEmissions(t, k * q1) == k * WasteEmissions(t, q1)
    ensures DietEmissions(t, k * q1) == k * DietEmissions(t, q1)
    ensures EnergyEmissions(t, k * q1) == k * EnergyEmissions(t, q1)
  {
  }

  /**
   * A substitute activity type never emits more than its baseline
   * (car, general waste, meat, fossil energy) for the same quantity.
   */
  lemma SubstitutesEmitNoMoreThanBaseline(t: string, q: real)
    requires q >= 0.0
    ensures t in {"bike", "walk"} ==> TransportEmissions(t, q) <= TransportEmissions("car", q)
    ensures WasteEmissions(t, q) <= WasteEmissions("general", q)
    ensures DietEmissions(t, q) <= DietEmissions("meat", q)
    ensures EnergyEmissions(t, q) <= EnergyEmissions("fossil", q)
  {
  }
}
