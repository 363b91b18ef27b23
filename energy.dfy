/**
 * The energy page: choose a source, enter an amount, preview the impact,
 * submit. Unlike the other forms, the preview and the submitted value come
 * from the same calculation, in which saved energy counts as avoided
 * fossil generation.
 */
module EnergyPage {
  import opened Wrappers
  import opened Records
  import opened Db
  import opened Emissions
  import opened UserService
  import opened Forms

  /** The submit guard: a source is chosen, the amount is positive, a user is signed in. */
  predicate CanSubmit(selected: Option<string>, amount: real, user: Option<User>)
  {
    Chosen(selected) && amount > 0.0 && user.Some?
  }

  /** The page's `calculateImpact`: saved energy is minus the fossil emission of the amount. */
  function EnergyImpact(t: string, amount: real): real
  {
    if t == "saved" then -EnergyEmissions("fossil", amount) else EnergyEmissions(t, amount)
  }

  /**
   * Saved energy is a saving of 0.5 kg per unit; any other source (known or
   * not) is a non-negative emission at its own factor.
   */
  lemma EnergyImpactSign(t: string, amount: real)
    requires amount > 0.0
    ensures t == "saved" ==> EnergyImpact(t, amount) == -(0.5 * amount) < 0.0
    ensures t != "saved" ==> EnergyImpact(t, amount) == EnergyFactor(t) * amount >= 0.0
    ensures EnergyImpact(t, amount) < 0.0 <==> t == "saved"
  {
  }

  class EnergyForm {
    var selectedType: Option<string>
    var amount: real
    var carbonImpact: Option<real>

    /** Whenever a submit could go through, the preview is the impact that would be submitted. */
    ghost predicate PreviewMatches()
      reads this
    {
      Chosen(selectedType) && amount > 0.0 ==> carbonImpact == Some(EnergyImpact(selectedType.value, amount))
    }

    constructor ()
      ensures selectedType == None && amount == 0.0 && carbonImpact == None
      ensures PreviewMatches()
    {
      selectedType, amount, carbonImpact := None, 0.0, None;
    }

    /** `handleSelectType`: the preview is recomputed only when an amount is set. */
    method SelectType(t: string)
      requires PreviewMatches()
      modifies this
      ensures PreviewMatches()
      ensures selectedType == Some(t) && amount == old(amount)
      ensures carbonImpact == if old(amount) > 0.0 then Some(EnergyImpact(t, old(amount))) else old(carbonImpact)
    {
      selectedType := Some(t);
      if amount > 0.0 {
        carbonImpact := Some(EnergyImpact(t, amount));
      }
    }

    /** `handleAmountChange`: the preview is recomputed only when a source is chosen. */
    method ChangeAmount(a: real)
      requires PreviewMatches()
      modifies this
      ensures PreviewMatches()
      ensures amount == a && selectedType == old(selectedType)
      ensures carbonImpact == if Chosen(old(selectedType)) then Some(EnergyImpact(old(selectedType).value, a)) else old(carbonImpact)
    {
      amount := a;
      if Chosen(selectedType) {
        carbonImpact := Some(EnergyImpact(selectedType.value, a));
      }
    }

    /**
     * `handleSubmit`: nothing happens unless the guard holds; otherwise the
     * previewed impact is recorded through `addActivity`, and the form is
     * reset only when that succeeds.
     */
    method Submit(user: Option<User>, store: Store, faults: set<Call>, now: int) returns (outcome: SubmitOutcome)
      requires PreviewMatches()
      modifies this, store
      ensures PreviewMatches()
      ensures !CanSubmit(old(selectedType), old(amount), user) ==>
        && outcome == Skipped && store.Snapshot() == old(store.Snapshot())
        && selectedType == old(selectedType) && amount == old(amount) && carbonImpact == old(carbonImpact)
      ensures CanSubmit(old(selectedType), old(amount), user) ==>
        var request := NewActivity(Energy, old(selectedType).value, old(amount),
                                   EnergyImpact(old(selectedType).value, old(amount)));
        var (after, result) := AddActivitySpec(old(store.Snapshot()), user.value.id, request, faults, now);
        && outcome == Sent(request, result)
        && old(carbonImpact) == Some(request.carbonImpact)
        && store.Snapshot() == after
        && (result.Success? ==> selectedType == None && amount == 0.0 && carbonImpact == None)
        && (result.Failure? ==> selectedType == old(selectedType) && amount == old(amount) && carbonImpact == old(carbonImpact))
    {
      if !Chosen(selectedType) || amount <= 0.0 || user.None? {
        return Skipped;
      }
      var t := selectedType.value;
      var impact := EnergyImpact(t, amount);
      var request := NewActivity(Energy, t, amount, impact);
      var result := AddActivity(store, user.value.id, request, faults, now);
      outcome := Sent(request, result);
      if result.Success? {
        selectedType, amount, carbonImpact := None, 0.0, None;
      }
    }
  }
}
