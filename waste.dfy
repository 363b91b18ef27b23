/**
 * The waste page: choose a disposal method, enter a weight, preview the
 * emission, submit. Every method other than general waste is submitted as
 * its difference from general waste.
 */
module WastePage {
  import opened Wrappers
  import opened Records
  import opened Db
  import opened Emissions
  import opened UserService
  import opened Forms

  /** The submit guard: a method is chosen, the weight is positive, a user is signed in. */
  predicate CanSubmit(selected: Option<string>, weight: real, user: Option<User>)
  {
    Chosen(selected) && weight > 0.0 && user.Some?
  }

  /** The impact `handleSubmit` sends for method t and the weight. */
  function SubmittedImpact(t: string, weight: real): real
  {
    if t == "general" then WasteEmissions(t, weight)
    else WasteEmissions(t, weight) - WasteEmissions("general", weight)
  }

  /**
   * General waste is submitted as its own emission; any other method (known
   * or not) is submitted as a saving, its factor's shortfall from 2.5 times
   * the weight.
   */
  lemma SubmittedImpactSign(t: string, weight: real)
    requires weight > 0.0
    ensures t == "general" ==> SubmittedImpact(t, weight) == 2.5 * weight
    ensures t != "general" ==>
      SubmittedImpact(t, weight) == (WasteFactor(t) - 2.5) * weight < 0.0
    ensures t !in WasteTypes ==> SubmittedImpact(t, weight) == -(2.5 * weight)
  {
  }

  class WasteForm {
    var selectedType: Option<string>
    var weight: real
    var carbonImpact: Option<real>

    /** Whenever a submit could go through, the preview is the raw emission of the form's values. */
    ghost predicate PreviewMatches()
      reads this
    {
      Chosen(selectedType) && weight > 0.0 ==> carbonImpact == Some(WasteEmissions(selectedType.value, weight))
    }

    constructor ()
      ensures selectedType == None && weight == 0.0 && carbonImpact == None
      ensures PreviewMatches()
    {
      selectedType, weight, carbonImpact := None, 0.0, None;
    }

    /** `handleSelectType`: the preview is recomputed only when a weight is set. */
    method SelectType(t: string)
      requires PreviewMatches()
      modifies this
      ensures PreviewMatches()
      ensures selectedType == Some(t) && weight == old(weight)
      ensures carbonImpact == if old(weight) > 0.0 then Some(WasteEmissions(t, old(weight))) else old(carbonImpact)
    {
      selectedType := Some(t);
      if weight > 0.0 {
        carbonImpact := Some(WasteEmissions(t, weight));
      }
    }

    /** `handleWeightChange`: the preview is recomputed only when a method is chosen. */
    method ChangeWeight(w: real)
      requires PreviewMatches()
      modifies this
      ensures PreviewMatches()
      ensures weight == w && selectedType == old(selectedType)
      ensures carbonImpact == if Chosen(old(selectedType)) then Some(WasteEmissions(old(selectedType).value, w)) else old(carbonImpact)
    {
      weight := w;
      if Chosen(selectedType) {
        carbonImpact := Some(WasteEmissions(selectedType.value, w));
      }
    }

    /**
     * `handleSubmit`: nothing happens unless the guard holds; otherwise the
     * activity is recorded through `addActivity`, and the form is reset only
     * when that succeeds.
     */
    method Submit(user: Option<User>, store: Store, faults: set<Call>, now: int) returns (outcome: SubmitOutcome)
      requires PreviewMatches()
      modifies this, store
      ensures PreviewMatches()
      ensures !CanSubmit(old(selectedType), old(weight), user) ==>
        && outcome == Skipped && store.Snapshot() == old(store.Snapshot())
        && selectedType == old(selectedType) && weight == old(weight) && carbonImpact == old(carbonImpact)
      ensures CanSubmit(old(selectedType), old(weight), user) ==>
        var request := NewActivity(Waste, old(selectedType).value, old(weight),
                                   SubmittedImpact(old(selectedType).value, old(weight)));
        var (after, result) := AddActivitySpec(old(store.Snapshot()), user.value.id, request, faults, now);
        && outcome == Sent(request, result)
        && store.Snapshot() == after
        && (result.Success? ==> selectedType == None && weight == 0.0 && carbonImpact == None)
        && (result.Failure? ==> selectedType == old(selectedType) && weight == old(weight) && carbonImpact == old(carbonImpact))
    {
      if !Chosen(selectedType) || weight <= 0.0 || user.None? {
        return Skipped;
      }
      var t := selectedType.value;
      var impact := WasteEmissions(t, weight);
      if t != "general" {
        var generalImpact := WasteEmissions("general", weight);
        impact := impact - generalImpact;
      }
      var request := NewActivity(Waste, t, weight, impact);
      var result := AddActivity(store, user.value.id, request, faults, now);
      outcome := Sent(request, result);
      if result.Success? {
        selectedType, weight, carbonImpact := None, 0.0, None;
      }
    }
  }
}
