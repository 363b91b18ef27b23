/**
 * The diet page: choose a diet, enter a number of meals (one to start
 * with), preview the emission, submit. Every diet other than meat is
 * submitted as its difference from a meat-based one.
 */
module DietPage {
  import opened Wrappers
  import opened Records
  import opened Db
  import opened Emissions
  import opened UserService
  import opened Forms

  /** The submit guard: a diet is chosen, the meal count is positive, a user is signed in. */
  predicate CanSubmit(selected: Option<string>, meals: real, user: Option<User>)
  {
    Chosen(selected) && meals > 0.0 && user.Some?
  }

  /** The impact `handleSubmit` sends for diet t and the meal count. */
  function SubmittedImpact(t: string, meals: real): real
  {
    if t == "meat" then DietEmissions(t, meals)
    else -(DietEmissions("meat", meals) - DietEmissions(t, meals))
  }

  /**
   * A meat-based diet is submitted as its own emission; any other diet
   * (known or not) as a saving, its factor's shortfall from 3.0 per meal.
   */
  lemma SubmittedImpactSign(t: string, meals: real)
    requires meals > 0.0
    ensures t == "meat" ==> SubmittedImpact(t, meals) == 3.0 * meals
    ensures t != "meat" ==>
      SubmittedImpact(t, meals) == (DietFactor(t) - 3.0) * meals < 0.0
    ensures t !in DietTypes ==> SubmittedImpact(t, meals) == -(3.0 * meals)
  {
  }

  class DietForm {
    var selectedType: Option<string>
    var meals: real
    var carbonImpact: Option<real>

    /** Whenever a submit could go through, the preview is the raw emission of the form's values. */
    ghost predicate PreviewMatches()
      reads this
    {
      Chosen(selectedType) && meals > 0.0 ==> carbonImpact == Some(DietEmissions(selectedType.value, meals))
    }

    constructor ()
      ensures selectedType == None && meals == 1.0 && carbonImpact == None
      ensures PreviewMatches()
    {
      selectedType, meals, carbonImpact := None, 1.0, None;
    }

    /** `handleSelectType`: the preview is recomputed only when the meal count is positive. */
    method SelectType(t: string)
      requires PreviewMatches()
      modifies this
      ensures PreviewMatches()
      ensures selectedType == Some(t) && meals == old(meals)
      ensures carbonImpact == if old(meals) > 0.0 then Some(DietEmissions(t, old(meals))) else old(carbonImpact)
    {
      selectedType := Some(t);
      if meals > 0.0 {
        carbonImpact := Some(DietEmissions(t, meals));
      }
    }

    /** `handleMealsChange`: the preview is recomputed only when a diet is chosen. */
    method ChangeMeals(m: real)
      requires PreviewMatches()
      modifies this
      ensures PreviewMatches()
      ensures meals == m && selectedType == old(selectedType)
      ensures carbonImpact == if Chosen(old(selectedType)) then Some(DietEmissions(old(selectedType).value, m)) else old(carbonImpact)
    {
      meals := m;
      if Chosen(selectedType) {
        carbonImpact := Some(DietEmissions(selectedType.value, m));
      }
    }

    /**
     * `handleSubmit`: nothing happens unless the guard holds; otherwise the
     * activity is recorded through `addActivity`, and the form is reset (to
     * one meal) only when that succeeds.
     */
    method Submit(user: Option<User>, store: Store, faults: set<Call>, now: int) returns (outcome: SubmitOutcome)
      requires PreviewMatches()
      modifies this, store
      ensures PreviewMatches()
      ensures !CanSubmit(old(selectedType), old(meals), user) ==>
        && outcome == Skipped && store.Snapshot() == old(store.Snapshot())
        && selectedType == old(selectedType) && meals == old(meals) && carbonImpact == old(carbonImpact)
      ensures CanSubmit(old(selectedType), old(meals), user) ==>
        var request := NewActivity(Diet, old(selectedType).value, old(meals),
                                   SubmittedImpact(old(selectedType).value, old(meals)));
        var (after, result) := AddActivitySpec(old(store.Snapshot()), user.value.id, request, faults, now);
        && outcome == Sent(request, result)
        && store.Snapshot() == after
        && (result.Success? ==> selectedType == None && meals == 1.0 && carbonImpact == None)
        && (result.Failure? ==> selectedType == old(selectedType) && meals == old(meals) && carbonImpact == old(carbonImpact))
    {
      if !Chosen(selectedType) || meals <= 0.0 || user.None? {
        return Skipped;
      }
      var t := selectedType.value;
      var impact := DietEmissions(t, meals);
      if t != "meat" {
        var meatImpact := DietEmissions("meat", meals);
        impact := -(meatImpact - impact);
      }
      var request := NewActivity(Diet, t, meals, impact);
      var result := AddActivity(store, user.value.id, request, faults, now);
      outcome := Sent(request, result);
      if result.Success? {
        selectedType, meals, carbonImpact := None, 1.0, None;
      }
    }
  }
}
