/**
 * The transport page: choose a mode, enter a distance, preview the
 * emission, submit. Bike and walk are submitted as the car emission they
 * avoided, negated.
 */
module TransportPage {
  import opened Wrappers
  import opened Records
  import opened Db
  import opened Emissions
  import opened UserService
  import opened Forms

  /** The submit guard: a mode is chosen, the distance is positive, a user is signed in. */
  predicate CanSubmit(selected: Option<string>, distance: real, user: Option<User>)
  {
    Chosen(selected) && distance > 0.0 && user.Some?
  }

  /** The impact `handleSubmit` sends for mode t over the distance. */
  function SubmittedImpact(t: string, distance: real): real
  {
    if t == "bike" || t == "walk" then -TransportEmissions("car", distance)
    else TransportEmissions(t, distance)
  }

  /**
   * Bike and walk submit minus the car emission, a saving for any positive
   * distance, although their preview shows 0; every other mode submits its
   * own non-negative emission, which never feeds the accumulator.
   */
  lemma SubmittedImpactSign(t: string, distance: real)
    requires distance > 0.0
    ensures t == "bike" || t == "walk" ==>
      SubmittedImpact(t, distance) == -(0.12 * distance) < 0.0 && TransportEmissions(t, distance) == 0.0
    ensures t != "bike" && t != "walk" ==>
      SubmittedImpact(t, distance) == TransportFactor(t) * distance >= 0.0
  {
  }

  /** A 10 km ride is submitted as a saving of 1.2 kg. */
  lemma BikeTenKilometres()
    ensures SubmittedImpact("bike", 10.0) == -1.2
  {
  }

  class TransportForm {
    var selectedType: Option<string>
    var distance: real
    var carbonImpact: Option<real>

    /** Whenever a submit could go through, the preview is the raw emission of the form's values. */
    ghost predicate PreviewMatches()
      reads this
    {
      Chosen(selectedType) && distance > 0.0 ==> carbonImpact == Some(TransportEmissions(selectedType.value, distance))
    }

    constructor ()
      ensures selectedType == None && distance == 0.0 && carbonImpact == None
      ensures PreviewMatches()
    {
      selectedType, distance, carbonImpact := None, 0.0, None;
    }

    /** `handleSelectType`: the preview is recomputed only when a distance is set. */
    method SelectType(t: string)
      requires PreviewMatches()
      modifies this
      ensures PreviewMatches()
      ensures selectedType == Some(t) && distance == old(distance)
      ensures carbonImpact == if old(distance) > 0.0 then Some(TransportEmissions(t, old(distance))) else old(carbonImpact)
    {
      selectedType := Some(t);
      if distance > 0.0 {
        carbonImpact := Some(TransportEmissions(t, distance));
      }
    }

    /** `handleDistanceChange`: the preview is recomputed only when a mode is chosen. */
    method ChangeDistance(d: real)
      requires PreviewMatches()
      modifies this
      ensures PreviewMatches()
      ensures distance == d && selectedType == old(selectedType)
      ensures carbonImpact == if Chosen(old(selectedType)) then Some(TransportEmissions(old(selectedType).value, d)) else old(carbonImpact)
    {
      distance := d;
      if Chosen(selectedType) {
        carbonImpact := Some(TransportEmissions(selectedType.value, d));
      }
    }

    /**
     * `handleSubmit`: nothing happens unless the guard holds; otherwise the
     * activity is recorded through `addActivity`, and the form is reset only
     * when that succeeds (a failure is logged and the form kept).
     */
    method Submit(user: Option<User>, store: Store, faults: set<Call>, now: int) returns (outcome: SubmitOutcome)
      requires PreviewMatches()
      modifies this, store
      ensures PreviewMatches()
      ensures !CanSubmit(old(selectedType), old(distance), user) ==>
        && outcome == Skipped && store.Snapshot() == old(store.Snapshot())
        && selectedType == old(selectedType) && distance == old(distance) && carbonImpact == old(carbonImpact)
      ensures CanSubmit(old(selectedType), old(distance), user) ==>
        var request := NewActivity(Transport, old(selectedType).value, old(distance),
                                   SubmittedImpact(old(selectedType).value, old(distance)));
        var (after, result) := AddActivitySpec(old(store.Snapshot()), user.value.id, request, faults, now);
        && outcome == Sent(request, result)
        && store.Snapshot() == after
        && (result.Success? ==> selectedType == None && distance == 0.0 && carbonImpact == None)
        && (result.Failure? ==> selectedType == old(selectedType) && distance == old(distance) && carbonImpact == old(carbonImpact))
    {
      if !Chosen(selectedType) || distance <= 0.0 || user.None? {
        return Skipped;
      }
      var t := selectedType.value;
      var impact := TransportEmissions(t, distance);
      if t == "bike" || t == "walk" {
        var carImpact := TransportEmissions("car", distance);
        impact := -carImpact;
      }
      var request := NewActivity(Transport, t, distance, impact);
      var result := AddActivity(store, user.value.id, request, faults, now);
      outcome := Sent(request, result);
      if result.Success? {
        selectedType, distance, carbonImpact := None, 0.0, None;
      }
    }
  }
}
