/**
 * What the pages share: the signed-in user, a category form's submit
 * outcome, the user data the dashboard and profile pages load, and the
 * saved total both of them display.
 */
module Forms {
  import opened Wrappers
  import opened Records
  import opened Db
  import opened UserService

  /** The signed-in user as the auth store exposes it. */
  datatype User = User(id: UserId)

  /** A selected type is set and not the empty string (JavaScript truthiness). */
  predicate Chosen(t: Option<string>)
  {
    t.Some? && t.value != ""
  }

  /** A submit either returned early or sent one activity to `addActivity`. */
  datatype SubmitOutcome =
    | Skipped
    | Sent(request: NewActivity, result: Result<Activity, ServiceError>)


  /**
   * The data a page holds after its effect: none without a signed-in user
   * or when `fetchUserData` fails, else what it returns (a first visit
   * creates the profile).
   */
  function PageData(s: State, user: Option<User>, faults: set<Call>, now: int): (State, Option<UserData>)
  {
    if user.None? then (s, None)
    else
      var (t, r) := FetchUserDataSpec(s, user.value.id, faults, now);
      (t, if r.Success? then Some(r.value) else None)
  }

  /** `userData?.totalCarbonSaved || 0`: the saved total, or 0 without data. */
  function SavedTotal(data: Option<UserData>): (r: real)
    ensures data.None? ==> r == 0.0
    ensures data.Some? ==> r == data.value.totalCarbonSaved
  {
    if data.Some? then data.value.totalCarbonSaved else 0.0
  }

  method LoadPageData(store: Store, user: Option<User>, faults: set<Call>, now: int) returns (data: Option<UserData>)
    modifies store
    ensures (store.Snapshot(), data) == PageData(old(store.Snapshot()), user, faults, now)
  {
    if user.None? {
      return None;
    }
    var r := FetchUserData(store, user.value.id, faults, now);
    data := if r.Success? then Some(r.value) else None;
  }
}
