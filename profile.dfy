/**
 * The profile page: the level, the saved total, the number of achievements,
 * the next-level label, and three everyday equivalents of the saved carbon.
 */
module ProfilePage {
  import opened Wrappers
  import opened Records
  import opened Db
  import opened UserService
  import opened Forms

  /** `userData?.level || 1`: no data, or a level of 0, shows level 1. */
  function DisplayedLevel(data: Option<UserData>): (r: int)
    ensures data.None? ==> r == 1
    ensures data.Some? && data.value.level != 0 ==> r == data.value.level
    ensures data.Some? && 0 <= data.value.level <= 10 ==> 1 <= r <= 10
  {
    if data.Some? && data.value.level != 0 then data.value.level else 1
  }

  /** `userData?.achievements || 0`. */
  function AchievementCount(data: Option<UserData>): (r: nat)
    ensures data.None? ==> r == 0
    ensures data.Some? ==> r == data.value.achievements
  {
    if data.Some? then data.value.achievements else 0
  }

  /** Trees equivalent, `floor(saved / 20)`: one tree per whole 20 kg. */
  function TreesEquivalent(saved: real): (r: int)
    ensures 20.0 * r as real <= saved < 20.0 * (r as real + 1.0)
  {
    (saved / 20.0).Floor
  }

  /** Car miles avoided, `floor(saved × 2.5)`. */
  function CarMilesAvoided(saved: real): (r: int)
    ensures r as real <= 2.5 * saved < r as real + 1.0
  {
    (saved * 2.5).Floor
  }

  /** Days of home energy, `floor(saved / 10)`: one day per whole 10 kg. */
  function HomeEnergyDays(saved: real): (r: int)
    ensures 10.0 * r as real <= saved < 10.0 * (r as real + 1.0)
  {
    (saved / 10.0).Floor
  }

  /** What the page shows once loading is over. */
  datatype View = View(
    level: int, nextLevel: int, carbonSaved: real, achievements: nat,
    trees: int, carMiles: int, energyDays: int)

  function ViewOf(data: Option<UserData>): View
  {
    var saved := SavedTotal(data);
    var level := DisplayedLevel(data);
    View(level, level + 1, saved, AchievementCount(data),
         TreesEquivalent(saved), CarMilesAvoided(saved), HomeEnergyDays(saved))
  }

  /** The profile page's effect: load the user data, then derive the view. */
  function LoadSpec(s: State, user: Option<User>, faults: set<Call>, now: int): (State, View)
  {
    var (t, data) := PageData(s, user, faults, now);
    (t, ViewOf(data))
  }

  method Load(store: Store, user: Option<User>, faults: set<Call>, now: int) returns (view: View)
    modifies store
    ensures (store.Snapshot(), view) == LoadSpec(old(store.Snapshot()), user, faults, now)
  {
    var data := LoadPageData(store, user, faults, now);
    view := ViewOf(data);
  }

  /** A zero or missing total makes every equivalent 0. */
  lemma ZeroSavedShowsNoEquivalents()
    ensures var v := ViewOf(None); v.trees == 0 && v.carMiles == 0 && v.energyDays == 0 && v.level == 1 && v.nextLevel == 2
    ensures TreesEquivalent(0.0) == 0 && CarMilesAvoided(0.0) == 0 && HomeEnergyDays(0.0) == 0
  {
  }

  /** For a non-negative total the equivalents are non-negative and never shrink as the total grows. */
  lemma EquivalentsMonotone(s1: real, s2: real)
    requires 0.0 <= s1 <= s2
    ensures 0 <= TreesEquivalent(s1) <= TreesEquivalent(s2)
    ensures 0 <= CarMilesAvoided(s1) <= CarMilesAvoided(s2)
    ensures 0 <= HomeEnergyDays(s1) <= HomeEnergyDays(s2)
  {
  }

  /**
   * For an existing valid profile read without faults, the page shows the
   * stored level (1..10), the label of the level above it, the stored
   * total and the number of the user's unlock rows.
   */
  lemma ViewOfExisting(s: State, uid: UserId, now: int)
    requires s.Valid() && uid != "" && uid in s.profiles
    ensures var (t, v) := LoadSpec(s, Some(User(uid)), {}, now);
      && t == s
      && v.level == s.profiles[uid].level && 1 <= v.level <= 10
      && v.nextLevel == v.level + 1
      && v.carbonSaved == s.profiles[uid].totalCarbonSaved
      && v.achievements == |s.UnlocksOf(uid)|
      && v.trees >= 0 && v.carMiles >= 0 && v.energyDays >= 0
  {
    EquivalentsMonotone(0.0, s.profiles[uid].totalCarbonSaved);
  }

  /** A first visit creates the profile and shows level 1, next level 2 and nothing saved. */
  lemma ViewOfFirstVisit(s: State, uid: UserId, now: int)
    requires uid != "" && uid !in s.profiles
    ensures var (t, v) := LoadSpec(s, Some(User(uid)), {}, now);
      && uid in t.profiles
      && v == View(1, 2, 0.0, 0, 0, 0, 0)
  {
  }
}
