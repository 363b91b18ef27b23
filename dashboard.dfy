/**
 * The dashboard: the user's saved total and, per category, its share of the
 * absolute carbon recorded, as a rounded percentage.
 */
module DashboardPage {
  import opened Wrappers
  import opened Records
  import opened Db
  import opened UserService
  import opened Forms

  /** The four category cards, in their display order. */
  const Categories: seq<Category> := [Transport, Waste, Diet, Energy]

  /** `userData?.stats?.carbonByCategory || {}`: a freshly created profile carries no stats. */
  function CarbonByCategory(data: Option<UserData>): map<Category, real>
  {
    if data.Some? && data.value.Existing? then data.value.stats.carbonByCategory else map[]
  }

  /** A category's value, 0 when the map has no entry for it. */
  function Get(m: map<Category, real>, c: Category): real
  {
    if c in m then m[c] else 0.0
  }

  predicate NonNegative(m: map<Category, real>)
  {
    forall c :: c in m ==> m[c] >= 0.0
  }

  /**
   * `totalCarbon`, the `reduce` over `Object.values`: the map's keys are
   * categories, so its values are those of the four categories.
   */
  function TotalCarbon(m: map<Category, real>): (total: real)
    ensures NonNegative(m) ==> total >= 0.0
  {
    Get(m, Transport) + Get(m, Waste) + Get(m, Diet) + Get(m, Energy)
  }

  /** With non-negative values, no category exceeds the total. */
  lemma EachWithinTotal(m: map<Category, real>, c: Category)
    requires NonNegative(m)
    ensures 0.0 <= Get(m, c) <= TotalCarbon(m)
  {
    match c
    case Transport =>
    case Waste =>
    case Diet =>
    case Energy =>
  }

  /** `Math.round`: the nearest integer, halves rounded up. */
  function Round(x: real): (r: int)
    ensures x - 0.5 < r as real <= x + 0.5
  {
    (x + 0.5).Floor
  }

  /**
   * A category's percentage: `round(value / total × 100)`, and 0 when the
   * total is 0 (the `|| 0` that catches the division's NaN).
   */
  function Percentage(m: map<Category, real>, c: Category): (r: int)
    ensures TotalCarbon(m) == 0.0 ==> r == 0
    ensures TotalCarbon(m) != 0.0 ==>
      Get(m, c) / TotalCarbon(m) * 100.0 - 0.5 < r as real <= Get(m, c) / TotalCarbon(m) * 100.0 + 0.5
    ensures NonNegative(m) ==> 0 <= r <= 100
    ensures NonNegative(m) && Get(m, c) == 0.0 ==> r == 0
  {
    var total := TotalCarbon(m);
    if total == 0.0 then 0
    else
      ShareWithinRange(m, c);
      Round((Get(m, c) / total) * 100.0)
  }

  /** With non-negative values and a non-zero total, a category's share lies in 0..1. */
  lemma ShareWithinRange(m: map<Category, real>, c: Category)
    requires TotalCarbon(m) != 0.0
    ensures NonNegative(m) ==> 0.0 <= Get(m, c) / TotalCarbon(m) <= 1.0
  {
    if NonNegative(m) {
      EachWithinTotal(m, c);
      QuotientWithinUnit(Get(m, c), TotalCarbon(m));
    }
  }

  lemma QuotientWithinUnit(v: real, t: real)
    requires 0.0 <= v <= t && t > 0.0
    ensures 0.0 <= v / t <= 1.0
  {
    assert v / t * t == v;
  }

  lemma QuotientsAdd(x1: real, x2: real, x3: real, x4: real, t: real)
    requires t != 0.0
    ensures x1 / t + x2 / t + x3 / t + x4 / t == (x1 + x2 + x3 + x4) / t
  {
  }

  datatype Share = Share(category: Category, percent: int)

  /** `categoryPercentages`: the four categories in display order, each with its percentage. */
  function Percentages(m: map<Category, real>): (r: seq<Share>)
    ensures |r| == 4
    ensures forall i :: 0 <= i < 4 ==> r[i].category == Categories[i] && r[i].percent == Percentage(m, Categories[i])
  {
    seq(4, i requires 0 <= i < 4 => Share(Categories[i], Percentage(m, Categories[i])))
  }

  /**
   * With something recorded, the four rounded percentages add up to 99..102
   * (each is within half a point of its exact share, and the shares add up
   * to 100).
   */
  lemma PercentagesNear100(m: map<Category, real>)
    requires TotalCarbon(m) != 0.0
    ensures var r := Percentages(m); 99 <= r[0].percent + r[1].percent + r[2].percent + r[3].percent <= 102
  {
    var t := TotalCarbon(m);
    var x1, x2, x3, x4 := Get(m, Transport), Get(m, Waste), Get(m, Diet), Get(m, Energy);
    QuotientsAdd(x1, x2, x3, x4, t);
    assert (x1 + x2 + x3 + x4) / t == 1.0;
    var a, b, c, d := x1 / t * 100.0, x2 / t * 100.0, x3 / t * 100.0, x4 / t * 100.0;
    assert a + b + c + d == (x1 / t + x2 / t + x3 / t + x4 / t) * 100.0;
  }

  /** What the dashboard shows once loading is over. */
  datatype View = View(currentCarbon: real, shares: seq<Share>)

  function ViewOf(data: Option<UserData>): View
  {
    View(SavedTotal(data), Percentages(CarbonByCategory(data)))
  }

  /** The dashboard's effect: load the user data, then derive the view. */
  function LoadSpec(s: State, user: Option<User>, faults: set<Call>, now: int): (State, View)
  {
    var (t, data) := PageData(s, user, faults, now);
    (t, ViewOf(data))
  }

  method Load(store: Store, user: Option<User>, faults: set<Call>, now: int) returns (view: View)
    modifies store
    ensures (store.Snapshot(), view) == LoadSpec(old(store.Snapshot()), user, faults, now)
  {
    var data := LoadPageData(store, user, faults, now);
    view := ViewOf(data);
  }

  /**
   * For an existing profile read without faults, the dashboard shows the
   * profile's total, and each category's share of the absolute impact of
   * the user's activities, every share within 0..100.
   */
  lemma LoadedExisting(s: State, uid: UserId, now: int)
    requires uid != "" && uid in s.profiles
    ensures var (t, v) := LoadSpec(s, Some(User(uid)), {}, now);
      && t == s
      && v.currentCarbon == s.profiles[uid].totalCarbonSaved
      && |v.shares| == 4
      && forall i :: 0 <= i < 4 ==>
        v.shares[i].percent == Percentage(AbsByCategory(s.ActivitiesOf(uid)), Categories[i])
        && 0 <= v.shares[i].percent <= 100
  {
    var m := AbsByCategory(s.ActivitiesOf(uid));
    forall c | c in m ensures m[c] >= 0.0 {
      AbsByCategoryMeaning(s.ActivitiesOf(uid), c);
    }
  }

  /** Without a user or without data, the dashboard shows 0 saved and 0% everywhere. */
  lemma NoDataShowsZero()
    ensures ViewOf(None).currentCarbon == 0.0
    ensures forall i :: 0 <= i < 4 ==> ViewOf(None).shares[i].percent == 0
  {
  }
}
