/**
 * Record shapes of the four tables (activities, profiles, achievements,
 * user_achievements) and the activity category enum.
 */
module Records {
  import opened Wrappers

  type UserId = string
  type AchievementId = string

  datatype Category = Transport | Waste | Diet | Energy

  /** The lower-case name a category is stored and keyed under. */
  function CategoryName(c: Category): string
  {
    match c
    case Transport => "transport"
    case Waste => "waste"
    case Diet => "diet"
    case Energy => "energy"
  }

  /** Reads a category column value; anything outside the enum is rejected. */
  function ParseCategory(s: string): (r: Option<Category>)
    ensures r.Some? ==> CategoryName(r.value) == s
    ensures forall c: Category :: CategoryName(c) == s ==> r == Some(c)
  {
    if s == "transport" then Some(Transport)
    else if s == "waste" then Some(Waste)
    else if s == "diet" then Some(Diet)
    else if s == "energy" then Some(Energy)
    else None
  }

  datatype Profile = Profile(
    id: UserId,
    username: Option<string>,
    totalCarbonSaved: real,
    level: int,
    createdAt: int)

  datatype Activity = Activity(
    id: nat,
    userId: UserId,
    category: Category,
    activityType: string,
    value: real,
    carbonImpact: real,
    createdAt: int)

  datatype Achievement = Achievement(
    id: AchievementId,
    name: string,
    description: string,
    icon: string,
    carbonRequired: real)

  datatype UserAchievement = UserAchievement(
    userId: UserId,
    achievementId: AchievementId,
    unlockedAt: int)

  /** The fields a caller supplies when recording an activity. */
  datatype NewActivity = NewActivity(
    category: Category,
    activityType: string,
    value: real,
    carbonImpact: real)

  function Abs(x: real): (r: real)
    ensures r >= 0.0 && (r == x || r == -x)
  {
    if x < 0.0 then -x else x
  }
}
