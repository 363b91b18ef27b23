/**
 * Worked examples over a catalogue with the thresholds 0 and 10 kg: a bike
 * ride through each path, two unlocks in one check, and a level that stays
 * behind the total.
 */
module Scenarios {
  import opened Wrappers
  import opened Records
  import opened Db
  import opened Emissions
  import opened UserService
  import opened Server
  import TransportPage

  const FirstSteps := Achievement("1", "First Steps", "Track your first eco-friendly activity", "seedling", 0.0)
  const CarbonSaver := Achievement("2", "Carbon Saver", "Save 10 kg of carbon emissions", "herb", 10.0)

  /** A new user "u" with nothing saved, and the first two achievements. */
  function Fresh(): State
  {
    State(map["u" := Profile("u", None, 0.0, 1, 0)], [], [FirstSteps, CarbonSaver], [])
  }

  /** A 10 km bike ride recorded from the transport page: 1.2 kg saved, no achievement checked, level 1. */
  lemma BikeRideFromTransportPage()
    ensures var act := NewActivity(Transport, "bike", 10.0, TransportPage.SubmittedImpact("bike", 10.0));
      var (t, r) := AddActivitySpec(Fresh(), "u", act, {}, 5);
      && r == Success(Activity(0, "u", Transport, "bike", 10.0, -1.2, 5))
      && t.profiles["u"].totalCarbonSaved == 1.2
      && t.profiles["u"].level == 1
      && t.unlocks == []
  {
    TransportPage.BikeTenKilometres();
  }

  /** The same ride posted to the server: 1.2 kg saved and "First Steps" unlocked, level 1. */
  lemma BikeRideThroughServer()
    ensures var (t, resp) := PostActivitySpec(Fresh(), PostBody(Some("u"), Some("transport"), Some("bike"), Some(10.0), Some(-1.2)), {}, 5);
      && resp == Created(Activity(0, "u", Transport, "bike", 10.0, -1.2, 5))
      && t.profiles["u"].totalCarbonSaved == 1.2
      && t.profiles["u"].level == 1
      && t.unlocks == [UserAchievement("u", "1", 5)]
  {
    var s1 := Fresh().AppendActivity("u", NewActivity(Transport, "bike", 10.0, -1.2), 5).value;
    var s2 := s1.AddSaved("u", 1.2);
    assert s2.UnlockedIds("u") == {};
    assert Qualifying(s2.achievements, {}, 1.2) == [FirstSteps];
    assert s2.AddUnlocks([UserAchievement("u", "1", 5)]).Success?;
    LevelExamples();
  }

  /** A 12 kg saving from nothing reaches both thresholds at once: both are unlocked in one check. */
  lemma TwoUnlocksInOneCheck()
    ensures var (t, resp) := PostActivitySpec(Fresh(), PostBody(Some("u"), Some("diet"), Some("vegan"), Some(5.0), Some(-12.0)), {}, 5);
      && resp.Created?
      && t.profiles["u"].totalCarbonSaved == 12.0
      && t.unlocks == [UserAchievement("u", "1", 5), UserAchievement("u", "2", 5)]
      && t.profiles["u"].level == 1
  {
    var s1 := Fresh().AppendActivity("u", NewActivity(Diet, "vegan", 5.0, -12.0), 5).value;
    var s2 := s1.AddSaved("u", 12.0);
    assert s2.UnlockedIds("u") == {};
    assert Qualifying(s2.achievements, {}, 12.0) == [FirstSteps, CarbonSaver];
    var rows := [UserAchievement("u", "1", 5), UserAchievement("u", "2", 5)];
    assert UnlockRows("u", [FirstSteps, CarbonSaver], 5) == rows;
    assert PairsDistinct(s2.unlocks + rows);
    assert s2.AddUnlocks(rows).Success?;
    assert (12.0 / 100.0).Floor == 0;
  }

  /**
   * User "u" after a first saving of 250 kg: both achievements unlocked and
   * level 3.
   */
  function Seasoned(): State
  {
    State(map["u" := Profile("u", None, 250.0, 3, 0)], [],
          [FirstSteps, CarbonSaver],
          [UserAchievement("u", "1", 1), UserAchievement("u", "2", 1)])
  }

  /**
   * A posted saving after which every reached threshold is already unlocked
   * adds to the total but leaves the unlock rows and the stored level as
   * they were.
   */
  lemma PostWithoutNewUnlockKeepsLevel(s: State, uid: UserId, b: PostBody, now: int)
    requires !MissingFields(b) && b.userId == Some(uid) && uid in s.profiles
    requires ParseCategory(b.category.value).Some? && b.carbonImpact.value < 0.0
    requires forall a :: (a in s.achievements && a.carbonRequired <= s.profiles[uid].totalCarbonSaved - b.carbonImpact.value
      ==> a.id in s.UnlockedIds(uid))
    ensures var (t, resp) := PostActivitySpec(s, b, {}, now);
      && resp.Created?
      && t.profiles[uid].totalCarbonSaved == s.profiles[uid].totalCarbonSaved - b.carbonImpact.value
      && t.profiles[uid].level == s.profiles[uid].level
      && t.unlocks == s.unlocks
  {
    var act := NewActivity(ParseCategory(b.category.value).value, b.activityType.value, b.value.value, b.carbonImpact.value);
    var s1 := s.AppendActivity(uid, act, now).value;
    var s2 := s1.AddSaved(uid, Abs(act.carbonImpact));
    assert s2.unlocks == s.unlocks && s2.achievements == s.achievements;
    assert s2.UnlockedIds(uid) == s.UnlockedIds(uid);
    NothingQualifies(s2.achievements, s2.UnlockedIds(uid), s2.profiles[uid].totalCarbonSaved);
  }

  /**
   * A further 100 kg brings the total to 350 kg, whose level is 4
   * (`LevelExamples`), but nothing new is unlocked, so the stored level
   * stays 3.
   */
  lemma LevelLagsBehindTotal()
    ensures var (t, resp) := PostActivitySpec(Seasoned(), PostBody(Some("u"), Some("energy"), Some("saved"), Some(200.0), Some(-100.0)), {}, 9);
      && resp.Created?
      && t.profiles["u"].totalCarbonSaved == 350.0
      && t.profiles["u"].level == 3
      && t.unlocks == Seasoned().unlocks
  {
    SeasonedHasAllUnlocked();
    PostWithoutNewUnlockKeepsLevel(Seasoned(), "u", PostBody(Some("u"), Some("energy"), Some("saved"), Some(200.0), Some(-100.0)), 9);
  }

  lemma SeasonedHasAllUnlocked()
    ensures forall a :: a in Seasoned().achievements ==> a.id in Seasoned().UnlockedIds("u")
  {
    var s := Seasoned();
    forall a | a in s.achievements
      ensures a.id in s.UnlockedIds("u")
    {
      var k :| 0 <= k < 2 && s.achievements[k] == a;
      assert s.unlocks[k].achievementId == a.id;
      RowGivesId(s, s.unlocks[k]);
    }
  }

  lemma RowGivesId(s: State, r: UserAchievement)
    requires r in s.unlocks
    ensures r.achievementId in s.UnlockedIds(r.userId)
  {
  }
}
