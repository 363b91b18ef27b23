/**
 * The achievements page: every achievement of the catalogue in ascending
 * order of its threshold, marked with the user's unlock rows, and a
 * progress percentage per achievement.
 */
module AchievementsPage {
  import opened Wrappers
  import opened Records
  import opened Db
  import opened Ordering
  import opened Forms

  /** `userAchievementsMap`: achievement id to unlock time, a later row overwriting an earlier one. */
  function UnlockMap(rows: seq<UserAchievement>): map<AchievementId, int>
  {
    if rows == [] then map[]
    else UnlockMap(rows[..|rows| - 1])[rows[|rows| - 1].achievementId := rows[|rows| - 1].unlockedAt]
  }

  /** An id is a key exactly when some row carries it. */
  lemma {:induction false} UnlockMapKeys(rows: seq<UserAchievement>)
    ensures forall id :: id in UnlockMap(rows) <==> exists i :: 0 <= i < |rows| && rows[i].achievementId == id
  {
    if rows != [] {
      var init := rows[..|rows| - 1];
      UnlockMapKeys(init);
      assert forall i :: 0 <= i < |init| ==> init[i] == rows[i];
      forall id | exists i :: 0 <= i < |rows| && rows[i].achievementId == id
        ensures id in UnlockMap(rows)
      {
        var i :| 0 <= i < |rows| && rows[i].achievementId == id;
        if i < |init| {
          assert init[i].achievementId == id;
        }
      }
    }
  }

  /** A key's time is that of the last row carrying it. */
  lemma {:induction false} UnlockMapLast(rows: seq<UserAchievement>, id: AchievementId)
    requires id in UnlockMap(rows)
    ensures exists i :: (0 <= i < |rows| && rows[i].achievementId == id && UnlockMap(rows)[id] == rows[i].unlockedAt
      && forall j :: i < j < |rows| ==> rows[j].achievementId != id)
  {
    var init := rows[..|rows| - 1];
    var last := rows[|rows| - 1];
    if id == last.achievementId {
      assert rows[|rows| - 1].achievementId == id;
    } else {
      assert id in UnlockMap(init) && UnlockMap(rows)[id] == UnlockMap(init)[id];
      UnlockMapLast(init, id);
      var i :| 0 <= i < |init| && init[i].achievementId == id && UnlockMap(init)[id] == init[i].unlockedAt
        && forall j :: i < j < |init| ==> init[j].achievementId != id;
      assert rows[i] == init[i];
      assert forall j :: i < j < |rows| ==> rows[j].achievementId != id by {
        forall j | i < j < |rows| ensures rows[j].achievementId != id {
          if j < |init| {
            assert rows[j] == init[j];
          }
        }
      }
    }
  }

  /** The `reduce` building `userAchievementsMap`. */
  method BuildUnlockMap(rows: seq<UserAchievement>) returns (m: map<AchievementId, int>)
    ensures m == UnlockMap(rows)
  {
    m := map[];
    var i := 0;
    while i < |rows|
      invariant 0 <= i <= |rows|
      invariant m == UnlockMap(rows[..i])
    {
      assert rows[..i + 1][..i] == rows[..i];
      m := m[rows[i].achievementId := rows[i].unlockedAt];
      i := i + 1;
    }
    assert rows[..|rows|] == rows;
  }

  /** One entry of the page: the achievement, whether it is unlocked, and when. */
  datatype View = View(achievement: Achievement, unlocked: bool, unlockedAt: Option<int>)

  /** The `map` over the catalogue that attaches the unlock status. */
  function MarkUnlocked(all: seq<Achievement>, m: map<AchievementId, int>): seq<View>
  {
    seq(|all|, i requires 0 <= i < |all| =>
      View(all[i], all[i].id in m, if all[i].id in m then Some(m[all[i].id]) else None))
  }

  /** The achievements the views show, in order. */
  function Shown(views: seq<View>): seq<Achievement>
  {
    seq(|views|, i requires 0 <= i < |views| => views[i].achievement)
  }

  function ByRequirement(a: Achievement): real
  {
    a.carbonRequired
  }

  /**
   * What the page holds after its effect: nothing while no user is signed
   * in, the mock list when any of the three reads fails, and otherwise the
   * user's total and the marked catalogue.
   */
  datatype Page = Loading | Fallback | Loaded(carbonSaved: real, achievements: seq<View>)

  function LoadSpec(s: State, user: Option<User>, faults: set<Call>): Page
  {
    if user.None? then Loading
    else
      var uid := user.value.id;
      var profile := Fallible(ReadProfile, faults, s.FindProfile(uid));
      if profile.Failure? || ReadCatalogue in faults || ReadUnlocks in faults then Fallback
      else Loaded(profile.value.totalCarbonSaved,
                  MarkUnlocked(SortBy(s.achievements, ByRequirement), UnlockMap(s.UnlocksOf(uid))))
  }

  /** `fetchAchievements`, reading the store and building the unlock map with a loop. */
  method Load(store: Store, user: Option<User>, faults: set<Call>) returns (page: Page)
    ensures page == LoadSpec(store.Snapshot(), user, faults)
  {
    if user.None? {
      return Loading;
    }
    var s := store.Snapshot();
    var uid := user.value.id;
    var profile := Fallible(ReadProfile, faults, s.FindProfile(uid));
    if profile.Failure? || ReadCatalogue in faults || ReadUnlocks in faults {
      return Fallback;
    }
    var m := BuildUnlockMap(s.UnlocksOf(uid));
    page := Loaded(profile.value.totalCarbonSaved, MarkUnlocked(SortBy(s.achievements, ByRequirement), m));
  }

  /**
   * A loaded page shows the whole catalogue sorted by threshold; an entry is
   * unlocked exactly when one of the user's unlock rows names it, and then
   * carries that row's time.
   */
  lemma LoadedMeaning(s: State, user: Option<User>, faults: set<Call>)
    requires LoadSpec(s, user, faults).Loaded?
    ensures user.Some? && user.value.id in s.profiles
    ensures LoadSpec(s, user, faults).carbonSaved == s.profiles[user.value.id].totalCarbonSaved
    ensures var views := LoadSpec(s, user, faults).achievements;
      && multiset(Shown(views)) == multiset(s.achievements)
      && SortedBy(Shown(views), ByRequirement)
    ensures var uid := user.value.id; var views := LoadSpec(s, user, faults).achievements;
      forall i :: 0 <= i < |views| ==>
        (views[i].unlocked <==>
          exists r :: r in s.unlocks && r.userId == uid && r.achievementId == views[i].achievement.id)
    ensures var uid := user.value.id; var views := LoadSpec(s, user, faults).achievements;
      forall i :: 0 <= i < |views| && views[i].unlocked ==>
        exists r :: r in s.unlocks && r.userId == uid && r.achievementId == views[i].achievement.id
          && views[i].unlockedAt == Some(r.unlockedAt)
  {
    var uid := user.value.id;
    var rows := s.UnlocksOf(uid);
    var sorted := SortBy(s.achievements, ByRequirement);
    var views := LoadSpec(s, user, faults).achievements;
    UnlockMapKeys(rows);
    assert Shown(views) == sorted;
    forall i | 0 <= i < |views|
      ensures views[i].unlocked <==>
        exists r :: r in s.unlocks && r.userId == uid && r.achievementId == views[i].achievement.id
    {
      if views[i].unlocked {
        var k :| 0 <= k < |rows| && rows[k].achievementId == views[i].achievement.id;
        assert rows[k] in rows;
      } else {
        forall r | r in s.unlocks && r.userId == uid
          ensures r.achievementId != views[i].achievement.id
        {
          assert r in rows;
          var k :| 0 <= k < |rows| && rows[k] == r;
        }
      }
    }
    forall i | 0 <= i < |views| && views[i].unlocked
      ensures exists r :: (r in s.unlocks && r.userId == uid && r.achievementId == views[i].achievement.id
        && views[i].unlockedAt == Some(r.unlockedAt))
    {
      var id := views[i].achievement.id;
      UnlockMapLast(rows, id);
      var k :| 0 <= k < |rows| && rows[k].achievementId == id && UnlockMap(rows)[id] == rows[k].unlockedAt
        && forall j :: k < j < |rows| ==> rows[j].achievementId != id;
      assert rows[k] in rows;
    }
  }

  /** Thresholds are never negative (the store keeps them so). */
  predicate ThresholdsNonNegative(views: seq<View>)
  {
    forall i :: 0 <= i < |views| ==> views[i].achievement.carbonRequired >= 0.0
  }

  /** `totalSaved` inside `calculateProgress`: the thresholds of the unlocked entries, summed. */
  function UnlockedThresholds(views: seq<View>): (total: real)
    requires ThresholdsNonNegative(views)
    ensures total >= 0.0
    ensures (forall i :: 0 <= i < |views| ==> !views[i].unlocked) ==> total == 0.0
  {
    if views == [] then 0.0
    else
      var last := views[|views| - 1];
      UnlockedThresholds(views[..|views| - 1]) + (if last.unlocked then last.achievement.carbonRequired else 0.0)
  }

  /**
   * `previousAchievement`'s threshold: the largest threshold strictly below
   * the bound, or none when no entry lies below it.
   */
  function LargestBelow(views: seq<View>, bound: real): (r: Option<real>)
    ensures r.Some? ==> r.value < bound
    ensures r.Some? ==> exists i :: 0 <= i < |views| && views[i].achievement.carbonRequired == r.value
    ensures r.Some? ==> forall i :: 0 <= i < |views| && views[i].achievement.carbonRequired < bound ==>
      views[i].achievement.carbonRequired <= r.value
    ensures r.None? <==> forall i :: 0 <= i < |views| ==> views[i].achievement.carbonRequired >= bound
  {
    if views == [] then None
    else
      var rest := LargestBelow(views[..|views| - 1], bound);
      var c := views[|views| - 1].achievement.carbonRequired;
      if c >= bound then rest
      else if rest.Some? && rest.value >= c then rest
      else Some(c)
  }

  /** `Math.max(0, Math.min(99, x))`. */
  function Clamp99(x: int): (r: int)
    ensures 0 <= r <= 99
    ensures 0 <= x <= 99 ==> r == x
  {
    if x < 0 then 0 else if x > 99 then 99 else x
  }

  /**
   * The progress formula of `calculateProgress` for a given saved total:
   * 100 once unlocked; below the threshold, the share of the way from the
   * previous threshold (or 0), floored and clamped to 0..99; 0 for a locked
   * entry whose threshold is already reached.
   */
  function ProgressToward(views: seq<View>, target: View, saved: real): (r: int)
    requires saved >= 0.0 && target.achievement.carbonRequired >= 0.0
    ensures 0 <= r <= 100
    ensures target.unlocked <==> r == 100
    ensures !target.unlocked && saved >= target.achievement.carbonRequired ==> r == 0
  {
    var required := target.achievement.carbonRequired;
    var previous := match LargestBelow(views, required) case Some(p) => p case None => 0.0;
    if target.unlocked then 100
    else if saved < required then Clamp99((((saved - previous) / (required - previous)) * 100.0).Floor)
    else 0
  }

  /** `calculateProgress` as written: the saved total is the sum of the unlocked thresholds. */
  function CalculateProgress(views: seq<View>, target: View): (r: int)
    requires ThresholdsNonNegative(views) && target.achievement.carbonRequired >= 0.0
    ensures 0 <= r <= 100
    ensures target.unlocked <==> r == 100
  {
    ProgressToward(views, target, UnlockedThresholds(views))
  }

  /** With nothing unlocked yet, the page shows 0% for every locked achievement. */
  lemma NothingUnlockedNoProgress(views: seq<View>, target: View)
    requires ThresholdsNonNegative(views) && target.achievement.carbonRequired >= 0.0
    requires forall i :: 0 <= i < |views| ==> !views[i].unlocked
    requires !target.unlocked
    ensures CalculateProgress(views, target) == 0
  {
    var required := target.achievement.carbonRequired;
    var below := LargestBelow(views, required);
    var previous := match below case Some(p) => p case None => 0.0;
    assert previous >= 0.0 by {
      if below.Some? {
        var i :| 0 <= i < |views| && views[i].achievement.carbonRequired == below.value;
      }
    }
    assert UnlockedThresholds(views) == 0.0;
    if 0.0 < required {
      var range := required - previous;
      ScaledMonotone(0.0 - previous, 0.0, range);
      FloorMonotone(((0.0 - previous) / range) * 100.0, 0.0);
    }
  }

  lemma FloorMonotone(x: real, y: real)
    requires x <= y
    ensures x.Floor <= y.Floor
  {
  }

  /** Below a locked threshold, more carbon saved never shows less progress. */
  lemma {:induction false} ProgressMonotone(views: seq<View>, target: View, s1: real, s2: real)
    requires 0.0 <= s1 <= s2 < target.achievement.carbonRequired
    requires !target.unlocked
    ensures ProgressToward(views, target, s1) <= ProgressToward(views, target, s2)
  {
    var required := target.achievement.carbonRequired;
    var previous := match LargestBelow(views, required) case Some(p) => p case None => 0.0;
    var range := required - previous;
    ScaledMonotone(s1 - previous, s2 - previous, range);
    FloorMonotone(((s1 - previous) / range) * 100.0, ((s2 - previous) / range) * 100.0);
  }

  lemma ScaledMonotone(a: real, b: real, range: real)
    requires a <= b && range > 0.0
    ensures (a / range) * 100.0 <= (b / range) * 100.0
  {
    assert b / range - a / range == (b - a) / range;
    assert (b - a) / range >= 0.0;
  }

  /**
   * Thresholds 0 and 10 unlocked, 50 locked, 30 kg actually saved: the page
   * shows 0% towards 50 kg, where the share of the way from 10 to 50 is 50%.
   */
  lemma ProgressIgnoresCarbonSaved()
    ensures var views := [
        View(Achievement("first", "First Steps", "", "", 0.0), true, Some(1)),
        View(Achievement("saver", "Carbon Saver", "", "", 10.0), true, Some(2)),
        View(Achievement("fan", "Eco Enthusiast", "", "", 50.0), false, None)];
      && CalculateProgress(views, views[2]) == 0
      && ProgressToward(views, views[2], 30.0) == 50
  {
    var views := [
        View(Achievement("first", "First Steps", "", "", 0.0), true, Some(1)),
        View(Achievement("saver", "Carbon Saver", "", "", 10.0), true, Some(2)),
        View(Achievement("fan", "Eco Enthusiast", "", "", 50.0), false, None)];
    assert views[..2][..1] == views[..1];
    assert views[..3] == views;
    assert UnlockedThresholds(views[..1]) == 0.0;
    assert UnlockedThresholds(views[..2]) == 10.0;
    assert UnlockedThresholds(views) == 10.0;
    assert LargestBelow(views[..1], 50.0) == Some(0.0);
    assert LargestBelow(views[..2], 50.0) == Some(10.0);
    assert LargestBelow(views, 50.0) == Some(10.0);
  }
}
