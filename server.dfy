/**
 * The HTTP server: GET user summary, POST activity, and the achievement
 * check that follows a saving.
 */
module Server {
  import opened Wrappers
  import opened Records
  import opened Db
  import opened Ordering

  // ---------------------------------------------------------------------
  // Level.

  /** `Math.min(10, Math.floor(total / 100) + 1)`. */
  function LevelFor(total: real): (level: int)
    ensures total >= 0.0 ==> 1 <= level <= 10
    ensures level <= 10
  {
    var l := (total / 100.0).Floor + 1;
    if l < 10 then l else 10
  }

  lemma LevelMonotone(a: real, b: real)
    requires a <= b
    ensures LevelFor(a) <= LevelFor(b)
  {
    assert (a / 100.0) <= (b / 100.0);
  }

  lemma LevelExamples()
    ensures LevelFor(0.0) == 1 && LevelFor(1.2) == 1 && LevelFor(99.9) == 1
    ensures LevelFor(100.0) == 2 && LevelFor(350.0) == 4
    ensures LevelFor(999.0) == 10 && LevelFor(1000.0) == 10 && LevelFor(5000.0) == 10
  {
    assert (1.2 / 100.0).Floor == 0;
    assert (99.9 / 100.0).Floor == 0;
    assert (350.0 / 100.0).Floor == 3;
    assert (999.0 / 100.0).Floor == 9;
  }

  // ---------------------------------------------------------------------
  // Achievement check.

  /**
   * `lte('carbon_required', total).not('id', 'in', unlocked)`: the
   * achievements, in catalogue order, whose threshold is reached and that
   * are not unlocked yet.
   */
  function Qualifying(achs: seq<Achievement>, unlocked: set<AchievementId>, total: real): (q: seq<Achievement>)
    ensures forall a :: a in q <==> a in achs && a.carbonRequired <= total && a.id !in unlocked
    ensures IdsDistinct(achs) ==> IdsDistinct(q)
    ensures |q| <= |achs|
  {
    if |achs| == 0 then []
    else
      var rest := Qualifying(achs[1..], unlocked, total);
      assert achs == [achs[0]] + achs[1..];
      if achs[0].carbonRequired <= total && achs[0].id !in unlocked then
        assert IdsDistinct(achs) ==> forall b :: b in rest ==> b.id != achs[0].id;
        [achs[0]] + rest
      else rest
  }

  /** Nothing qualifies once every reached threshold is unlocked. */
  lemma {:induction false} NothingQualifies(achs: seq<Achievement>, unlocked: set<AchievementId>, total: real)
    requires forall a :: a in achs && a.carbonRequired <= total ==> a.id in unlocked
    ensures Qualifying(achs, unlocked, total) == []
  {
    if |achs| > 0 {
      assert achs[0] in achs;
      assert forall a :: a in achs[1..] ==> a in achs;
      NothingQualifies(achs[1..], unlocked, total);
    }
  }

  /** The rows `{user_id, achievement_id}` inserted for the qualifying set. */
  function UnlockRows(uid: UserId, q: seq<Achievement>, now: int): (rows: seq<UserAchievement>)
    ensures |rows| == |q|
    ensures forall i :: 0 <= i < |q| ==> rows[i] == UserAchievement(uid, q[i].id, now)
  {
    seq(|q|, i requires 0 <= i < |q| => UserAchievement(uid, q[i].id, now))
  }

  /**
   * The effect and result of `checkAchievements`: read the user's total,
   * find the qualifying achievements, insert all of them in one batch and
   * rewrite the level; any failure yields the empty list.
   */
  function CheckAchievementsSpec(s: State, uid: UserId, faults: set<Call>, now: int): (State, seq<Achievement>)
  {
    var found := Fallible(ReadProfile, faults, s.FindProfile(uid));
    if found.Failure? || ReadQualifying in faults then (s, [])
    else
      var total := found.value.totalCarbonSaved;
      var q := Qualifying(s.achievements, s.UnlockedIds(uid), total);
      if |q| == 0 then (s, [])
      else if WriteUnlocks in faults then (s, [])
      else
        var inserted := s.AddUnlocks(UnlockRows(uid, q, now));
        if inserted.Failure? then (s, [])
        else if WriteLevel in faults then (inserted.value, [])
        else (inserted.value.SetLevel(uid, LevelFor(total)), q)
  }

  method CheckAchievements(store: Store, uid: UserId, faults: set<Call>, now: int) returns (unlocked: seq<Achievement>)
    modifies store
    ensures (store.Snapshot(), unlocked) == CheckAchievementsSpec(old(store.Snapshot()), uid, faults, now)
  {
    var found := Fallible(ReadProfile, faults, store.Snapshot().FindProfile(uid));
    if found.Failure? || ReadQualifying in faults {
      return [];
    }
    var total := found.value.totalCarbonSaved;
    var q := Qualifying(store.achievements, store.Snapshot().UnlockedIds(uid), total);
    if |q| > 0 {
      if WriteUnlocks in faults {
        return [];
      }
      var err := store.InsertUnlocks(UnlockRows(uid, q, now));
      if err.Some? {
        return [];
      }
      if WriteLevel in faults {
        return [];
      }
      store.UpdateLevel(uid, LevelFor(total));
    }
    unlocked := q;
  }

  /** The batch of qualifying rows never collides with an existing row. */
  lemma QualifyingRowsInsertable(s: State, uid: UserId, total: real, now: int)
    requires s.Valid() && uid in s.profiles
    ensures var q := Qualifying(s.achievements, s.UnlockedIds(uid), total);
      s.AddUnlocks(UnlockRows(uid, q, now)).Success?
  {
    var q := Qualifying(s.achievements, s.UnlockedIds(uid), total);
    var rows := UnlockRows(uid, q, now);
    var all := s.unlocks + rows;
    forall i, j | 0 <= i < j < |all|
      ensures all[i].userId != all[j].userId || all[i].achievementId != all[j].achievementId
    {
      if j >= |s.unlocks| && all[i].userId == uid {
        var b := q[j - |s.unlocks|];
        assert b in q;
        if i < |s.unlocks| {
          assert all[i] in s.unlocks;
          assert all[i].achievementId in s.UnlockedIds(uid);
        } else {
          assert q[i - |s.unlocks|].id != b.id;
        }
      }
    }
    forall i | 0 <= i < |rows| ensures rows[i].achievementId in s.AchievementIds() {
      assert q[i] in q;
    }
  }

  /**
   * With no store failure, the check unlocks exactly the qualifying
   * achievements in one batch, returns them, and rewrites the level to the
   * formula's value only when at least one was unlocked. The store stays
   * valid: no pair is duplicated and every row is earned.
   */
  lemma CheckAchievementsOutcome(s: State, uid: UserId, now: int)
    requires s.Valid() && uid in s.profiles
    ensures var total := s.profiles[uid].totalCarbonSaved;
      var q := Qualifying(s.achievements, s.UnlockedIds(uid), total);
      var (t, r) := CheckAchievementsSpec(s, uid, {}, now);
      && r == q
      && t.Valid() && s.ExtendsTo(t)
      && t.unlocks == s.unlocks + UnlockRows(uid, q, now)
      && t.activities == s.activities
      && (forall u :: u in s.profiles && u != uid ==> t.profiles[u] == s.profiles[u])
      && t.profiles[uid].totalCarbonSaved == total
      && t.profiles[uid].level == (if |q| > 0 then LevelFor(total) else s.profiles[uid].level)
  {
    var total := s.profiles[uid].totalCarbonSaved;
    var q := Qualifying(s.achievements, s.UnlockedIds(uid), total);
    if |q| > 0 {
      var rows := UnlockRows(uid, q, now);
      QualifyingRowsInsertable(s, uid, total, now);
      forall i | 0 <= i < |rows| ensures s.Earned(rows[i]) {
        assert q[i] in q;
        forall k | 0 <= k < |s.achievements| && s.achievements[k].id == rows[i].achievementId
          ensures s.achievements[k].carbonRequired <= total
        {
          var j :| 0 <= j < |s.achievements| && s.achievements[j] == q[i];
          assert j == k;
        }
      }
      AddUnlocksKeepsValid(s, rows);
      var t1 := s.AddUnlocks(rows).value;
      SetLevelKeepsValid(t1, uid, LevelFor(total));
    }
  }

  /**
   * Idempotence: right after a successful check, a second check at the same
   * total unlocks nothing and changes nothing, whatever else goes wrong.
   */
  lemma CheckAchievementsIdempotent(s: State, uid: UserId, now: int, faults: set<Call>, later: int)
    requires s.Valid() && uid in s.profiles
    ensures var (t, _) := CheckAchievementsSpec(s, uid, {}, now);
      CheckAchievementsSpec(t, uid, faults, later) == (t, [])
  {
    CheckAchievementsOutcome(s, uid, now);
    var total := s.profiles[uid].totalCarbonSaved;
    var q := Qualifying(s.achievements, s.UnlockedIds(uid), total);
    var (t, _) := CheckAchievementsSpec(s, uid, {}, now);
    var rows := UnlockRows(uid, q, now);
    forall a | a in t.achievements && a.carbonRequired <= total ensures a.id in t.UnlockedIds(uid) {
      if a.id !in s.UnlockedIds(uid) {
        assert a in q;
        var k :| 0 <= k < |q| && q[k] == a;
        assert rows[k] in t.unlocks;
      } else {
        var x :| x in s.unlocks && x.userId == uid && x.achievementId == a.id;
        assert x in t.unlocks;
      }
    }
    NothingQualifies(t.achievements, t.UnlockedIds(uid), total);
  }

  // ---------------------------------------------------------------------
  // POST /api/activities.

  /** The request body; None stands for an absent field. */
  datatype PostBody = PostBody(
    userId: Option<string>,
    category: Option<string>,
    activityType: Option<string>,
    value: Option<real>,
    carbonImpact: Option<real>)

  datatype SummaryStats = SummaryStats(
    totalActivities: nat,
    totalCarbonSaved: real,
    carbonByCategory: map<Category, real>,
    achievements: nat)

  /** An unlock row joined with its achievement (None when the join finds none). */
  datatype UnlockedAchievement = UnlockedAchievement(achievement: Option<Achievement>, unlockedAt: int)

  datatype Summary = Summary(
    profile: Profile,
    stats: SummaryStats,
    recentActivities: seq<Activity>,
    achievements: seq<UnlockedAchievement>)

  datatype Response =
    | Ok(summary: Summary)          // 200
    | Created(activity: Activity)   // 201
    | BadRequest(message: string)   // 400
    | ServerError(message: string)  // 500

  /** An empty string or a missing field is falsy. */
  predicate Falsy(s: Option<string>)
  {
    s.None? || s.value == ""
  }

  /** The 400 guard: value 0 and impact 0 pass, only undefined fails. */
  predicate MissingFields(b: PostBody)
  {
    Falsy(b.userId) || Falsy(b.category) || Falsy(b.activityType) || b.value.None? || b.carbonImpact.None?
  }

  /**
   * The effect and response of POST /api/activities: 400 on a missing field;
   * insert the activity (500 when the insert fails: unknown user, a category
   * the activities column does not accept, store error); when the impact is negative, add its
   * absolute value to the total (500 on failure) and run the achievement
   * check, whose failures are swallowed; then 201 with the row.
   */
  function PostActivitySpec(s: State, b: PostBody, faults: set<Call>, now: int): (State, Response)
  {
    if MissingFields(b) then (s, BadRequest("Missing required fields"))
    else
      var uid := b.userId.value;
      var cat := ParseCategory(b.category.value);
      if cat.None? then (s, ServerError("Failed to add activity"))
      else
        var act := NewActivity(cat.value, b.activityType.value, b.value.value, b.carbonImpact.value);
        var inserted := Fallible(WriteActivity, faults, s.AppendActivity(uid, act, now));
        if inserted.Failure? then (s, ServerError("Failed to add activity"))
        else
          var s1 := inserted.value;
          var row := s.NewRow(uid, act, now);
          if act.carbonImpact < 0.0 then
            if AddToTotal in faults then (s1, ServerError("Failed to add activity"))
            else
              var (s2, _) := CheckAchievementsSpec(s1.AddSaved(uid, Abs(act.carbonImpact)), uid, faults, now);
              (s2, Created(row))
          else (s1, Created(row))
  }

  method PostActivity(store: Store, b: PostBody, faults: set<Call>, now: int) returns (resp: Response)
    modifies store
    ensures (store.Snapshot(), resp) == PostActivitySpec(old(store.Snapshot()), b, faults, now)
  {
    if Falsy(b.userId) || Falsy(b.category) || Falsy(b.activityType) || b.value == None || b.carbonImpact == None {
      return BadRequest("Missing required fields");
    }
    var uid := b.userId.value;
    var cat := ParseCategory(b.category.value);
    if cat.None? {
      return ServerError("Failed to add activity");
    }
    var act := NewActivity(cat.value, b.activityType.value, b.value.value, b.carbonImpact.value);
    if WriteActivity in faults {
      return ServerError("Failed to add activity");
    }
    var inserted := store.InsertActivity(uid, act, now);
    if inserted.Failure? {
      return ServerError("Failed to add activity");
    }
    if act.carbonImpact < 0.0 {
      if AddToTotal in faults {
        return ServerError("Failed to add activity");
      }
      store.Increment(uid, Abs(act.carbonImpact));
      var _ := CheckAchievements(store, uid, faults, now);
    }
    resp := Created(inserted.value);
  }

  /** 400 exactly when a field is missing, and then nothing is written. */
  lemma PostRejectsExactlyMissingFields(s: State, b: PostBody, faults: set<Call>, now: int)
    ensures var (t, r) := PostActivitySpec(s, b, faults, now);
      (r.BadRequest? <==> MissingFields(b)) && (r.BadRequest? ==> t == s)
  {
  }

  /**
   * The store stays valid and only grows; a 201 means the activity was
   * appended; a non-negative impact changes no profile and unlocks nothing;
   * a negative one raises the user's total by exactly its absolute value,
   * may rewrite that user's level to the formula's value, adds at most the
   * batch of achievements the new total qualifies for, and leaves every
   * other profile as it was.
   */
  lemma PostActivityOutcome(s: State, b: PostBody, faults: set<Call>, now: int)
    requires s.Valid()
    ensures var (t, r) := PostActivitySpec(s, b, faults, now);
      && t.Valid() && s.ExtendsTo(t)
      && (r.Created? ==>
           && var uid := b.userId.value;
           && uid in s.profiles
           && t.activities == s.activities + [r.activity]
           && r.activity.carbonImpact == b.carbonImpact.value
           && (r.activity.carbonImpact >= 0.0 ==> t.profiles == s.profiles && t.unlocks == s.unlocks)
           && (r.activity.carbonImpact < 0.0 ==>
                var total := s.profiles[uid].totalCarbonSaved - r.activity.carbonImpact;
                var q := Qualifying(s.achievements, s.UnlockedIds(uid), total);
                && t.profiles.Keys == s.profiles.Keys
                && (forall u :: u in s.profiles && u != uid ==> t.profiles[u] == s.profiles[u])
                && t.profiles[uid].totalCarbonSaved == total
                && (t.profiles[uid].level == s.profiles[uid].level || t.profiles[uid].level == LevelFor(total))
                && (t.unlocks == s.unlocks || t.unlocks == s.unlocks + UnlockRows(uid, q, now))))
  {
    var (t, r) := PostActivitySpec(s, b, faults, now);
    if !MissingFields(b) && ParseCategory(b.category.value).Some? {
      var uid := b.userId.value;
      var act := NewActivity(ParseCategory(b.category.value).value, b.activityType.value, b.value.value, b.carbonImpact.value);
      var inserted := Fallible(WriteActivity, faults, s.AppendActivity(uid, act, now));
      if inserted.Success? {
        var s1 := inserted.value;
        AppendActivityKeepsValid(s, uid, act, now);
        if act.carbonImpact < 0.0 && AddToTotal !in faults {
          var s2 := s1.AddSaved(uid, Abs(act.carbonImpact));
          AddSavedKeepsValid(s1, uid, Abs(act.carbonImpact));
          CheckKeepsValid(s2, uid, faults, now);
          CheckAchievementsEffect(s2, uid, faults, now);
          assert s2.UnlockedIds(uid) == s.UnlockedIds(uid);
        }
      }
    }
  }

  /**
   * Whatever fails inside it, the check writes at most the qualifying batch
   * and the user's level: other profiles, every total and the activities
   * stay, and the unlock rows either stay or grow by exactly that batch.
   */
  lemma CheckAchievementsEffect(s: State, uid: UserId, faults: set<Call>, now: int)
    requires uid in s.profiles
    ensures var total := s.profiles[uid].totalCarbonSaved;
      var q := Qualifying(s.achievements, s.UnlockedIds(uid), total);
      var (t, r) := CheckAchievementsSpec(s, uid, faults, now);
      && t.activities == s.activities && t.achievements == s.achievements
      && t.profiles.Keys == s.profiles.Keys
      && (forall u :: u in s.profiles && u != uid ==> t.profiles[u] == s.profiles[u])
      && t.profiles[uid] == s.profiles[uid].(level := t.profiles[uid].level)
      && (t.profiles[uid].level == s.profiles[uid].level || t.profiles[uid].level == LevelFor(total))
      && (t.unlocks == s.unlocks || t.unlocks == s.unlocks + UnlockRows(uid, q, now))
      && (r == [] || r == q)
  {
  }

  /** Whatever fails inside it, the check keeps the store valid and totals unchanged. */
  lemma CheckKeepsValid(s: State, uid: UserId, faults: set<Call>, now: int)
    requires s.Valid()
    ensures var (t, _) := CheckAchievementsSpec(s, uid, faults, now);
      && t.Valid() && s.ExtendsTo(t) && t.activities == s.activities && t.profiles.Keys == s.profiles.Keys
      && forall u :: u in s.profiles ==> t.profiles[u].totalCarbonSaved == s.profiles[u].totalCarbonSaved
  {
    var found := Fallible(ReadProfile, faults, s.FindProfile(uid));
    if found.Success? && ReadQualifying !in faults {
      var total := found.value.totalCarbonSaved;
      var q := Qualifying(s.achievements, s.UnlockedIds(uid), total);
      if |q| > 0 && WriteUnlocks !in faults {
        CheckAchievementsOutcome(s, uid, now);
        var rows := UnlockRows(uid, q, now);
        QualifyingRowsInsertable(s, uid, total, now);
        if WriteLevel in faults {
          forall i | 0 <= i < |rows| ensures s.Earned(rows[i]) {
            assert q[i] in q;
            forall k | 0 <= k < |s.achievements| && s.achievements[k].id == rows[i].achievementId
              ensures s.achievements[k].carbonRequired <= total
            {
              var j :| 0 <= j < |s.achievements| && s.achievements[j] == q[i];
              assert j == k;
            }
          }
          AddUnlocksKeepsValid(s, rows);
        }
      }
    }
  }

  /**
   * A failure inside the achievement check never costs the 201: with only
   * check-internal calls failing, a valid saving is still created.
   */
  lemma PostSucceedsDespiteCheckFailure(s: State, b: PostBody, faults: set<Call>, now: int)
    requires !MissingFields(b) && ParseCategory(b.category.value).Some?
    requires b.userId.value in s.profiles
    requires faults <= {ReadProfile, ReadQualifying, WriteUnlocks, WriteLevel}
    ensures PostActivitySpec(s, b, faults, now).1.Created?
  {
  }

  // ---------------------------------------------------------------------
  // GET /api/users/:userId/summary.

  /** Sum of the signed carbon_impact over the activities of category c. */
  function SignedSum(acts: seq<Activity>, c: Category): real
  {
    if |acts| == 0 then 0.0
    else
      var last := acts[|acts| - 1];
      SignedSum(acts[..|acts| - 1], c) + (if last.category == c then last.carbonImpact else 0.0)
  }

  /** The reduce step: start a missing (or zero) entry at 0, then add the impact. */
  function AddSigned(acc: map<Category, real>, a: Activity): map<Category, real>
  {
    var base := if a.category !in acc || acc[a.category] == 0.0 then acc[a.category := 0.0] else acc;
    base[a.category := base[a.category] + a.carbonImpact]
  }

  /** The tally the server's reduce builds, left to right. */
  function SignedByCategory(acts: seq<Activity>): map<Category, real>
  {
    if |acts| == 0 then map[] else AddSigned(SignedByCategory(acts[..|acts| - 1]), acts[|acts| - 1])
  }

  /** Only occurring categories are keys, each holding its signed sum. */
  lemma {:induction false} SignedByCategoryMeaning(acts: seq<Activity>, c: Category)
    ensures c in SignedByCategory(acts) <==> exists a :: a in acts && a.category == c
    ensures c in SignedByCategory(acts) ==> SignedByCategory(acts)[c] == SignedSum(acts, c)
    ensures c !in SignedByCategory(acts) ==> SignedSum(acts, c) == 0.0
  {
    if |acts| > 0 {
      var pre, last := acts[..|acts| - 1], acts[|acts| - 1];
      assert acts == pre + [last];
      SignedByCategoryMeaning(pre, c);
      if c in SignedByCategory(acts) && last.category != c {
        var a :| a in pre && a.category == c;
        assert a in acts;
      }
    }
  }

  method TallySignedByCategory(acts: seq<Activity>) returns (acc: map<Category, real>)
    ensures acc == SignedByCategory(acts)
  {
    acc := map[];
    var i := 0;
    while i < |acts|
      invariant 0 <= i <= |acts|
      invariant acc == SignedByCategory(acts[..i])
    {
      var a := acts[i];
      if a.category !in acc || acc[a.category] == 0.0 {
        acc := acc[a.category := 0.0];
      }
      acc := acc[a.category := acc[a.category] + a.carbonImpact];
      assert acts[..i + 1][..i] == acts[..i];
      i := i + 1;
    }
    assert acts[..|acts|] == acts;
  }

  /** The first achievement with the given id, as the join picks it. */
  function FindAchievement(achs: seq<Achievement>, id: AchievementId): (r: Option<Achievement>)
    ensures r.Some? ==> r.value in achs && r.value.id == id
    ensures r.None? <==> forall a :: a in achs ==> a.id != id
  {
    if |achs| == 0 then None
    else if achs[0].id == id then Some(achs[0])
    else
      assert achs == [achs[0]] + achs[1..];
      FindAchievement(achs[1..], id)
  }

  function Joined(achs: seq<Achievement>, rows: seq<UserAchievement>): (r: seq<UnlockedAchievement>)
    ensures |r| == |rows|
    ensures forall i :: 0 <= i < |rows| ==> r[i].unlockedAt == rows[i].unlockedAt
    ensures forall i :: 0 <= i < |rows| ==> r[i].achievement == FindAchievement(achs, rows[i].achievementId)
  {
    seq(|rows|, i requires 0 <= i < |rows| => UnlockedAchievement(FindAchievement(achs, rows[i].achievementId), rows[i].unlockedAt))
  }

  /**
   * The response of the summary route: 500 when the profile, the activities
   * or the unlock rows cannot be read; otherwise 200 with the profile, the
   * counts, the signed tally over the activities latest first, the first five
   * of them, and the unlock rows joined with their achievements.
   */
  function SummarySpec(s: State, uid: UserId, faults: set<Call>): Response
  {
    var found := Fallible(ReadProfile, faults, s.FindProfile(uid));
    if found.Failure? || ReadActivities in faults || ReadUnlocks in faults then
      ServerError("Failed to fetch user summary")
    else
      var acts := NewestFirst(s.ActivitiesOf(uid));
      var rows := s.UnlocksOf(uid);
      Ok(Summary(
        found.value,
        SummaryStats(|acts|, found.value.totalCarbonSaved, SignedByCategory(acts), |rows|),
        FirstFive(acts),
        Joined(s.achievements, rows)))
  }

  method GetSummary(store: Store, uid: UserId, faults: set<Call>) returns (resp: Response)
    ensures resp == SummarySpec(store.Snapshot(), uid, faults)
  {
    var s := store.Snapshot();
    var found := Fallible(ReadProfile, faults, s.FindProfile(uid));
    if found.Failure? || ReadActivities in faults || ReadUnlocks in faults {
      return ServerError("Failed to fetch user summary");
    }
    var acts := NewestFirst(s.ActivitiesOf(uid));
    var rows := s.UnlocksOf(uid);
    var byCategory := TallySignedByCategory(acts);
    resp := Ok(Summary(
      found.value,
      SummaryStats(|acts|, found.value.totalCarbonSaved, byCategory, |rows|),
      FirstFive(acts),
      Joined(s.achievements, rows)));
  }

  /** 500 exactly when the profile is missing or one of the three reads fails. */
  lemma SummaryFailsExactly(s: State, uid: UserId, faults: set<Call>)
    ensures SummarySpec(s, uid, faults).ServerError? <==>
      uid !in s.profiles || ReadProfile in faults || ReadActivities in faults || ReadUnlocks in faults
    ensures SummarySpec(s, uid, faults).ServerError? || SummarySpec(s, uid, faults).Ok?
  {
  }

  /**
   * A 200 summary counts the user's activities and unlock rows, tallies the
   * signed impact per occurring category, and lists the five latest
   * activities first.
   */
  lemma SummaryShape(s: State, uid: UserId)
    requires uid in s.profiles
    ensures var r := SummarySpec(s, uid, {});
      && r.Ok?
      && r.summary.profile == s.profiles[uid]
      && r.summary.stats.totalActivities == |s.ActivitiesOf(uid)|
      && r.summary.stats.achievements == |s.UnlocksOf(uid)|
      && (forall c :: c in r.summary.stats.carbonByCategory <==> exists a :: a in s.activities && a.userId == uid && a.category == c)
      && (forall c :: c in r.summary.stats.carbonByCategory ==>
            r.summary.stats.carbonByCategory[c] == SignedSum(NewestFirst(s.ActivitiesOf(uid)), c))
      && r.summary.recentActivities == Recent(s.ActivitiesOf(uid))
      && |r.summary.recentActivities| <= 5
  {
    var own := s.ActivitiesOf(uid);
    var acts := NewestFirst(own);
    RecentMeaning(own);
    forall c ensures c in SignedByCategory(acts) <==> exists a :: a in s.activities && a.userId == uid && a.category == c {
      SignedByCategoryMeaning(acts, c);
      assert forall a :: a in acts <==> a in own by {
        assert multiset(acts) == multiset(own);
        forall a ensures a in acts <==> a in own {
          assert a in acts <==> a in multiset(acts);
        }
      }
    }
    forall c | c in SignedByCategory(acts) ensures SignedByCategory(acts)[c] == SignedSum(acts, c) {
      SignedByCategoryMeaning(acts, c);
    }
  }
}
