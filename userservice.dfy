/**
 * The client-side service: recording an activity (`addActivity`), the
 * dashboard data of one user (`fetchUserData`) and the next achievement to
 * aim for (`getNextAchievement`).
 */
module UserService {
  import opened Wrappers
  import opened Records
  import opened Db
  import opened Ordering

  datatype ServiceError = MissingUserId | StoreError(cause: DbError)

  datatype Stats = Stats(
    totalActivities: nat,
    carbonByCategory: map<Category, real>,
    recentActivities: seq<Activity>)

  /**
   * What `fetchUserData` returns: the fixed answer for a profile it had to
   * create, or the figures of an existing profile.
   */
  datatype UserData =
    | NewUser(username: Option<string>, totalCarbonSaved: real, level: int, achievements: nat)
    | Existing(
        id: UserId,
        username: Option<string>,
        totalCarbonSaved: real,
        level: int,
        achievements: nat,
        nextAchievement: Option<Achievement>,
        stats: Stats)

  // ---------------------------------------------------------------------
  // Carbon by category: the sum of |carbon_impact| per category.

  /** Sum of |carbon_impact| over the activities of category c. */
  function AbsSum(acts: seq<Activity>, c: Category): (r: real)
    ensures r >= 0.0
  {
    if |acts| == 0 then 0.0
    else
      var last := acts[|acts| - 1];
      AbsSum(acts[..|acts| - 1], c) + (if last.category == c then Abs(last.carbonImpact) else 0.0)
  }

  /** The reduce step: start a missing (or zero) entry at 0, then add |impact|. */
  function AddAbs(acc: map<Category, real>, a: Activity): map<Category, real>
  {
    var base := if a.category !in acc || acc[a.category] == 0.0 then acc[a.category := 0.0] else acc;
    base[a.category := base[a.category] + Abs(a.carbonImpact)]
  }

  /** The tally the client's reduce builds, left to right. */
  function AbsByCategory(acts: seq<Activity>): map<Category, real>
  {
    if |acts| == 0 then map[] else AddAbs(AbsByCategory(acts[..|acts| - 1]), acts[|acts| - 1])
  }

  /**
   * Only the categories that occur are keys, each value is the sum of the
   * absolute impacts of that category's activities, and no value is negative.
   */
  lemma {:induction false} AbsByCategoryMeaning(acts: seq<Activity>, c: Category)
    ensures c in AbsByCategory(acts) <==> exists a :: a in acts && a.category == c
    ensures c in AbsByCategory(acts) ==> AbsByCategory(acts)[c] == AbsSum(acts, c) >= 0.0
    ensures c !in AbsByCategory(acts) ==> AbsSum(acts, c) == 0.0
  {
    if |acts| > 0 {
      var pre, last := acts[..|acts| - 1], acts[|acts| - 1];
      assert acts == pre + [last];
      AbsByCategoryMeaning(pre, c);
      if c in AbsByCategory(acts) && last.category != c {
        var a :| a in pre && a.category == c;
        assert a in acts;
      }
    }
  }

  /** The client's reduce over the activities, updating the tally in place. */
  method TallyByCategory(acts: seq<Activity>) returns (acc: map<Category, real>)
    ensures acc == AbsByCategory(acts)
  {
    acc := map[];
    var i := 0;
    while i < |acts|
      invariant 0 <= i <= |acts|
      invariant acc == AbsByCategory(acts[..i])
    {
      var a := acts[i];
      if a.category !in acc || acc[a.category] == 0.0 {
        acc := acc[a.category := 0.0];
      }
      acc := acc[a.category := acc[a.category] + Abs(a.carbonImpact)];
      assert acts[..i + 1][..i] == acts[..i];
      i := i + 1;
    }
    assert acts[..|acts|] == acts;
  }

  // ---------------------------------------------------------------------
  // Next achievement.

  /**
   * `gt('carbon_required', current).order('carbon_required').limit(1)`:
   * the first achievement with the smallest threshold above current, or
   * None when no threshold is above current.
   */
  function NextAchievement(achs: seq<Achievement>, current: real): (r: Option<Achievement>)
    ensures r.Some? ==> r.value in achs && r.value.carbonRequired > current
    ensures r.Some? ==> forall b :: b in achs && b.carbonRequired > current ==> r.value.carbonRequired <= b.carbonRequired
    ensures r.None? <==> forall b :: b in achs ==> b.carbonRequired <= current
  {
    if |achs| == 0 then None
    else
      var rest := NextAchievement(achs[1..], current);
      assert achs == [achs[0]] + achs[1..];
      if achs[0].carbonRequired > current && (rest.None? || achs[0].carbonRequired <= rest.value.carbonRequired)
      then Some(achs[0])
      else rest
  }

  // ---------------------------------------------------------------------
  // addActivity.

  /**
   * The effect and result of `addActivity`: reject an empty user id; look the
   * profile up and create it (total 0, level 1) when the lookup fails; insert
   * the activity; add |carbon_impact| to the total when the impact is negative.
   */
  function AddActivitySpec(s: State, uid: UserId, act: NewActivity, faults: set<Call>, now: int)
    : (State, Result<Activity, ServiceError>)
  {
    if uid == "" then (s, Failure(MissingUserId))
    else
      var found := Fallible(ReadProfile, faults, s.FindProfile(uid));
      var ensured := if found.Success? then Success(s)
                     else Fallible(CreateProfile, faults, s.CreateProfile(uid, now));
      if ensured.Failure? then (s, Failure(StoreError(ensured.error)))
      else
        var s1 := ensured.value;
        var inserted := Fallible(WriteActivity, faults, s1.AppendActivity(uid, act, now));
        if inserted.Failure? then (s1, Failure(StoreError(inserted.error)))
        else
          var s2 := inserted.value;
          var row := s1.NewRow(uid, act, now);
          if act.carbonImpact < 0.0 then
            if AddToTotal in faults then (s2, Failure(StoreError(Unavailable)))
            else (s2.AddSaved(uid, Abs(act.carbonImpact)), Success(row))
          else (s2, Success(row))
  }

  method AddActivity(store: Store, uid: UserId, act: NewActivity, faults: set<Call>, now: int)
    returns (r: Result<Activity, ServiceError>)
    modifies store
    ensures (store.Snapshot(), r) == AddActivitySpec(old(store.Snapshot()), uid, act, faults, now)
  {
    if uid == "" {
      return Failure(MissingUserId);
    }
    var found := Fallible(ReadProfile, faults, store.Snapshot().FindProfile(uid));
    if found.Failure? {
      if CreateProfile in faults {
        return Failure(StoreError(Unavailable));
      }
      var err := store.InsertProfile(uid, now);
      if err.Some? {
        return Failure(StoreError(err.value));
      }
    }
    if WriteActivity in faults {
      return Failure(StoreError(Unavailable));
    }
    var inserted := store.InsertActivity(uid, act, now);
    if inserted.Failure? {
      return Failure(StoreError(inserted.error));
    }
    if act.carbonImpact < 0.0 {
      if AddToTotal in faults {
        return Failure(StoreError(Unavailable));
      }
      store.Increment(uid, Abs(act.carbonImpact));
    }
    r := Success(inserted.value);
  }

  /** An empty user id is rejected before the store is touched. */
  lemma AddActivityRejectsEmptyUser(s: State, act: NewActivity, faults: set<Call>, now: int)
    ensures AddActivitySpec(s, "", act, faults, now) == (s, Failure(MissingUserId))
  {
  }

  /**
   * Whatever fails, `addActivity` writes only the user's own profile and the
   * activity log: no other user's profile and no unlock row changes, and
   * the catalogue stays.
   */
  lemma AddActivityFrame(s: State, uid: UserId, act: NewActivity, faults: set<Call>, now: int)
    ensures var (t, _) := AddActivitySpec(s, uid, act, faults, now);
      && t.profiles.Keys <= s.profiles.Keys + {uid}
      && (forall u :: u in s.profiles && u != uid ==> t.profiles[u] == s.profiles[u])
      && t.unlocks == s.unlocks && t.achievements == s.achievements
  {
  }

  /**
   * What a successful `addActivity` did: the user now has a profile (a
   * missing one was created with total 0 and level 1), the activity was
   * appended as the last row, and the total grew by |impact| exactly when the
   * impact was negative; the level is never touched. Whatever fails, no
   * other user's profile and no unlock row changes.
   */
  lemma AddActivityOutcome(s: State, uid: UserId, act: NewActivity, faults: set<Call>, now: int)
    requires s.Valid()
    ensures var (t, r) := AddActivitySpec(s, uid, act, faults, now);
      && t.Valid() && s.ExtendsTo(t)
      && t.profiles.Keys <= s.profiles.Keys + {uid}
      && (forall u :: u in s.profiles && u != uid ==> t.profiles[u] == s.profiles[u])
      && t.unlocks == s.unlocks
      && (r.Success? ==>
           && uid != "" && uid in t.profiles
           && t.activities == s.activities + [r.value]
           && r.value == Activity(|s.activities|, uid, act.category, act.activityType, act.value, act.carbonImpact, now)
           && (var before := if uid in s.profiles then s.profiles[uid] else s.NewProfile(uid, now);
               t.profiles[uid] == before.(totalCarbonSaved := before.totalCarbonSaved
                 + (if act.carbonImpact < 0.0 then -act.carbonImpact else 0.0))))
  {
    AddActivityFrame(s, uid, act, faults, now);
    var (t, r) := AddActivitySpec(s, uid, act, faults, now);
    if uid != "" {
      var found := Fallible(ReadProfile, faults, s.FindProfile(uid));
      var ensured := if found.Success? then Success(s)
                     else Fallible(CreateProfile, faults, s.CreateProfile(uid, now));
      if ensured.Success? {
        var s1 := ensured.value;
        if found.Failure? { CreateProfileKeepsValid(s, uid, now); }
        var inserted := Fallible(WriteActivity, faults, s1.AppendActivity(uid, act, now));
        if inserted.Success? {
          AppendActivityKeepsValid(s1, uid, act, now);
          var s2 := inserted.value;
          if act.carbonImpact < 0.0 && AddToTotal !in faults {
            AddSavedKeepsValid(s2, uid, Abs(act.carbonImpact));
          }
        }
      }
    }
  }

  /**
   * The accepted partial-failure window: when only the total update fails,
   * the activity stays recorded while the total does not move.
   */
  lemma AddActivityKeepsRowWhenTotalUpdateFails(s: State, uid: UserId, act: NewActivity, now: int)
    requires uid != "" && uid in s.profiles && act.carbonImpact < 0.0
    ensures var (t, r) := AddActivitySpec(s, uid, act, {AddToTotal}, now);
      && r == Failure(StoreError(Unavailable))
      && t.activities == s.activities + [s.NewRow(uid, act, now)]
      && t.profiles == s.profiles
  {
  }

  // ---------------------------------------------------------------------
  // fetchUserData.

  /** The figures of the existing profile p of user uid, as read from state s. */
  function ExistingData(s: State, uid: UserId, p: Profile, faults: set<Call>): UserData
  {
    var acts := s.ActivitiesOf(uid);
    Existing(
      p.id, p.username, p.totalCarbonSaved,
      if p.level == 0 then 1 else p.level,
      |s.UnlocksOf(uid)|,
      if ReadNextAchievement in faults then None else NextAchievement(s.achievements, p.totalCarbonSaved),
      Stats(|acts|, AbsByCategory(acts), Recent(acts)))
  }

  /**
   * The effect and result of `fetchUserData`: reject an empty user id; when
   * the profile lookup fails, create the profile and answer total 0, level 1,
   * user name "ecouser" and no achievements; otherwise read the profile with
   * its activities and unlock rows and derive the figures.
   */
  function FetchUserDataSpec(s: State, uid: UserId, faults: set<Call>, now: int)
    : (State, Result<UserData, ServiceError>)
  {
    if uid == "" then (s, Failure(MissingUserId))
    else if Fallible(ReadProfile, faults, s.FindProfile(uid)).Failure? then
      var created := Fallible(CreateProfile, faults, s.CreateProfile(uid, now));
      if created.Failure? then (s, Failure(StoreError(created.error)))
      else (created.value, Success(NewUser(Some("ecouser"), 0.0, 1, 0)))
    else
      var full := Fallible(ReadActivities, faults, s.FindProfile(uid));
      if full.Failure? then (s, Failure(StoreError(full.error)))
      else (s, Success(ExistingData(s, uid, full.value, faults)))
  }

  method FetchUserData(store: Store, uid: UserId, faults: set<Call>, now: int)
    returns (r: Result<UserData, ServiceError>)
    modifies store
    ensures (store.Snapshot(), r) == FetchUserDataSpec(old(store.Snapshot()), uid, faults, now)
  {
    if uid == "" {
      return Failure(MissingUserId);
    }
    var exists_ := Fallible(ReadProfile, faults, store.Snapshot().FindProfile(uid));
    if exists_.Failure? {
      if CreateProfile in faults {
        return Failure(StoreError(Unavailable));
      }
      var err := store.InsertProfile(uid, now);
      if err.Some? {
        return Failure(StoreError(err.value));
      }
      return Success(NewUser(Some("ecouser"), 0.0, 1, 0));
    }
    var s := store.Snapshot();
    var full := Fallible(ReadActivities, faults, s.FindProfile(uid));
    if full.Failure? {
      return Failure(StoreError(full.error));
    }
    var p := full.value;
    var acts := s.ActivitiesOf(uid);
    var byCategory := TallyByCategory(acts);
    var next := if ReadNextAchievement in faults then None else NextAchievement(s.achievements, p.totalCarbonSaved);
    r := Success(Existing(
      p.id, p.username, p.totalCarbonSaved,
      if p.level == 0 then 1 else p.level,
      |s.UnlocksOf(uid)|,
      next,
      Stats(|acts|, byCategory, Recent(acts))));
  }

  /**
   * A first fetch for a user without a profile creates it and answers
   * total 0, level 1 and no achievements; the store stays valid either way.
   */
  lemma FetchUserDataCreatesProfile(s: State, uid: UserId, now: int)
    requires s.Valid() && uid != "" && uid !in s.profiles
    ensures var (t, r) := FetchUserDataSpec(s, uid, {}, now);
      && r == Success(NewUser(Some("ecouser"), 0.0, 1, 0))
      && t.Valid() && s.ExtendsTo(t)
      && t.profiles == s.profiles[uid := Profile(uid, None, 0.0, 1, now)]
  {
    CreateProfileKeepsValid(s, uid, now);
  }

  /**
   * Whatever fails, a fetch keeps the store valid and only grows it: at most
   * the missing profile is created, and nothing else is written.
   */
  lemma FetchUserDataKeepsValid(s: State, uid: UserId, faults: set<Call>, now: int)
    requires s.Valid()
    ensures var (t, _) := FetchUserDataSpec(s, uid, faults, now);
      && t.Valid() && s.ExtendsTo(t)
      && t.activities == s.activities && t.unlocks == s.unlocks
      && (forall u :: u in s.profiles ==> t.profiles[u] == s.profiles[u])
      && (t == s || (uid !in s.profiles && t.profiles == s.profiles[uid := s.NewProfile(uid, now)]))
  {
    if uid != "" && Fallible(ReadProfile, faults, s.FindProfile(uid)).Failure?
       && CreateProfile !in faults && uid !in s.profiles {
      CreateProfileKeepsValid(s, uid, now);
    }
  }

  /**
   * For an existing profile the figures count the user's activities and
   * unlock rows, tally |impact| per occurring category, list the five
   * latest activities (all of them when fewer), latest first, and name the cheapest achievement above the
   * current total; the store is left as it was.
   */
  lemma FetchUserDataOfExisting(s: State, uid: UserId, now: int)
    requires uid != "" && uid in s.profiles
    ensures var (t, r) := FetchUserDataSpec(s, uid, {}, now);
      && t == s && r.Success? && r.value.Existing?
      && var d := r.value;
      && d.stats.totalActivities == |s.ActivitiesOf(uid)|
      && d.achievements == |s.UnlocksOf(uid)|
      && (forall c :: c in d.stats.carbonByCategory <==> exists a :: a in s.activities && a.userId == uid && a.category == c)
      && (forall c :: c in d.stats.carbonByCategory ==> d.stats.carbonByCategory[c] == AbsSum(s.ActivitiesOf(uid), c) >= 0.0)
      && d.stats.recentActivities == Recent(s.ActivitiesOf(uid))
      && |d.stats.recentActivities| <= 5
      && d.nextAchievement == NextAchievement(s.achievements, s.profiles[uid].totalCarbonSaved)
      && (d.nextAchievement.None? <==> forall b :: b in s.achievements ==> b.carbonRequired <= s.profiles[uid].totalCarbonSaved)
  {
    var acts := s.ActivitiesOf(uid);
    forall c ensures c in AbsByCategory(acts) <==> exists a :: a in s.activities && a.userId == uid && a.category == c {
      AbsByCategoryMeaning(acts, c);
    }
    forall c | c in AbsByCategory(acts) ensures AbsByCategory(acts)[c] == AbsSum(acts, c) >= 0.0 {
      AbsByCategoryMeaning(acts, c);
    }
    RecentMeaning(acts);
  }

  /** A profile with no activities yields an empty tally and no recent list. */
  lemma FetchUserDataWithoutActivities(s: State, uid: UserId, now: int)
    requires uid != "" && uid in s.profiles && s.ActivitiesOf(uid) == []
    ensures var (_, r) := FetchUserDataSpec(s, uid, {}, now);
      r.Success? && r.value.Existing?
      && r.value.stats == Stats(0, map[], [])
  {
    assert NewestFirst([]) == [];
  }
}
