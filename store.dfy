/**
 * The backing store: the profiles, activities, achievements and
 * user_achievements tables, held in memory. `State` is the value of the
 * store at one moment and carries the effect of each primitive store call
 * (single-row lookup, insert, the `increment` procedure, update); `Store`
 * is the mutable store the services are handed, whose methods perform
 * those calls in place.
 */
module Db {
  import opened Wrappers
  import opened Records

  /** Errors the store reports. */
  datatype DbError =
    | NoRows        // `.single()` found no row
    | DuplicateKey  // a primary-key or uniqueness constraint was violated
    | ForeignKey    // a referenced profile or achievement does not exist
    | Unavailable   // any failure outside the model (network, permissions, ...)

  /**
   * The kinds of store call the operations make. Each operation takes a set
   * of these: a call whose kind is in the set fails with `Unavailable` and
   * changes nothing.
   */
  datatype Call =
    | ReadProfile | CreateProfile | WriteActivity | AddToTotal
    | ReadQualifying | WriteUnlocks | WriteLevel
    | ReadActivities | ReadUnlocks | ReadNextAchievement | ReadCatalogue

  /** No two rows share the same (user, achievement) pair. */
  predicate PairsDistinct(rows: seq<UserAchievement>)
  {
    forall i, j :: 0 <= i < j < |rows| ==>
      rows[i].userId != rows[j].userId || rows[i].achievementId != rows[j].achievementId
  }

  /** No two achievements share an id. */
  predicate IdsDistinct(achs: seq<Achievement>)
  {
    forall i, j :: 0 <= i < j < |achs| ==> achs[i].id != achs[j].id
  }

  datatype State = State(
    profiles: map<UserId, Profile>,
    activities: seq<Activity>,
    achievements: seq<Achievement>,
    unlocks: seq<UserAchievement>)
  {
    function AchievementIds(): set<AchievementId>
    {
      set a | a in achievements :: a.id
    }

    /**
     * An unlock row is earned when its user and achievement exist and the
     * user's accumulated savings reach the achievement's threshold.
     */
    predicate Earned(r: UserAchievement)
    {
      && r.userId in profiles
      && r.achievementId in AchievementIds()
      && forall k :: 0 <= k < |achievements| && achievements[k].id == r.achievementId ==>
           achievements[k].carbonRequired <= profiles[r.userId].totalCarbonSaved
    }

    /** The invariant of the data model. */
    predicate Valid()
    {
      && (forall u :: u in profiles ==>
            profiles[u].id == u && profiles[u].totalCarbonSaved >= 0.0 && 1 <= profiles[u].level <= 10)
      && (forall i :: 0 <= i < |activities| ==> activities[i].id == i && activities[i].userId in profiles)
      && IdsDistinct(achievements)
      && (forall k :: 0 <= k < |achievements| ==> achievements[k].carbonRequired >= 0.0)
      && PairsDistinct(unlocks)
      && (forall i :: 0 <= i < |unlocks| ==> Earned(unlocks[i]))
    }

    /**
     * t is a later state of this one: the achievement catalogue is the same,
     * activities and unlock rows were only appended, no profile disappeared
     * and no accumulated total decreased.
     */
    predicate ExtendsTo(t: State)
    {
      && t.achievements == achievements
      && activities <= t.activities
      && unlocks <= t.unlocks
      && profiles.Keys <= t.profiles.Keys
      && forall u :: u in profiles ==> profiles[u].totalCarbonSaved <= t.profiles[u].totalCarbonSaved
    }

    /** `select ... eq('id', uid).single()` on profiles. */
    function FindProfile(uid: UserId): Result<Profile, DbError>
    {
      if uid in profiles then Success(profiles[uid]) else Failure(NoRows)
    }

    /** The row a profile insert with total 0 and level 1 creates. */
    function NewProfile(uid: UserId, now: int): Profile
    {
      Profile(uid, None, 0.0, 1, now)
    }

    function CreateProfile(uid: UserId, now: int): Result<State, DbError>
    {
      if uid in profiles then Failure(DuplicateKey)
      else Success(this.(profiles := profiles[uid := NewProfile(uid, now)]))
    }

    /** The row an activity insert creates: the next id and the current time. */
    function NewRow(uid: UserId, a: NewActivity, now: int): Activity
    {
      Activity(|activities|, uid, a.category, a.activityType, a.value, a.carbonImpact, now)
    }

    /** Activity insert; user_id references profiles. */
    function AppendActivity(uid: UserId, a: NewActivity, now: int): Result<State, DbError>
    {
      if uid !in profiles then Failure(ForeignKey)
      else Success(this.(activities := activities + [NewRow(uid, a, now)]))
    }

    /** The `increment` procedure on total_carbon_saved; no row, no change. */
    function AddSaved(uid: UserId, x: real): State
    {
      if uid in profiles then
        this.(profiles := profiles[uid := profiles[uid].(totalCarbonSaved := profiles[uid].totalCarbonSaved + x)])
      else this
    }

    function SetLevel(uid: UserId, level: int): State
    {
      if uid in profiles then this.(profiles := profiles[uid := profiles[uid].(level := level)])
      else this
    }

    /** One batch insert into user_achievements: all rows or none. */
    function AddUnlocks(rows: seq<UserAchievement>): Result<State, DbError>
    {
      if !PairsDistinct(unlocks + rows) then Failure(DuplicateKey)
      else if exists i :: 0 <= i < |rows| && (rows[i].userId !in profiles || rows[i].achievementId !in AchievementIds())
      then Failure(ForeignKey)
      else Success(this.(unlocks := unlocks + rows))
    }

    /** `select * from activities where user_id = uid`, in insertion order. */
    function ActivitiesOf(uid: UserId): (r: seq<Activity>)
      ensures forall a :: a in r <==> a in activities && a.userId == uid
      ensures forall a :: multiset(r)[a] == if a.userId == uid then multiset(activities)[a] else 0
    {
      ActivitiesFor(activities, uid)
    }

    function UnlocksOf(uid: UserId): (r: seq<UserAchievement>)
      ensures forall x :: x in r <==> x in unlocks && x.userId == uid
      ensures forall x :: multiset(r)[x] == if x.userId == uid then multiset(unlocks)[x] else 0
    {
      UnlocksFor(unlocks, uid)
    }

    /** The achievement ids a user has already unlocked. */
    function UnlockedIds(uid: UserId): set<AchievementId>
    {
      set x | x in unlocks && x.userId == uid :: x.achievementId
    }
  }

  /**
   * The rows of one user, in their order: each of that user's rows occurs as
   * often as in the table, and no other row occurs.
   */
  function ActivitiesFor(acts: seq<Activity>, uid: UserId): (r: seq<Activity>)
    ensures forall a :: a in r <==> a in acts && a.userId == uid
    ensures forall a :: multiset(r)[a] == if a.userId == uid then multiset(acts)[a] else 0
    ensures |r| <= |acts|
  {
    if |acts| == 0 then []
    else
      var rest := ActivitiesFor(acts[..|acts| - 1], uid);
      assert acts == acts[..|acts| - 1] + [acts[|acts| - 1]];
      if acts[|acts| - 1].userId == uid then rest + [acts[|acts| - 1]] else rest
  }

  function UnlocksFor(rows: seq<UserAchievement>, uid: UserId): (r: seq<UserAchievement>)
    ensures forall x :: x in r <==> x in rows && x.userId == uid
    ensures forall x :: multiset(r)[x] == if x.userId == uid then multiset(rows)[x] else 0
  {
    if |rows| == 0 then []
    else
      var rest := UnlocksFor(rows[..|rows| - 1], uid);
      assert rows == rows[..|rows| - 1] + [rows[|rows| - 1]];
      if rows[|rows| - 1].userId == uid then rest + [rows[|rows| - 1]] else rest
  }

  /** The result of a store call, or `Unavailable` when calls of kind c fail. */
  function Fallible<T>(c: Call, faults: set<Call>, r: Result<T, DbError>): Result<T, DbError>
  {
    if c in faults then Failure(Unavailable) else r
  }

  /** Creating a missing profile keeps the invariant and only adds. */
  lemma CreateProfileKeepsValid(s: State, uid: UserId, now: int)
    requires s.Valid() && s.CreateProfile(uid, now).Success?
    ensures s.CreateProfile(uid, now).value.Valid()
    ensures s.ExtendsTo(s.CreateProfile(uid, now).value)
  {
    var t := s.CreateProfile(uid, now).value;
    forall i | 0 <= i < |t.unlocks| ensures t.Earned(t.unlocks[i]) {
      assert s.Earned(s.unlocks[i]);
    }
  }

  /** Appending an activity keeps the invariant and only adds. */
  lemma AppendActivityKeepsValid(s: State, uid: UserId, a: NewActivity, now: int)
    requires s.Valid() && s.AppendActivity(uid, a, now).Success?
    ensures s.AppendActivity(uid, a, now).value.Valid()
    ensures s.ExtendsTo(s.AppendActivity(uid, a, now).value)
  {
    var t := s.AppendActivity(uid, a, now).value;
    forall i | 0 <= i < |t.unlocks| ensures t.Earned(t.unlocks[i]) {
      assert s.Earned(s.unlocks[i]);
    }
  }

  /** Adding a non-negative saving keeps the invariant and never lowers a total. */
  lemma AddSavedKeepsValid(s: State, uid: UserId, x: real)
    requires s.Valid() && x >= 0.0
    ensures s.AddSaved(uid, x).Valid()
    ensures s.ExtendsTo(s.AddSaved(uid, x))
  {
    var t := s.AddSaved(uid, x);
    forall i | 0 <= i < |t.unlocks| ensures t.Earned(t.unlocks[i]) {
      assert s.Earned(s.unlocks[i]);
    }
  }

  /** Writing a level in 1..10 keeps the invariant and changes no total. */
  lemma SetLevelKeepsValid(s: State, uid: UserId, level: int)
    requires s.Valid() && 1 <= level <= 10
    ensures s.SetLevel(uid, level).Valid()
    ensures s.ExtendsTo(s.SetLevel(uid, level))
  {
    var t := s.SetLevel(uid, level);
    forall i | 0 <= i < |t.unlocks| ensures t.Earned(t.unlocks[i]) {
      assert s.Earned(s.unlocks[i]);
    }
  }

  /** Inserting earned, non-duplicate unlock rows keeps the invariant. */
  lemma AddUnlocksKeepsValid(s: State, rows: seq<UserAchievement>)
    requires s.Valid() && s.AddUnlocks(rows).Success?
    requires forall i :: 0 <= i < |rows| ==> s.Earned(rows[i])
    ensures s.AddUnlocks(rows).value.Valid()
    ensures s.ExtendsTo(s.AddUnlocks(rows).value)
  {
    var t := s.AddUnlocks(rows).value;
    forall i | 0 <= i < |t.unlocks| ensures t.Earned(t.unlocks[i]) {
      if i < |s.unlocks| {
        assert s.Earned(s.unlocks[i]);
      } else {
        assert t.unlocks[i] == rows[i - |s.unlocks|];
      }
    }
  }

  /** Later-state is transitive, so a pipeline of extending steps extends. */
  lemma ExtendsTransitive(s: State, t: State, u: State)
    requires s.ExtendsTo(t) && t.ExtendsTo(u)
    ensures s.ExtendsTo(u)
  {
  }

  /** The store, updated in place by the services it is handed to. */
  class Store {
    var profiles: map<UserId, Profile>
    var activities: seq<Activity>
    var achievements: seq<Achievement>
    var unlocks: seq<UserAchievement>

    function Snapshot(): State
      reads this
    {
      State(profiles, activities, achievements, unlocks)
    }

    /**
     * An empty store over a fixed achievement catalogue whose ids are unique
     * and whose thresholds are non-negative; it satisfies the invariant.
     */
    constructor (catalogue: seq<Achievement>)
      requires IdsDistinct(catalogue)
      requires forall k :: 0 <= k < |catalogue| ==> catalogue[k].carbonRequired >= 0.0
      ensures Snapshot() == State(map[], [], catalogue, [])
      ensures Snapshot().Valid()
    {
      profiles, activities, achievements, unlocks := map[], [], catalogue, [];
    }

    method InsertProfile(uid: UserId, now: int) returns (err: Option<DbError>)
      modifies this
      ensures var r := old(Snapshot()).CreateProfile(uid, now);
        if r.Success? then err == None && Snapshot() == r.value
        else err == Some(r.error) && Snapshot() == old(Snapshot())
    {
      if uid in profiles {
        err := Some(DuplicateKey);
      } else {
        profiles := profiles[uid := Profile(uid, None, 0.0, 1, now)];
        err := None;
      }
    }

    method InsertActivity(uid: UserId, a: NewActivity, now: int) returns (r: Result<Activity, DbError>)
      modifies this
      ensures var t := old(Snapshot()).AppendActivity(uid, a, now);
        if t.Success? then r == Success(old(Snapshot()).NewRow(uid, a, now)) && Snapshot() == t.value
        else r == Failure(t.error) && Snapshot() == old(Snapshot())
    {
      if uid !in profiles {
        r := Failure(ForeignKey);
      } else {
        var row := Activity(|activities|, uid, a.category, a.activityType, a.value, a.carbonImpact, now);
        activities := activities + [row];
        r := Success(row);
      }
    }

    method Increment(uid: UserId, x: real)
      modifies this
      ensures Snapshot() == old(Snapshot()).AddSaved(uid, x)
    {
      if uid in profiles {
        var p := profiles[uid];
        profiles := profiles[uid := p.(totalCarbonSaved := p.totalCarbonSaved + x)];
      }
    }

    method UpdateLevel(uid: UserId, level: int)
      modifies this
      ensures Snapshot() == old(Snapshot()).SetLevel(uid, level)
    {
      if uid in profiles {
        profiles := profiles[uid := profiles[uid].(level := level)];
      }
    }

    method InsertUnlocks(rows: seq<UserAchievement>) returns (err: Option<DbError>)
      modifies this
      ensures var t := old(Snapshot()).AddUnlocks(rows);
        if t.Success? then err == None && Snapshot() == t.value
        else err == Some(t.error) && Snapshot() == old(Snapshot())
    {
      var t := Snapshot().AddUnlocks(rows);
      if t.Success? {
        unlocks := unlocks + rows;
        err := None;
      } else {
        err := Some(t.error);
      }
    }
  }
}
