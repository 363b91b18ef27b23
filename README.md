# EcoStep carbon accounting, modelled in Dafny

EcoStep is a carbon-footprint tracker. A user records transport, waste, diet
and energy activities. Each activity gets a signed carbon impact: a negative
impact is carbon saved. Savings accumulate in the profile's
`total_carbon_saved`. When a saving arrives through the HTTP server,
achievements whose threshold the total has reached are unlocked in one batch,
and the level is recomputed from the total. The pages derive read-only
figures: a per-category share, progress towards each achievement, and
everyday equivalents of the saved carbon.

This project models that core and proves what it promises:

- **Emissions** (`emissions.dfy`): the four emission-factor tables and `factor × quantity`.
- **Db** (`store.dfy`): the database.
  - `Db.State` is a value holding profiles, activities, the achievement catalogue and the unlock rows.
  - It carries an invariant `Valid`. No (user, achievement) pair is duplicated, and every unlock is earned.
  - It carries a growth relation `ExtendsTo`. Logs only grow and totals never fall.
  - `Db.Store` is a class whose fields the operations update in place. Each method's new state is stated as a function of the old one.
  - A set of failing calls (`faults`) stands for store errors: a failing call changes nothing.
- **UserService** (`userservice.dfy`): the client service.
  - `addActivity`.
  - `fetchUserData`, with its per-category tally of absolute impacts written as a loop, and `getNextAchievement`.
- **Server** (`server.dfy`): the Express server.
  - POST `/api/activities` with its guard and conditional accounting.
  - `checkAchievements`, with its qualifying set, batch insert and level formula.
  - GET summary, with its signed tally loop.
- **Category pages** (`transport.dfy`, `waste.dfy`, `diet.dfy`, `energy.dfy`): each form is a class with the page's state fields and handlers. Each `Submit` is tied to `addActivity`. `Forms` (`forms.dfy`) holds what the pages share.
- **Read-side pages** (`achievements_page.dfy`, `dashboard.dfy`, `profile.dfy`, `register.dfy`): the achievements page (unlock map loop and progress), the dashboard percentages, the profile equivalents and the registration checks.
- **Scenarios** (`scenarios.dfy`): worked examples over a concrete store.
- **Support** (`ordering.dfy`, `records.dfy`, `wrappers.dfy`): sorting by a key and "latest five", the record shapes, and Option/Result.

Where the code does less than one might expect, the model follows the code:

- **No value or type check in POST.** The server only checks that fields are present. It does not check `value > 0` or that the activity type is known, so a value of 0 and an unknown type are accepted.
- **Level on the client path.** The client path (`addActivity`) never runs the achievement check and never touches the level.
- **Level after a check.** On the server the level is rewritten only when something was newly unlocked, so it can stay behind the total (`Scenarios.LevelLagsBehindTotal`).
- **Failed batch insert.** When the batch insert of unlock rows fails, `checkAchievements` unlocks nothing and answers `[]`. It does not fall back to inserting only the missing rows.
- **Activity of an unknown user.** An activity row references its profile, so posting for a user without a profile answers 500.

## Model

| member | source | states |
|---|---|---|
| Records.ParseCategory | src/lib/database.types.ts:16 | a string parses exactly when it names one of the four enum categories, and then to that category |
| Emissions.TransportFactor | src/services/userService.ts:219-228 | transport factors lie in 0..0.15; an unknown type gets 0 |
| Emissions.WasteFactor | src/services/userService.ts:233-240 | waste factors lie in 0..2.5 and reach 2.5 only for general waste; an unknown type gets 0 |
| Emissions.DietFactor | src/services/userService.ts:245-252 | diet factors lie in 0..3 and reach 3 only for meat; an unknown type gets 0 |
| Emissions.EnergyFactor | src/services/userService.ts:257-263 | energy factors lie in 0..0.5 and reach 0.5 only for fossil; an unknown type gets 0 |
| Emissions.TransportEmissions | src/services/userService.ts:218-230 | the emission is non-negative for a non-negative distance, 0 for bike, walk and unknown types, and 0.12 per km by car |
| Emissions.WasteEmissions | src/services/userService.ts:232-242 | the emission lies between 0 and the general-waste emission; unknown types emit 0 |
| Emissions.DietEmissions | src/services/userService.ts:244-254 | the emission lies between 0 and the meat emission; unknown types emit 0 |
| Emissions.EnergyEmissions | src/services/userService.ts:256-265 | the emission lies between 0 and the fossil emission; "saved" has no table entry and emits 0 |
| Emissions.EmissionsLinear | src/services/userService.ts:218-265 | every emission is additive and homogeneous in the quantity |
| Emissions.SubstitutesEmitNoMoreThanBaseline | src/services/userService.ts:218-265 | no type emits more than its category's baseline (car, general, meat, fossil) |
| Ordering.InsertBy | src/services/userService.ts:86 | inserting into a sorted list keeps it sorted and adds exactly the element |
| Ordering.SortBy | src/services/userService.ts:86 | the result is sorted by the key and is a permutation of the input |
| Ordering.SortedPrefix | src/services/userService.ts:85-87 | a prefix of a sorted list is sorted |
| Ordering.RecentMeaning | src/services/userService.ts:85-87 | the recent list has min(5, n) entries, latest first, and is a prefix of the full latest-first order, which is a permutation of the activities |
| Db.State.ActivitiesOf | server/index.js:43-47 | exactly the stored activities of the user, each as often as it is stored, so its length is the user's row count |
| Db.State.UnlocksOf | server/index.js:54-57 | exactly the stored unlock rows of the user, each as often as it is stored, so its length is the user's unlock count |
| Db.CreateProfileKeepsValid | src/services/userService.ts:164-170 | creating a missing profile with total 0 and level 1 keeps the invariant and only grows the store |
| Db.AppendActivityKeepsValid | server/index.js:104-114 | appending an activity of an existing user keeps the invariant and only grows the store |
| Db.AddSavedKeepsValid | server/index.js:124-128 | adding a non-negative amount to a total keeps the invariant and only grows the store |
| Db.SetLevelKeepsValid | server/index.js:191-196 | writing a level in 1..10 keeps the invariant and only grows the store |
| Db.AddUnlocksKeepsValid | server/index.js:176-183 | inserting earned rows keeps the invariant, with no pair duplicated |
| Db.ExtendsTransitive | server/index.js:104-136 | growth of the store composes across steps |
| Db.Store.constructor | src/lib/database.types.ts:12-119 | a new store holds only the catalogue and, for a catalogue of unique ids and non-negative thresholds, satisfies the invariant |
| Db.Store.InsertProfile | src/services/userService.ts:164-174 | the profile insert changes the store exactly as the state function says, failing on a duplicate id |
| Db.Store.InsertActivity | server/index.js:104-118 | the activity insert appends the row, failing for a user without profile |
| Db.Store.Increment | server/index.js:124-128 | the increment procedure adds the amount to the user's total and nothing else |
| Db.Store.UpdateLevel | server/index.js:193-196 | the level update rewrites only the user's level |
| Db.Store.InsertUnlocks | server/index.js:181-187 | the batch insert adds all rows or none |
| UserService.AbsByCategoryMeaning | src/services/userService.ts:62-69 | a category is a key exactly when one of the activities has it; its value is the sum of absolute impacts and is non-negative |
| UserService.TallyByCategory | src/services/userService.ts:63-69 | the accumulator loop computes the per-category absolute tally |
| UserService.NextAchievement | src/services/userService.ts:96-115 | the result lies strictly above the total and is the cheapest such achievement; there is none exactly when every threshold is at or below the total |
| UserService.AddActivity | src/services/userService.ts:144-216 | the store and the answer are those of the specified pipeline: check id, get or create the profile, insert, add the saving |
| UserService.AddActivityRejectsEmptyUser | src/services/userService.ts:150-152 | an empty user id fails before the store is touched |
| UserService.AddActivityFrame | src/services/userService.ts:144-216 | whatever fails, only the user's own profile (possibly created) and the activity log change; no other profile, no unlock row and not the catalogue |
| UserService.AddActivityOutcome | src/services/userService.ts:155-211 | on success the profile exists (created with total 0 and level 1 if missing), the row is appended last with the given fields, and the total grows by the absolute impact exactly when the impact is negative; the level is untouched; whatever fails, no other user's profile and no unlock row changes, and the store stays valid and only grows |
| UserService.AddActivityKeepsRowWhenTotalUpdateFails | src/services/userService.ts:178-208 | when only the total update fails, the row stays recorded and no total changes |
| UserService.FetchUserData | src/services/userService.ts:3-94 | the store and answer are those of the specified fetch, with the tally computed by the loop |
| UserService.FetchUserDataKeepsValid | src/services/userService.ts:3-94 | under any failures the fetch keeps the store valid, writes at most the missing profile with total 0 and level 1, and leaves every existing profile, activity and unlock row as it was |
| UserService.FetchUserDataCreatesProfile | src/services/userService.ts:16-37 | a first fetch creates the profile and answers total 0, level 1, name "ecouser", no achievements |
| UserService.FetchUserDataOfExisting | src/services/userService.ts:40-89 | an existing profile yields its activity and unlock counts, the absolute tally over occurring categories, its five latest activities latest first, and the cheapest achievement above the total, none exactly when none lies above it |
| UserService.FetchUserDataWithoutActivities | src/services/userService.ts:62-87 | no activities yield a count of 0, an empty tally and an empty recent list |
| Server.LevelFor | server/index.js:191 | the level of a non-negative total lies in 1..10 |
| Server.LevelMonotone | server/index.js:191 | the level never falls as the total grows |
| Server.LevelExamples | server/index.js:191 | level(0)=1, level(99.9)=1, level(100)=2, level(350)=4, level(999)=10, level(5000)=10 |
| Server.Qualifying | server/index.js:160-168 | an achievement qualifies exactly when its threshold is reached and it is not unlocked; distinct ids stay distinct |
| Server.NothingQualifies | server/index.js:160-168 | once every reached threshold is unlocked, nothing qualifies |
| Server.UnlockRows | server/index.js:176-179 | one row per qualifying achievement, for the user |
| Server.CheckAchievements | server/index.js:146-209 | the store and answer are those of the specified check |
| Server.QualifyingRowsInsertable | server/index.js:175-187 | the batch for the qualifying set never duplicates a pair and never breaks a reference |
| Server.CheckAchievementsOutcome | server/index.js:146-209 | without failures, exactly the qualifying set is unlocked in one batch and returned; the level becomes the formula's value only when something was unlocked; totals, activities and other profiles are untouched; the store stays valid |
| Server.CheckAchievementsIdempotent | server/index.js:160-168 | a second check right after a successful one unlocks nothing and changes nothing, even with failures |
| Server.CheckAchievementsEffect | server/index.js:146-209 | whatever fails inside it, the check changes nothing but the user's level (to the formula's value) and the unlock rows, which stay or grow by exactly the qualifying batch; it answers [] or that batch |
| Server.CheckKeepsValid | server/index.js:146-209 | whatever fails inside it, the check keeps the store valid and every total unchanged |
| Server.PostActivity | server/index.js:95-143 | the store and response are those of the specified route |
| Server.PostRejectsExactlyMissingFields | server/index.js:99-101 | 400 exactly when a field is missing, and then nothing is written |
| Server.PostActivityOutcome | server/index.js:103-138 | a 201 appends the activity; a non-negative impact changes no profile and unlocks nothing; a negative one raises the total by its absolute value, leaves every other profile as it was, may rewrite the user's level only to the formula's value, and adds no unlock rows or exactly the batch the new total qualifies for; the store stays valid and only grows |
| Server.PostSucceedsDespiteCheckFailure | server/index.js:134-138 | failures inside the achievement check never cost the 201 |
| Server.SignedByCategoryMeaning | server/index.js:65-71 | a category is a key exactly when an activity has it, and its value is the signed sum |
| Server.TallySignedByCategory | server/index.js:65-71 | the accumulator loop computes the signed tally |
| Server.FindAchievement | server/index.js:56 | the joined achievement has the row's id; none exactly when no achievement has it |
| Server.Joined | server/index.js:83-86 | one entry per unlock row, with the row's time and its joined achievement |
| Server.GetSummary | server/index.js:27-92 | the response is that of the specified route, with the tally computed by the loop |
| Server.SummaryFailsExactly | server/index.js:32-61 | 500 exactly when the profile is missing or one of the three reads fails |
| Server.SummaryShape | server/index.js:63-87 | a 200 carries the profile, the activity and unlock counts, the signed tally over occurring categories, and the five latest activities |
| Forms.SavedTotal | src/pages/Dashboard.tsx:42 | the saved total the dashboard and the profile page (src/pages/Profile.tsx:75) show, 0 without data |
| Forms.LoadPageData | src/pages/Dashboard.tsx:14-29 | a page's data is what `fetchUserData` returns, or none without user or on failure |
| TransportPage.SubmittedImpactSign | src/pages/categories/Transport.tsx:58-68 | bike and walk submit minus 0.12 per km (the preview shows 0); every other mode submits its own non-negative emission |
| TransportPage.BikeTenKilometres | src/pages/categories/Transport.tsx:63-68 | a 10 km ride submits -1.2 |
| TransportPage.TransportForm.constructor | src/pages/categories/Transport.tsx:17-21 | the form starts with no mode, distance 0 and no preview |
| TransportPage.TransportForm.SelectType | src/pages/categories/Transport.tsx:24-32 | the preview is recomputed only when a distance is set |
| TransportPage.TransportForm.ChangeDistance | src/pages/categories/Transport.tsx:34-43 | the preview is recomputed only when a mode is chosen |
| TransportPage.TransportForm.Submit | src/pages/categories/Transport.tsx:49-90 | no-op unless mode, positive distance and user; otherwise sends the substituted impact through `addActivity` and resets the form only on success |
| WastePage.SubmittedImpactSign | src/pages/categories/Waste.tsx:58-68 | general waste submits 2.5 per kg; every other type submits its shortfall from general waste, negative for a positive weight |
| WastePage.WasteForm.constructor | src/pages/categories/Waste.tsx:15-19 | the form starts with no type, weight 0 and no preview |
| WastePage.WasteForm.SelectType | src/pages/categories/Waste.tsx:22-30 | the preview is the raw emission, recomputed only when a weight is set |
| WastePage.WasteForm.ChangeWeight | src/pages/categories/Waste.tsx:32-41 | the preview is recomputed only when a type is chosen |
| WastePage.WasteForm.Submit | src/pages/categories/Waste.tsx:47-90 | no-op unless type, positive weight and user; otherwise sends the difference from general waste and resets only on success |
| DietPage.SubmittedImpactSign | src/pages/categories/Diet.tsx:58-68 | meat submits 3 per meal; every other diet submits its shortfall from meat, negative for a positive meal count |
| DietPage.DietForm.constructor | src/pages/categories/Diet.tsx:15-19 | the form starts with no diet, one meal and no preview |
| DietPage.DietForm.SelectType | src/pages/categories/Diet.tsx:22-30 | the preview is the raw emission, recomputed only when the meal count is positive |
| DietPage.DietForm.ChangeMeals | src/pages/categories/Diet.tsx:32-41 | the preview is recomputed only when a diet is chosen |
| DietPage.DietForm.Submit | src/pages/categories/Diet.tsx:47-90 | no-op unless diet, positive meals and user; otherwise sends the difference from meat and resets to one meal only on success |
| EnergyPage.EnergyImpactSign | src/pages/categories/Energy.tsx:43-49 | "saved" yields minus 0.5 per unit and is the only negative impact; fossil, mixed and renewable yield their non-negative emission |
| EnergyPage.EnergyForm.constructor | src/pages/categories/Energy.tsx:15-19 | the form starts with no source, amount 0 and no preview |
| EnergyPage.EnergyForm.SelectType | src/pages/categories/Energy.tsx:22-30 | the preview is recomputed only when an amount is set |
| EnergyPage.EnergyForm.ChangeAmount | src/pages/categories/Energy.tsx:32-41 | the preview is recomputed only when a source is chosen |
| EnergyPage.EnergyForm.Submit | src/pages/categories/Energy.tsx:51-84 | no-op unless source, positive amount and user; otherwise sends exactly the previewed impact and resets only on success |
| AchievementsPage.UnlockMapKeys | src/pages/Achievements.tsx:68-71 | an id is a key of the unlock map exactly when some row carries it |
| AchievementsPage.UnlockMapLast | src/pages/Achievements.tsx:68-71 | a key's time is that of the last row carrying it |
| AchievementsPage.BuildUnlockMap | src/pages/Achievements.tsx:68-71 | the accumulator loop builds the unlock map |
| AchievementsPage.Load | src/pages/Achievements.tsx:23-79 | the page is the specified load: nothing without user, the fallback on any read failure, else the marked catalogue |
| AchievementsPage.LoadedMeaning | src/pages/Achievements.tsx:47-77 | a loaded page shows the whole catalogue sorted by threshold; an entry is unlocked exactly when one of the user's rows names it, and then carries that row's time |
| AchievementsPage.UnlockedThresholds | src/pages/Achievements.tsx:158 | the sum of unlocked thresholds is non-negative, and 0 with nothing unlocked |
| AchievementsPage.LargestBelow | src/pages/Achievements.tsx:161-165 | the previous requirement is the largest threshold strictly below the target; none exactly when no threshold lies below |
| AchievementsPage.Clamp99 | src/pages/Achievements.tsx:174 | the clamp lies in 0..99 and keeps values already in range |
| AchievementsPage.ProgressToward | src/pages/Achievements.tsx:156-178 | progress lies in 0..100, is 100 exactly for an unlocked entry, and 0 for a locked one whose threshold is reached |
| AchievementsPage.CalculateProgress | src/pages/Achievements.tsx:156-178 | as written: progress lies in 0..100 and is 100 exactly for an unlocked entry |
| AchievementsPage.NothingUnlockedNoProgress | src/pages/Achievements.tsx:158-177 | with nothing unlocked, as-written progress is 0 for every locked entry |
| AchievementsPage.ProgressMonotone | src/pages/Achievements.tsx:171-175 | below a locked threshold, more carbon saved never shows less progress |
| AchievementsPage.ProgressIgnoresCarbonSaved | src/pages/Achievements.tsx:156-178 | 0 and 10 unlocked, 50 locked, 30 kg saved: the page shows 0% where the share of the way is 50% |
| DashboardPage.TotalCarbon | src/pages/Dashboard.tsx:44 | the total of non-negative values is non-negative |
| DashboardPage.EachWithinTotal | src/pages/Dashboard.tsx:44 | no category value exceeds the total |
| DashboardPage.Round | src/pages/Dashboard.tsx:47 | rounding lands within half a point of its argument |
| DashboardPage.Percentage | src/pages/Dashboard.tsx:47 | a share lies within half a point of value/total × 100 and is 0 for a zero total; over non-negative values it lies in 0..100 and is 0 for a zero value |
| DashboardPage.Percentages | src/pages/Dashboard.tsx:31-48 | four entries: transport, waste, diet, energy, each with its percentage |
| DashboardPage.PercentagesNear100 | src/pages/Dashboard.tsx:45-48 | with a non-zero total the four percentages add up to 99..102 |
| DashboardPage.Load | src/pages/Dashboard.tsx:14-29 | the view is that of the loaded user data |
| DashboardPage.LoadedExisting | src/pages/Dashboard.tsx:42-48 | for an existing profile: its total, and shares of the absolute tally, each in 0..100 |
| DashboardPage.NoDataShowsZero | src/pages/Dashboard.tsx:42-48 | without data: 0 saved and 0% everywhere |
| ProfilePage.DisplayedLevel | src/pages/Profile.tsx:70 | the stored level, or 1 without data or for level 0; within 1..10 whenever the stored level is |
| ProfilePage.AchievementCount | src/pages/Profile.tsx:80 | the number of achievements, 0 without data |
| ProfilePage.TreesEquivalent | src/pages/Profile.tsx:168 | one tree per whole 20 kg |
| ProfilePage.CarMilesAvoided | src/pages/Profile.tsx:175 | the whole part of 2.5 miles per kg |
| ProfilePage.HomeEnergyDays | src/pages/Profile.tsx:182 | one day per whole 10 kg |
| ProfilePage.Load | src/pages/Profile.tsx:14-29 | the view is that of the loaded user data |
| ProfilePage.ZeroSavedShowsNoEquivalents | src/pages/Profile.tsx:168-182 | zero or missing total: every equivalent 0, level 1, next level 2 |
| ProfilePage.EquivalentsMonotone | src/pages/Profile.tsx:168-182 | equivalents are non-negative and never shrink as the total grows |
| ProfilePage.ViewOfExisting | src/pages/Profile.tsx:70-80 | an existing valid profile shows its level in 1..10, level+1 as the next level, its total and its unlock count |
| ProfilePage.ViewOfFirstVisit | src/pages/Profile.tsx:70-80 | a first visit creates the profile and shows level 1, next level 2, nothing saved |
| RegisterPage.ValidationError | src/pages/Register.tsx:24-37 | blank field first, then mismatch, then short password, each exactly under its condition; none exactly when all pass |
| RegisterPage.ReplyError | src/pages/Register.tsx:45-52 | a rejection shows its message or "Failed to register"; an exception shows the unexpected-error text; success shows none |
| RegisterPage.RegisterForm.constructor | src/pages/Register.tsx:8-12 | the form starts empty, with no error, not loading |
| RegisterPage.RegisterForm.HandleSubmit | src/pages/Register.tsx:21-56 | `register` is called exactly when every check passes; otherwise the first failing check's message is shown; after the call the reply's error replaces the cleared one and the dashboard opens on a returned user |
| RegisterPage.AcceptedPasswordsAreLong | src/pages/Register.tsx:17-37 | an accepted password and its confirmation are equal and at least six characters |
| Scenarios.BikeRideFromTransportPage | src/pages/categories/Transport.tsx:63-75 | a 10 km ride from the page records -1.2, total 1.2, level 1, nothing unlocked |
| Scenarios.BikeRideThroughServer | server/index.js:95-143 | the same ride posted: 201, total 1.2, "First Steps" unlocked, level 1 |
| Scenarios.TwoUnlocksInOneCheck | server/index.js:160-187 | a 12 kg saving from nothing unlocks both thresholds in one batch, in catalogue order |
| Scenarios.PostWithoutNewUnlockKeepsLevel | server/index.js:175-202 | a saving after which every reached threshold is already unlocked raises the total but keeps the level and the unlock rows |
| Scenarios.LevelLagsBehindTotal | server/index.js:189-201 | 250 kg at level 3 plus 100 kg: total 350, level still 3 |

## Left out

- React rendering, animation, routing, the success banners and their timers, the category forms' `isSubmitting` flags and the loading spinners of the dashboard, profile and achievements pages are not modelled: they are presentation only. The registration form's `isLoading` flag is modelled.
- The mock achievement list shown when the achievements page cannot load is represented by the `Fallback` page state; its contents are static data.
- The hard-coded "75%" and "25 more kg" of the profile page are static text and are not modelled.
- The user name shown on the profile page (`username` or the e-mail prefix) needs the auth session's e-mail, which is not part of this model.
- The Supabase client, PostgREST query builders and Express wiring are replaced by the in-memory `Db.State` and `Db.Store`.
- The `increment` procedure is not part of this model; both paths model it as "add the amount to the total". On the client path its promise is written as a column value, and the model gives it the same intended effect.
- Store errors are represented by the `faults` parameter. Which call fails, and when, is not modelled further.
- `fetchRecentActivities` (src/services/userService.ts:117-142) is not used by the modelled pages and is not modelled.
- Concurrency is not modelled: each operation runs alone. This leaves out concurrent profile creation, lost updates of the total, and races between the qualifying read and the insert.
- Floating point is modelled as exact `real` arithmetic. IEEE rounding, NaN and Infinity, and `toFixed` are left out.
- Timestamps are integers supplied by the caller (`now`). Parsing dates is left out.
- Ties in the latest-first sort are resolved by the model's insertion sort, which may differ from a JavaScript engine's order among equal timestamps.
- Lookups in the factor tables ignore JavaScript prototype keys such as "constructor".
- Password length counts characters, not UTF-16 code units.
- AchievementsPage.CalculateProgress: requires non-negative thresholds, which the store's invariant guarantees. With a negative threshold the source could divide by zero, and that case is not modelled.
- DashboardPage.Percentage: a zero total over values that are not all zero (possible only with negative values) gives Infinity in the source but 0 in the model. Dashboard values come from absolute impacts, which are never negative.
- Server.PostActivitySpec: assumes that the `category` column of `activities` accepts only the four category names, so another category fails the insert and the route answers 500. The generated database types declare no enum (src/lib/database.types.ts:123-125) and the route passes `category` on unchecked, so with a plain text column such a row would be stored and the route would answer 201.
- Server.Qualifying and Server.CheckAchievementsSpec: give the `.not('id', 'in', …)` filter at server/index.js:164-168 its intended meaning, the catalogue minus the achievements the user already unlocked. The code passes a query builder where a list of ids is expected. What the store makes of that value is not modelled; if the select fails, `checkAchievements` answers `[]` and unlocks nothing.
- Server.MissingFields and Server.PostActivitySpec: model the request body's fields as present or absent strings and numbers. JSON field types and `null` are not modelled. A `null` value or impact passes the `=== undefined` test and reaches the insert, a numeric `userId` is falsy only when it is 0, and a string `carbonImpact` is compared with `< 0` after coercion.

## Findings

| source | as written | input that shows it | evidently intended | confidence | as-written member | corrected member |
|---|---|---|---|---|---|---|
| src/pages/Achievements.tsx:156-178 | progress measures "the user's total carbon saved" as the sum of the unlocked achievements' thresholds; the fetched `carbonSaved` (line 44) is never used | thresholds 0 and 10 unlocked, 50 locked, 30 kg saved: 0% towards 50 kg | progress from the saved total: (30 − 10) / (50 − 10) = 50% | high that the figure differs, medium that it is unintended; not executed | AchievementsPage.CalculateProgress, shown by AchievementsPage.ProgressIgnoresCarbonSaved | AchievementsPage.ProgressToward applied to the loaded page's `carbonSaved`, with AchievementsPage.ProgressMonotone |
