# FitIQ client stores in Dafny

This project models the client-side state stores of the FitIQ fitness and nutrition app, a
React Native app whose stores are zustand stores. Each store becomes a Dafny class. Its fields
are the store's state, and each action is a method that reassigns those fields. Pure
computations become functions, with lemmas beside them.

- **Local nutrition store** (`store/nutrition-store.ts`, module `NutritionStore`). It holds a
  map from date string to that day's `DailyNutrition` log, plus a most-recently-used list of
  foods. Adding, removing and updating meal entries move the four running totals (calories,
  protein, carbs, fat) by deltas; they do not recompute them.
- **Backend-backed nutrition store** (`home/user/rork-app/store/nutrition-store.ts`, module
  `ApiNutritionStore`). It has the same log map, plus `isLoading` and `error`. Every action
  takes the backend's answer as a parameter, either success with data or failure with an error.
  The store also has the search and barcode fallbacks used when the backend is unreachable.
- **Ledger** (module `Ledger`). This is the per-day arithmetic both nutrition stores share.
  Its main invariant is that every running total equals the sum of `food.macro * quantity`
  over the day's entries. The lemmas prove that add, remove and update keep that invariant.
- **Friends store** (`store/friends-store.ts`, module `Friends`). It holds accepted friends,
  pending requests and an activity feed capped at 50 items.
- **Workout store** (`store/workout-store.ts`, module `Workouts`). It has at most one active
  workout, a history of finished workouts, exercise templates, nested edits on exercises and
  sets, and the weekly statistics.
- **User store** (`store/user-store.ts`, module `Users`). It has one nullable profile with
  field-wise updates.

Identifiers and timestamps come from `Date.now()`, `Math.random()` and `new Date()`. The model
takes them as parameters of the actions. Macro amounts, quantities, weights and durations are
`real`. Optional properties are `Option`.

## Model

| member | source | states |
|---|---|---|
| Common.Filter | store/friends-store.ts:189 | `Array.prototype.filter`: keeps exactly the elements that pass the predicate, never more than the input |
| Common.FilterAppend | store/friends-store.ts:189 | filtering a concatenation is concatenating the filtered parts, so the survivors keep their order |
| Common.IndexWhere | store/nutrition-store.ts:182-184 | `Array.prototype.findIndex`: -1 exactly when no element passes, otherwise the first index that passes |
| Common.Find | store/friends-store.ts:179 | `Array.prototype.find`: nothing exactly when no element passes, otherwise the element at the first index that passes |
| Common.TextBefore | store/workout-store.ts:119 | `split(sep)[0]`: a prefix without the separator, followed by the separator whenever it is shorter than the string |
| Common.SliceTo | store/friends-store.ts:222 | `slice(0, end)`: a prefix of the JavaScript slice length, negative ends counting back from the end; an end past the length keeps everything |
| Ledger.EmptyLog | store/nutrition-store.ts:16-28 | `createEmptyDailyNutrition(d)` has date `d`, all four totals zero and four empty meal lists |
| Ledger.EmptyLogWellFormed | store/nutrition-store.ts:16-28 | a fresh log satisfies the ledger invariant: totals equal the sum of entry contributions, and every entry is filed under its date and meal type |
| Ledger.Credit | store/nutrition-store.ts:47-71 | adding an entry raises each total by the given amount, appends the entry to the tail of its meal list, and leaves the other lists and the date alone |
| Ledger.CreditConsistent | store/nutrition-store.ts:47-71 | crediting an entry with its own contribution keeps every total equal to the sum over the entries |
| Ledger.CreditFiled | store/nutrition-store.ts:41-71 | an entry of the log's date, credited to its own meal type, keeps every entry filed correctly |
| Ledger.FindEntry | store/nutrition-store.ts:87-89 | `findIndex` by id: -1 exactly when no entry has the id, otherwise the first index holding it |
| Ledger.LocateFrom | store/nutrition-store.ts:86-115 | the removal scan finds nothing exactly when no scanned list holds the id; otherwise it returns a meal type and that list's first index of the id |
| Ledger.LocateFromFirst | store/nutrition-store.ts:86-115 | the scan stops at the first meal type, in breakfast, lunch, dinner, snack order, whose list holds the id |
| Ledger.LocateFromOnly | store/nutrition-store.ts:86-115 | when only one meal list holds the id, the scan finds it there at its first index |
| Ledger.RemoveAt | store/nutrition-store.ts:92-111 | removing the entry at an index subtracts its contribution from every total, splices it out of its list, and leaves the other lists alone |
| Ledger.RemoveEntry | store/nutrition-store.ts:83-115 | an id held by no list leaves the log unchanged; otherwise the first match found by the scan is removed |
| Ledger.RemoveFirstMatch | home/user/rork-app/store/nutrition-store.ts:183-211 | the `for ... break` loop over the four meal types computes exactly `RemoveEntry` |
| Ledger.RemoveEntryConsistent | store/nutrition-store.ts:78-124 | removal keeps every total equal to the sum over the remaining entries |
| Ledger.RemoveEntryFiled | store/nutrition-store.ts:78-124 | removal keeps every entry filed under the log's date and its own meal type |
| Ledger.ReplaceAt | store/nutrition-store.ts:139-167 | overwriting the entry at an index moves each total by new minus old contribution and replaces that list position only |
| Ledger.UpdateEntry | store/nutrition-store.ts:128-168 | only the list of the entry's new meal type is searched; no match leaves the log unchanged, a match is overwritten in place |
| Ledger.UpdateEntryConsistent | store/nutrition-store.ts:126-177 | an update keeps every total equal to the sum over the entries |
| Ledger.UpdateEntryFiled | store/nutrition-store.ts:126-177 | an update with the log's date keeps every entry filed correctly |
| Ledger.AddThenRemove | store/nutrition-store.ts:41-124 | adding an entry with an unused id and then removing that id gives back exactly the original log |
| NutritionStore.FoodIndex | store/nutrition-store.ts:182-184 | `findIndex` by food id: -1 exactly when the id is absent, otherwise the first index holding it |
| NutritionStore.MoveToFront | store/nutrition-store.ts:188-193 | the food goes first; items before the old position shift by one and items after it stay put |
| NutritionStore.PushRecent | store/nutrition-store.ts:179-201 | the added food is first. A known food keeps the list length and every other food. A new food is put in front of the old list, cut to 20. A list of at most 20 stays at most 20. A known food is moved to the front exactly as `MoveToFront` does it, so the other foods keep their order |
| NutritionStore.PushRecentDistinct | store/nutrition-store.ts:179-201 | the recent list never gains a duplicate id |
| NutritionStore.PushRecentIdempotent | store/nutrition-store.ts:179-201 | adding the food that was just added changes nothing |
| NutritionStore.CreditKeepsAll | store/nutrition-store.ts:41-76 | adding an entry keeps every stored log well formed |
| NutritionStore.RemoveKeepsAll | store/nutrition-store.ts:78-124 | removing an entry keeps every stored log well formed |
| NutritionStore.UpdateKeepsAll | store/nutrition-store.ts:126-177 | updating an entry keeps every stored log well formed |
| NutritionStore.LocalNutritionStore.constructor | store/nutrition-store.ts:38-39 | the store starts with no logs and no recent foods |
| NutritionStore.LocalNutritionStore.GetDailyNutrition | store/nutrition-store.ts:203-205 | returns the stored log, or a zeroed log for that date that is not stored |
| NutritionStore.LocalNutritionStore.LogMealEntry | store/nutrition-store.ts:47-71 | the `set` of `addMealEntry`: the day's log, created empty when missing, is credited with the entry's contribution and gains the entry at the tail of its list; the store invariant is kept |
| NutritionStore.LocalNutritionStore.AddRecentFood | store/nutrition-store.ts:179-201 | the recent list becomes `PushRecent` of the old one; the logs are untouched |
| NutritionStore.LocalNutritionStore.AddMealEntry | store/nutrition-store.ts:41-76 | the day's log, created when missing, gains the entry and `food.macro * quantity` on each total; the food is then recorded as recent |
| NutritionStore.LocalNutritionStore.RemoveMealEntry | store/nutrition-store.ts:78-124 | a missing date changes nothing; otherwise the day's log becomes `RemoveEntry` of it, and the store invariant is kept |
| NutritionStore.LocalNutritionStore.UpdateMealEntry | store/nutrition-store.ts:126-177 | a missing date changes nothing; otherwise the day's log becomes `UpdateEntry` of it, and the store invariant is kept |
| ApiNutritionStore.ErrorText | home/user/rork-app/store/nutrition-store.ts:59-61 | the stored message is the thrown `Error`'s own message, or the action's fixed text for any other thrown value |
| ApiNutritionStore.PushRecentDedup | home/user/rork-app/store/nutrition-store.ts:100 | the food goes first and no other copy of its id remains. The list holds at most 20 foods, all taken from the old list, and keeps every other food when the old list was shorter than 20. The foods after the first are a prefix of the old list filtered by id, of the length the cut to 20 leaves, so they keep their old order |
| ApiNutritionStore.RecentUpdatesAgree | home/user/rork-app/store/nutrition-store.ts:100 | on a duplicate-free list of at most 20 foods, this inline update equals the local store's `addRecentFood` |
| ApiNutritionStore.PushRecentDedupDistinct | home/user/rork-app/store/nutrition-store.ts:100 | the inline update keeps the recent list duplicate-free |
| ApiNutritionStore.Lower | home/user/rork-app/store/nutrition-store.ts:237 | lower-casing keeps the length and maps each ASCII capital to its small letter |
| ApiNutritionStore.LowerIdempotent | home/user/rork-app/store/nutrition-store.ts:237 | lower-casing twice is lower-casing once |
| ApiNutritionStore.Includes | home/user/rork-app/store/nutrition-store.ts:240-241 | `includes`: a needle that is a prefix of the haystack is found, and nothing longer than the haystack is |
| ApiNutritionStore.IncludesIff | home/user/rork-app/store/nutrition-store.ts:239-240 | `includes` holds exactly when the needle occurs at some position of the haystack |
| ApiNutritionStore.IncludesEmpty | home/user/rork-app/store/nutrition-store.ts:239-240 | every string includes the empty string |
| ApiNutritionStore.MatchesQuery | home/user/rork-app/store/nutrition-store.ts:239-241 | the search predicate: lower-cased name, or present non-empty lower-cased brand, includes the lower-cased query; an empty query matches every food |
| ApiNutritionStore.SearchFallback | home/user/rork-app/store/nutrition-store.ts:236-241 | a fallback food is returned exactly when its lower-cased name, or its present non-empty brand, includes the lower-cased query |
| ApiNutritionStore.SearchFallbackAppend | home/user/rork-app/store/nutrition-store.ts:238-241 | the fallback search keeps the order of the fallback foods |
| ApiNutritionStore.SearchFallbackEmptyQuery | home/user/rork-app/store/nutrition-store.ts:238-241 | an empty query returns every fallback food |
| ApiNutritionStore.SearchFood | home/user/rork-app/store/nutrition-store.ts:231-244 | a success returns the backend's list, or an empty list when the backend gave none; a failure returns exactly `SearchFallback` of the fallback foods, in their order |
| ApiNutritionStore.ScanBarcode | home/user/rork-app/store/nutrition-store.ts:246-255 | a success returns the backend's food; a failure returns the first fallback food, or nothing when there is none |
| ApiNutritionStore.FetchedKeepsAll | home/user/rork-app/store/nutrition-store.ts:44-68 | storing a consistent fetched log, or a zeroed one, keeps every log consistent |
| ApiNutritionStore.CreditKeepsAll | home/user/rork-app/store/nutrition-store.ts:78-103 | crediting an entry with its own contribution keeps every log consistent |
| ApiNutritionStore.UpdateKeepsAll | home/user/rork-app/store/nutrition-store.ts:120-161 | an update keeps every log consistent |
| ApiNutritionStore.RemoveKeepsAll | home/user/rork-app/store/nutrition-store.ts:178-220 | a removal keeps every log consistent |
| ApiNutritionStore.ApiNutritionStore.constructor | home/user/rork-app/store/nutrition-store.ts:38-42 | the store starts with no logs, no recent foods, not loading and no error |
| ApiNutritionStore.ApiNutritionStore.GetDailyNutrition | home/user/rork-app/store/nutrition-store.ts:323-325 | returns the stored log, or a zeroed one for that date |
| ApiNutritionStore.ApiNutritionStore.ClearError | home/user/rork-app/store/nutrition-store.ts:327 | clears the error and changes nothing else |
| ApiNutritionStore.ApiNutritionStore.FetchDailyNutrition | home/user/rork-app/store/nutrition-store.ts:44-68 | on success, stores the fetched log (a zeroed one when none came back); on failure, records the error and stores a zeroed log; loading ends either way |
| ApiNutritionStore.ApiNutritionStore.StoreFetched | home/user/rork-app/store/nutrition-store.ts:50-56 | the date's log becomes the fetched one, or a zeroed one when none came back |
| ApiNutritionStore.ApiNutritionStore.StoreCredited | home/user/rork-app/store/nutrition-store.ts:78-99 | the day's log, created empty when missing, gains the amount on every total and the entry at the tail of its list; a matching amount keeps every log consistent |
| ApiNutritionStore.ApiNutritionStore.StoreRecent | home/user/rork-app/store/nutrition-store.ts:100 | the recent list becomes `PushRecentDedup` of the old one and stays duplicate-free |
| ApiNutritionStore.ApiNutritionStore.ApplyAddedEntry | home/user/rork-app/store/nutrition-store.ts:76-102 | totals gain the argument's contribution; the backend's entry goes to the tail of the argument's meal list; the recent list is updated |
| ApiNutritionStore.ApiNutritionStore.AddMealEntry | home/user/rork-app/store/nutrition-store.ts:70-112 | on success, applies the added entry and clears the error; on failure, leaves logs and recent foods alone, records the message and rethrows |
| ApiNutritionStore.ApiNutritionStore.ApplyUpdatedEntry | home/user/rork-app/store/nutrition-store.ts:120-161 | a missing date or an id absent from the new meal type's list returns the old state, so loading stays set; otherwise the entry is replaced and totals move by new minus old |
| ApiNutritionStore.ApiNutritionStore.UpdateMealEntry | home/user/rork-app/store/nutrition-store.ts:114-170 | success and failure paths of `updateMealEntry`, including the rethrown error and its message |
| ApiNutritionStore.ApiNutritionStore.ApplyRemovedEntry | home/user/rork-app/store/nutrition-store.ts:178-220 | a missing date returns the old state; otherwise the first matching entry is removed and loading ends |
| ApiNutritionStore.ApiNutritionStore.StoreRemoved | home/user/rork-app/store/nutrition-store.ts:178-218 | the stored log of the date becomes `RemoveEntry` of it and every log stays consistent |
| ApiNutritionStore.ApiNutritionStore.RemoveMealEntry | home/user/rork-app/store/nutrition-store.ts:172-229 | success and failure paths of `removeMealEntry`, including the rethrown error and its message |
| Friends.EmailPrefix | store/friends-store.ts:164 | `email.split('@')[0]` is a prefix of the email with no '@', followed by '@' whenever it is shorter than the email |
| Friends.EmailPrefixOf | store/friends-store.ts:164 | the display name of `user@host` is `user` |
| Friends.WithoutId | store/friends-store.ts:189 | filtering by id keeps exactly the friends with another id |
| Friends.WithoutIdAppend | store/friends-store.ts:189-202 | removing an id from a concatenation is concatenating the removals, so the remaining friends and requests keep their order |
| Friends.WithoutIdIdempotent | store/friends-store.ts:194-198 | rejecting or removing the same id twice is doing it once |
| Friends.WithoutIdKeepsStatus | store/friends-store.ts:194-204 | filtering keeps the survivors' statuses |
| Friends.FindById | store/friends-store.ts:179 | `find` by id returns nothing exactly when no friend has the id, otherwise the first friend with that id |
| Friends.PushActivity | store/friends-store.ts:210-219 | the new activity is first; the feed grows by one up to 50 items; the rest is a prefix of the old feed |
| Friends.PushActivityKeepsAllBelowLimit | store/friends-store.ts:217 | below 50 items no activity is dropped |
| Friends.ActivitiesUpTo | store/friends-store.ts:221-223 | `slice(0, limit)` with a default of 10 returns a prefix of the feed of the JavaScript slice length, negative limits included |
| Friends.FriendsStore.constructor | store/friends-store.ts:155-157 | the store starts from the seed friends (accepted), requests (pending) and activities |
| Friends.FriendsStore.AddFriend | store/friends-store.ts:159-175 | appends a pending request named after the email's local part, with id `friend_<stamp>`, and returns true |
| Friends.FriendsStore.AcceptFriendRequest | store/friends-store.ts:177-192 | an unknown id changes nothing; otherwise the first matching request joins the friends as accepted and every request with the id is dropped |
| Friends.FriendsStore.RejectFriendRequest | store/friends-store.ts:194-198 | every request with the id is dropped; friends stay accepted and requests stay pending |
| Friends.FriendsStore.RemoveFriend | store/friends-store.ts:200-204 | every friend with the id is dropped |
| Friends.FriendsStore.GetFriendById | store/friends-store.ts:206-208 | returns the first friend with the id; that friend is never a pending request |
| Friends.FriendsStore.AddFriendActivity | store/friends-store.ts:210-219 | the activity with id `activity_<stamp>` goes to the front of the feed, which keeps at most 50 items |
| Friends.FriendsStore.GetFriendActivities | store/friends-store.ts:221-223 | returns `ActivitiesUpTo` of the feed: a prefix of length min(limit, feed length), 10 by default, with JavaScript's counting back for a negative limit |
| Workouts.DefaultTemplatesWellFormed | store/workout-store.ts:49-106 | there are eight templates with distinct ids and no sets |
| Workouts.NewWorkout | store/workout-store.ts:116-124 | a fresh workout has no exercises, duration 0 and is not completed; its date is the part of the start time before 'T' |
| Workouts.NewWorkoutDate | store/workout-store.ts:119 | the date of a start time `<day>T<time>` is `<day>` |
| Workouts.WithoutExerciseCount | store/workout-store.ts:171 | filtering out an id drops exactly as many exercises as carry it |
| Workouts.WithoutExercise | store/workout-store.ts:171 | keeps exactly the exercises with another id, and removes as many as carried the id |
| Workouts.WithoutExerciseAppend | store/workout-store.ts:171 | removing an id from a concatenation is concatenating the removals, so the remaining exercises keep their order |
| Workouts.AddThenRemoveExercise | store/workout-store.ts:146-174 | removing an exercise just added under a fresh id gives the list back |
| Workouts.AddSetTo | store/workout-store.ts:188-192 | exercises with the id gain the set at the end of their list; the others are unchanged |
| Workouts.AddSetTotal | store/workout-store.ts:176-195 | the total set count grows by the number of exercises carrying the id |
| Workouts.ApplySetPatch | store/workout-store.ts:209 | `{ ...set, ...updates }`, the set merged with the supplied fields (its laws are the two lemmas below) |
| Workouts.SetPatchLaws | store/workout-store.ts:209 | merging an empty patch is the identity and merging twice is merging once |
| Workouts.SetPatchFields | store/workout-store.ts:209 | for each of the five fields, a supplied value wins and an unsupplied field keeps the set's value |
| Workouts.PatchSets | store/workout-store.ts:208-210 | sets with the id are merged with the updates; the others are unchanged |
| Workouts.UpdateSetIn | store/workout-store.ts:204-213 | only sets with the set id, inside exercises with the exercise id, are merged |
| Workouts.UpdateSetTotal | store/workout-store.ts:197-216 | an update never changes a set count |
| Workouts.UpdateSetEmptyPatch | store/workout-store.ts:197-216 | an update with no fields changes nothing |
| Workouts.WithoutSetCount | store/workout-store.ts:227 | filtering out an id drops exactly as many sets as carry it |
| Workouts.WithoutSet | store/workout-store.ts:227 | keeps exactly the sets with another id, and removes as many as carried the id |
| Workouts.WithoutSetAppend | store/workout-store.ts:227 | removing an id from a concatenation is concatenating the removals, so the remaining sets keep their order |
| Workouts.RemoveSetFrom | store/workout-store.ts:225-229 | exercises with the id lose their sets with the set id; the others are unchanged |
| Workouts.RemoveSetTotal | store/workout-store.ts:218-232 | the total set count drops by exactly the number of matching sets in matching exercises |
| Workouts.AddThenRemoveSet | store/workout-store.ts:176-232 | removing a set just added under a fresh id gives the exercises back |
| Workouts.InWeek | store/workout-store.ts:240 | the filter of `getWeeklyStats`: completed and started at or after the week start (the lemmas below state it) |
| Workouts.WeeklyWorkouts | store/workout-store.ts:239-241 | a workout is counted exactly when it is completed and its start time parses to an instant at or after the week start |
| Workouts.DurationSum | store/workout-store.ts:245 | the `reduce` summing durations from 0 (its value is pinned by `WeeklyStats` and `WeeklyStatsPrepend`) |
| Workouts.SetSum | store/workout-store.ts:246-250 | the nested `reduce` summing set counts from 0 (its value is pinned by `WeeklyStats` and `WeeklyStatsPrepend`) |
| Workouts.WeeklyStats | store/workout-store.ts:234-252 | the weekly count never exceeds the history length, and an empty history gives zero workouts, duration and sets; with `WeeklyStatsPrepend` this fixes the count and both sums for every history |
| Workouts.WeeklyStatsPrepend | store/workout-store.ts:140-252 | a workout put at the head of the history adds one workout, its duration and its set count to the statistics exactly when it counts for the week |
| Workouts.WeeklyStatsMonotone | store/workout-store.ts:236-241 | a later week start never counts more workouts |
| Workouts.WorkoutStore.constructor | store/workout-store.ts:111-113 | the store starts with no active workout, an empty history and the default templates |
| Workouts.WorkoutStore.StartWorkout | store/workout-store.ts:115-127 | the active workout becomes a fresh one, replacing any other; history is untouched |
| Workouts.WorkoutStore.EndWorkout | store/workout-store.ts:129-144 | with no active workout nothing changes; otherwise it is cleared and a completed copy with the given duration and end time goes to the front of the history |
| Workouts.WorkoutStore.AddExercise | store/workout-store.ts:146-162 | with no active workout nothing changes; otherwise one exercise with the given id and no sets is appended |
| Workouts.WorkoutStore.RemoveExercise | store/workout-store.ts:164-174 | with no active workout nothing changes; otherwise every exercise with the id is removed |
| Workouts.WorkoutStore.AddSet | store/workout-store.ts:176-195 | with no active workout nothing changes; otherwise `AddSetTo` is applied to its exercises |
| Workouts.WorkoutStore.UpdateSet | store/workout-store.ts:197-216 | with no active workout nothing changes; otherwise `UpdateSetIn` is applied to its exercises |
| Workouts.WorkoutStore.RemoveSet | store/workout-store.ts:218-232 | with no active workout nothing changes; otherwise `RemoveSetFrom` is applied to its exercises |
| Workouts.WorkoutStore.GetWeeklyStats | store/workout-store.ts:234-252 | exactly `WeeklyStats` of the history; since every stored workout is completed, only the start time decides what counts |
| Users.ApplyProfilePatch | store/user-store.ts:43 | `{ ...user, ...profile }`, the profile merged with the supplied properties (its laws are the two lemmas below) |
| Users.ProfilePatchLaws | store/user-store.ts:41-44 | an empty patch is the identity, patching twice is patching once, and a goals-only patch is `updateGoals` |
| Users.ProfilePatchFields | store/user-store.ts:41-44 | for each of the thirteen properties, a supplied value wins and an unsupplied one keeps the profile's value |
| Users.UserStore.constructor | store/user-store.ts:15-35 | the store starts with the default user: goals 2000/150/200/65, not premium |
| Users.UserStore.SetUser | store/user-store.ts:36 | the profile is replaced, also after a logout |
| Users.UserStore.UpdateGoals | store/user-store.ts:37-40 | a present profile gets the goals and nothing else; an absent one stays absent |
| Users.UserStore.UpdateProfile | store/user-store.ts:41-44 | the supplied properties overwrite those of a present profile; an absent one stays absent |
| Users.UserStore.SetPremiumStatus | store/user-store.ts:45-50 | only `isPremium` and `premiumUntil` change, so an omitted `premiumUntil` clears the stored one; an absent profile stays absent |
| Users.UserStore.Logout | store/user-store.ts:51 | the profile becomes absent, so the three update actions do nothing until `SetUser` |

## Left out

- `analyzeFoodPhoto` of the backend-backed store is left out. It reads a file, base64-encodes it, calls an AI endpoint and parses free-form JSON. That is all I/O and foreign code.
- The backend client (`services/api.ts`) and its timeouts are left out. Each backend call is a parameter: success with data, or failure with an error.
- Async interleaving is left out. Each async action is modelled as if no other action runs between its first `set` and its last.
- Persistence (zustand `persist` with AsyncStorage) is left out, and so is rehydration. Each store starts from its initial state.
- The friends store's demo fixtures (`mockFriends`, `mockFriendRequests`, `mockActivities`) are constructor arguments. The model checks only their statuses, not their contents.
- The activity's free-form `data` property (typed `any`) is not modelled.
- JavaScript numbers are modelled as `real` (or `int` for counts). IEEE rounding, `NaN` and infinities are not modelled.
- ApiNutritionStore.Lower: lower-cases only the ASCII letters A-Z; full Unicode case mapping is not modelled.
- ApiNutritionStore.ApiNutritionStore.AddMealEntry: a successful response with no `data` is not modelled. The source would append `undefined` to the meal list.
- Workouts.WeeklyWorkouts: turning an ISO start time into an instant is a parameter. An unparseable time compares false, as an invalid `Date` does. Computing "seven days ago" (`setDate(getDate() - 7)`) is also a parameter.
- Workouts.WorkoutStore.StartWorkout: the date and the start time come from one clock reading. The source reads the clock twice, so the two can straddle midnight.
- Workouts.SetPatchFields: a patch key present with the value `undefined` is not modelled. In the source such a key clears the field. A patch here supplies a value or leaves the field alone.
- Users.ProfilePatchFields: a patch key present with the value `undefined` is not modelled, for the same reason.
- The `Valid()` invariants of the stores are stated for the state the constructors create. Backend data that breaks the ledger invariant is excluded by the extra conditions on the validity postconditions of `FetchDailyNutrition` and `AddMealEntry`.
