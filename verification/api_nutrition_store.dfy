/** The API-backed nutrition store (home/user/rork-app/store/nutrition-store.ts). Each action
    first sets `isLoading` and clears `error`, awaits the backend, and then either applies the
    same ledger arithmetic as the local store or records the failure. The awaited backend call
    is a parameter: its result, or the error it was rejected with. */
module ApiNutritionStore {
  import opened Common
  import opened Types
  import opened Ledger
  import NutritionStore

  /** A rejected backend call. `message` is the message of a thrown `Error`; any other thrown
      value has none. */
  datatype ApiError = ApiError(message: Option<string>)

  /** What an awaited backend call produced. */
  datatype Outcome<T> = Success(data: T) | Failure(err: ApiError)

  const FetchFailedMessage: string := "Failed to fetch nutrition data"
  const AddFailedMessage: string := "Failed to add meal entry"
  const UpdateFailedMessage: string := "Failed to update meal entry"
  const RemoveFailedMessage: string := "Failed to remove meal entry"

  /** `error instanceof Error ? error.message : fallback` */
  function ErrorText(e: ApiError, fallback: string): (r: string)
    ensures e.message.Some? ==> r == e.message.value
    ensures e.message.None? ==> r == fallback
  {
    match e.message
    case Some(m) => m
    case None => fallback
  }

  /** The argument of `addMealEntry`: a meal entry without `id` and `createdAt`. */
  datatype NewMealEntry = NewMealEntry(food: Food, quantity: real, mealType: MealType, date: string)

  // ----- recent foods ---------------------------------------------------------

  /** The inline recent-foods update of `addMealEntry`: the food goes first, every other copy
      of its id is dropped, and the list is cut to 20. The foods after the first are a prefix
      of the filtered old list, so they keep their old order (`FilterAppend`). */
  function PushRecentDedup(recent: seq<Food>, food: Food): (r: seq<Food>)
    ensures |r| >= 1 && r[0] == food
    ensures |r| <= NutritionStore.RecentFoodsLimit
    ensures forall k :: 1 <= k < |r| ==> r[k].id != food.id && r[k] in recent
    ensures |recent| < NutritionStore.RecentFoodsLimit ==>
      forall f :: f in recent && f.id != food.id ==> f in r
    ensures r[1..] <= Filter(recent, (f: Food) => f.id != food.id)
    ensures var kept := |Filter(recent, (f: Food) => f.id != food.id)|;
      |r| == if kept + 1 < NutritionStore.RecentFoodsLimit then kept + 1 else NutritionStore.RecentFoodsLimit
  {
    var rest := Filter(recent, (f: Food) => f.id != food.id);
    var r := SliceTo([food] + rest, NutritionStore.RecentFoodsLimit);
    assert forall k :: 1 <= k < |r| ==> r[k] == rest[k - 1];
    assert |recent| < NutritionStore.RecentFoodsLimit ==> r == [food] + rest;
    r
  }

  /** On a duplicate-free list, dropping the foods with the id of the one at `i` drops exactly
      that one. */
  lemma FilterDropsOne(recent: seq<Food>, food: Food, i: int)
    requires DistinctIds(recent) && 0 <= i < |recent| && recent[i].id == food.id
    ensures Filter(recent, (f: Food) => f.id != food.id) == recent[..i] + recent[i + 1..]
  {
    var p := (f: Food) => f.id != food.id;
    forall k | 0 <= k < |recent| && k != i ensures p(recent[k]) {
      if k < i { assert recent[k].id != recent[i].id; } else { assert recent[i].id != recent[k].id; }
    }
    FilterDropsAt(recent, i, p);
  }

  /** A food whose id is not in the list: both updates put it in front of the whole list, cut
      to 20. */
  lemma RecentUpdatesAgreeAbsent(recent: seq<Food>, food: Food)
    requires NutritionStore.FoodIndex(recent, food.id) == -1
    ensures PushRecentDedup(recent, food) == NutritionStore.PushRecent(recent, food)
  {
    FilterKeepsAll(recent, (f: Food) => f.id != food.id);
  }

  /** A food whose id is at `i` of a duplicate-free list: both updates move it to the front. */
  lemma RecentUpdatesAgreePresent(recent: seq<Food>, food: Food, i: int)
    requires DistinctIds(recent) && |recent| <= NutritionStore.RecentFoodsLimit
    requires i == NutritionStore.FoodIndex(recent, food.id) && i != -1
    ensures PushRecentDedup(recent, food) == NutritionStore.PushRecent(recent, food)
  {
    var rest := recent[..i] + recent[i + 1..];
    FilterDropsOne(recent, food, i);
    assert PushRecentDedup(recent, food) == SliceTo([food] + rest, NutritionStore.RecentFoodsLimit);
    assert [food] + recent[..i] + recent[i + 1..] == [food] + rest;
  }

  /** On a duplicate-free list of at most 20 foods, this store's recent-foods update and the
      local store's `addRecentFood` produce the same list. */
  lemma RecentUpdatesAgree(recent: seq<Food>, food: Food)
    requires DistinctIds(recent) && |recent| <= NutritionStore.RecentFoodsLimit
    ensures PushRecentDedup(recent, food) == NutritionStore.PushRecent(recent, food)
  {
    var i := NutritionStore.FoodIndex(recent, food.id);
    if i == -1 {
      RecentUpdatesAgreeAbsent(recent, food);
    } else {
      RecentUpdatesAgreePresent(recent, food, i);
    }
  }

  /** The recent-foods update keeps the list duplicate-free and at most 20 long. */
  lemma PushRecentDedupDistinct(recent: seq<Food>, food: Food)
    requires DistinctIds(recent) && |recent| <= NutritionStore.RecentFoodsLimit
    ensures DistinctIds(PushRecentDedup(recent, food))
  {
    RecentUpdatesAgree(recent, food);
    NutritionStore.PushRecentDistinct(recent, food);
  }

  // ----- search fallback ------------------------------------------------------

  /** `toLowerCase` on one character, for the ASCII letters. */
  function LowerChar(c: char): char {
    if 'A' <= c <= 'Z' then (c as int + 32) as char else c
  }

  /** `s.toLowerCase()`, for the ASCII letters. */
  function Lower(s: string): (r: string)
    ensures |r| == |s|
    ensures forall i :: 0 <= i < |s| ==> r[i] == LowerChar(s[i])
  {
    seq(|s|, i requires 0 <= i < |s| => LowerChar(s[i]))
  }

  /** Lower-casing twice is lower-casing once. */
  lemma LowerIdempotent(s: string)
    ensures Lower(Lower(s)) == Lower(s)
  {
    var l := Lower(s);
    forall i | 0 <= i < |s| ensures Lower(l)[i] == l[i] {
      assert l[i] == LowerChar(s[i]);
    }
  }

  /** `hay.includes(needle)`, checked at every start position from the left. */
  function Includes(hay: string, needle: string): (r: bool)
    ensures needle <= hay ==> r
    ensures r ==> |needle| <= |hay|
    decreases |hay|
  {
    if |needle| > |hay| then false
    else hay[..|needle|] == needle || Includes(hay[1..], needle)
  }

  /** `needle` occurs in `hay` starting at position `i`. */
  predicate OccursAt(hay: string, needle: string, i: int) {
    0 <= i && i + |needle| <= |hay| && hay[i..i + |needle|] == needle
  }

  /** An occurrence at `i` is found by the scan. */
  lemma {:induction false} IncludesComplete(hay: string, needle: string, i: int)
    requires OccursAt(hay, needle, i)
    ensures Includes(hay, needle)
    decreases i
  {
    var n := |needle|;
    if hay[..n] != needle {
      assert i != 0;
      assert hay[1..][i - 1..i - 1 + n] == hay[i..i + n];
      IncludesComplete(hay[1..], needle, i - 1);
    }
  }

  /** What the scan finds is an occurrence. */
  lemma {:induction false} IncludesSound(hay: string, needle: string)
    requires Includes(hay, needle)
    ensures exists i :: OccursAt(hay, needle, i)
    decreases |hay|
  {
    var n := |needle|;
    if hay[..n] == needle {
      assert OccursAt(hay, needle, 0);
    } else {
      IncludesSound(hay[1..], needle);
      var j :| OccursAt(hay[1..], needle, j);
      assert hay[j + 1..j + 1 + n] == hay[1..][j..j + n];
      assert OccursAt(hay, needle, j + 1);
    }
  }

  /** `Includes` holds exactly when `needle` occurs in `hay` at some position. */
  lemma IncludesIff(hay: string, needle: string)
    ensures Includes(hay, needle) <==> exists i :: OccursAt(hay, needle, i)
  {
    if Includes(hay, needle) {
      IncludesSound(hay, needle);
    }
    if exists i :: OccursAt(hay, needle, i) {
      var i :| OccursAt(hay, needle, i);
      IncludesComplete(hay, needle, i);
    }
  }

  /** Every string includes the empty string. */
  lemma IncludesEmpty(hay: string)
    ensures Includes(hay, "")
  {
    assert hay[..0] == "";
  }

  /** The filter predicate of the `searchFood` fallback, against the lower-cased query: the
      lower-cased name, or a present and non-empty brand lower-cased, contains it. */
  predicate MatchesQuery(food: Food, lowerQuery: string)
    ensures lowerQuery == [] ==> MatchesQuery(food, lowerQuery)
  {
    IncludesEmpty(Lower(food.name));
    || Includes(Lower(food.name), lowerQuery)
    || (food.brand.Some? && food.brand.value != "" && Includes(Lower(food.brand.value), lowerQuery))
  }

  /** The `searchFood` fallback: the fallback foods matching the query, in their order. */
  function SearchFallback(foods: seq<Food>, query: string): (r: seq<Food>)
    ensures forall f :: f in r <==> f in foods && MatchesQuery(f, Lower(query))
    ensures |r| <= |foods|
  {
    var lowerQuery := Lower(query);
    Filter(foods, (f: Food) => MatchesQuery(f, lowerQuery))
  }

  /** The fallback search keeps the order of the fallback foods: searching a concatenation is
      concatenating the searches. */
  lemma SearchFallbackAppend(a: seq<Food>, b: seq<Food>, query: string)
    ensures SearchFallback(a + b, query) == SearchFallback(a, query) + SearchFallback(b, query)
  {
    var lowerQuery := Lower(query);
    FilterAppend(a, b, (f: Food) => MatchesQuery(f, lowerQuery));
  }

  /** An empty query matches every fallback food. */
  lemma SearchFallbackEmptyQuery(foods: seq<Food>)
    ensures SearchFallback(foods, "") == foods
  {
    forall k | 0 <= k < |foods| ensures MatchesQuery(foods[k], Lower("")) {
      IncludesEmpty(Lower(foods[k].name));
    }
    FilterKeepsAll(foods, (f: Food) => MatchesQuery(f, Lower("")));
  }

  /** `searchFood`: the backend's list (an absent one reads as empty), or the local fallback
      search when the backend call failed. */
  function SearchFood(response: Outcome<Option<seq<Food>>>, query: string, fallbackFoods: seq<Food>): (r: seq<Food>)
    ensures response.Failure? ==> r == SearchFallback(fallbackFoods, query)
    ensures response.Failure? ==> forall f :: f in r <==> f in fallbackFoods && MatchesQuery(f, Lower(query))
    ensures response.Success? ==> r == if response.data.Some? then response.data.value else []
  {
    match response
    case Success(data) => if data.Some? then data.value else []
    case Failure(_) => SearchFallback(fallbackFoods, query)
  }

  /** `scanBarcode`: the backend's food, or the first fallback food when the call failed. */
  function ScanBarcode(response: Outcome<Option<Food>>, fallbackFoods: seq<Food>): (r: Option<Food>)
    ensures response.Success? ==> r == response.data
    ensures response.Failure? ==> (r.None? <==> fallbackFoods == [])
    ensures response.Failure? && r.Some? ==> r.value == fallbackFoods[0]
  {
    match response
    case Success(data) => data
    case Failure(_) => if |fallbackFoods| > 0 then Some(fallbackFoods[0]) else None
  }

  // ----- the store invariant --------------------------------------------------

  /** Every stored log's totals equal the sum of its entries' contributions. */
  ghost predicate AllConsistent(logs: map<string, DailyNutrition>) {
    forall d :: d in logs ==> Consistent(logs[d])
  }

  lemma StoreConsistent(logs: map<string, DailyNutrition>, date: string, log: DailyNutrition)
    requires AllConsistent(logs) && Consistent(log)
    ensures AllConsistent(logs[date := log])
  {
  }

  /** The zeroed log of a missing date is consistent. */
  lemma EmptyLogConsistent(date: string)
    ensures Consistent(EmptyLog(date))
  {
    EmptyLogWellFormed(date);
  }

  /** Storing the fetched log, or a zeroed one when there is none, keeps every log consistent
      when the fetched log is. */
  lemma FetchedKeepsAll(logs: map<string, DailyNutrition>, date: string, data: Option<DailyNutrition>)
    requires AllConsistent(logs) && (data.Some? ==> Consistent(data.value))
    ensures AllConsistent(logs[date := if data.Some? then data.value else EmptyLog(date)])
  {
    if data.None? {
      EmptyLogConsistent(date);
    }
    StoreConsistent(logs, date, if data.Some? then data.value else EmptyLog(date));
  }

  /** Crediting an entry whose own contribution is the credited amount keeps every log
      consistent. */
  lemma CreditKeepsAll(logs: map<string, DailyNutrition>, date: string, log: DailyNutrition, mt: MealType, e: MealEntry)
    requires AllConsistent(logs) && Consistent(log)
    ensures AllConsistent(logs[date := Credit(log, mt, EntryContribution(e), e)])
  {
    CreditConsistent(log, mt, e);
    StoreConsistent(logs, date, Credit(log, mt, EntryContribution(e), e));
  }

  lemma UpdateKeepsAll(logs: map<string, DailyNutrition>, e: MealEntry)
    requires AllConsistent(logs) && e.date in logs
    ensures AllConsistent(logs[e.date := UpdateEntry(logs[e.date], e)])
  {
    UpdateEntryConsistent(logs[e.date], e);
    StoreConsistent(logs, e.date, UpdateEntry(logs[e.date], e));
  }

  lemma RemoveKeepsAll(logs: map<string, DailyNutrition>, date: string, id: string)
    requires AllConsistent(logs) && date in logs
    ensures AllConsistent(logs[date := RemoveEntry(logs[date], id)])
  {
    RemoveEntryConsistent(logs[date], id);
    StoreConsistent(logs, date, RemoveEntry(logs[date], id));
  }

  /** The store. `Valid()` says that every stored log is consistent and that the recent list
      is duplicate-free and at most 20 long. A log the backend returns, or an entry it
      returns, can break the first half; the actions say when they keep it. */
  class ApiNutritionStore {
    var dailyLogs: map<string, DailyNutrition>
    var recentFoods: seq<Food>
    var isLoading: bool
    var error: Option<string>

    ghost predicate Valid()
      reads this
    {
      LogsValid() && RecentValid()
    }

    ghost predicate LogsValid()
      reads this`dailyLogs
    {
      AllConsistent(dailyLogs)
    }

    ghost predicate RecentValid()
      reads this`recentFoods
    {
      DistinctIds(recentFoods) && |recentFoods| <= NutritionStore.RecentFoodsLimit
    }

    /** The initial state: no logs, no recent foods, not loading, no error. */
    constructor ()
      ensures Valid()
      ensures dailyLogs == map[] && recentFoods == [] && !isLoading && error == None
    {
      dailyLogs := map[];
      recentFoods := [];
      isLoading := false;
      error := None;
    }

    /** `getDailyNutrition(date)`: the stored log, or a zeroed one that is not stored. */
    function GetDailyNutrition(date: string): (r: DailyNutrition)
      reads this
      ensures date in dailyLogs ==> r == dailyLogs[date]
      ensures date !in dailyLogs ==> r.date == date && Totals(r) == Zero && forall mt :: r.meals.Get(mt) == []
      ensures LogsValid() ==> Consistent(r)
    {
      if date in dailyLogs then dailyLogs[date]
      else
        EmptyLogConsistent(date);
        EmptyLog(date)
    }

    /** `clearError()`. */
    method ClearError()
      modifies this
      ensures error == None
      ensures unchanged(this`dailyLogs, this`recentFoods, this`isLoading)
    {
      error := None;
    }

    /** `fetchDailyNutrition(date)`: stores the backend's log for the date (a zeroed one when the
        response has none); when the call fails, records the error and stores a zeroed log. */
    method FetchDailyNutrition(date: string, response: Outcome<Option<DailyNutrition>>)
      modifies this
      ensures !isLoading
      ensures response.Success? ==>
        && error == None
        && dailyLogs == old(dailyLogs)[date := if response.data.Some? then response.data.value else EmptyLog(date)]
      ensures response.Failure? ==>
        && error == Some(ErrorText(response.err, FetchFailedMessage))
        && dailyLogs == old(dailyLogs)[date := EmptyLog(date)]
      ensures unchanged(this`recentFoods)
      ensures old(LogsValid()) && (response.Success? && response.data.Some? ==> Consistent(response.data.value)) ==>
        LogsValid()
    {
      isLoading, error := true, None;
      match response
      case Success(data) =>
        StoreFetched(date, data);
        isLoading := false;
      case Failure(e) =>
        error, isLoading := Some(ErrorText(e, FetchFailedMessage)), false;
        StoreFetched(date, None);
    }

    /** `{ ...state.dailyLogs, [date]: data || createEmptyDailyNutrition(date) }` */
    method StoreFetched(date: string, data: Option<DailyNutrition>)
      modifies this`dailyLogs
      ensures dailyLogs == old(dailyLogs)[date := if data.Some? then data.value else EmptyLog(date)]
      ensures old(LogsValid()) && (data.Some? ==> Consistent(data.value)) ==> LogsValid()
    {
      if LogsValid() && (data.Some? ==> Consistent(data.value)) {
        FetchedKeepsAll(dailyLogs, date, data);
      }
      dailyLogs := dailyLogs[date := if data.Some? then data.value else EmptyLog(date)];
    }

    /** The state change of a successful `addMealEntry`: the totals gain the contribution of the
        argument, the entry the backend returned goes to the tail of the argument's meal list,
        and the recent list is updated. */
    method ApplyAddedEntry(entry: NewMealEntry, newEntry: MealEntry)
      modifies this
      ensures dailyLogs == old(dailyLogs)[entry.date :=
        Credit(old(GetDailyNutrition(entry.date)), entry.mealType, Contribution(entry.food, entry.quantity), newEntry)]
      ensures recentFoods == PushRecentDedup(old(recentFoods), entry.food)
      ensures !isLoading && unchanged(this`error)
      ensures old(LogsValid()) && EntryContribution(newEntry) == Contribution(entry.food, entry.quantity) ==> LogsValid()
      ensures old(RecentValid()) ==> RecentValid()
    {
      StoreCredited(entry.date, entry.mealType, Contribution(entry.food, entry.quantity), newEntry);
      StoreRecent(entry.food);
      isLoading := false;
    }

    /** The day's log (created empty when missing) gains `amount` on every total and `e` at the
        tail of the `mt` list. */
    method StoreCredited(date: string, mt: MealType, amount: Macros, e: MealEntry)
      modifies this`dailyLogs
      ensures dailyLogs == old(dailyLogs)[date := Credit(old(GetDailyNutrition(date)), mt, amount, e)]
      ensures old(LogsValid()) && EntryContribution(e) == amount ==> LogsValid()
    {
      var currentLog := GetDailyNutrition(date);
      if LogsValid() && EntryContribution(e) == amount {
        CreditKeepsAll(dailyLogs, date, currentLog, mt, e);
      }
      dailyLogs := dailyLogs[date := Credit(currentLog, mt, amount, e)];
    }

    /** The recent-foods update of `addMealEntry`. */
    method StoreRecent(food: Food)
      modifies this`recentFoods
      ensures recentFoods == PushRecentDedup(old(recentFoods), food)
      ensures old(RecentValid()) ==> RecentValid()
    {
      if RecentValid() {
        PushRecentDedupDistinct(recentFoods, food);
      }
      recentFoods := PushRecentDedup(recentFoods, food);
    }

    /** `addMealEntry(entry)`: on success applies the entry (see `ApplyAddedEntry`); on failure
        leaves the logs and recent list alone, records the error and rethrows it. */
    method AddMealEntry(entry: NewMealEntry, response: Outcome<MealEntry>) returns (thrown: Option<ApiError>)
      modifies this
      ensures !isLoading
      ensures response.Success? ==>
        && thrown == None && error == None
        && dailyLogs == old(dailyLogs)[entry.date :=
             Credit(old(GetDailyNutrition(entry.date)), entry.mealType, Contribution(entry.food, entry.quantity), response.data)]
        && Totals(dailyLogs[entry.date]) == Totals(old(GetDailyNutrition(entry.date))).Plus(Contribution(entry.food, entry.quantity))
        && dailyLogs[entry.date].meals.Get(entry.mealType) == old(GetDailyNutrition(entry.date)).meals.Get(entry.mealType) + [response.data]
        && recentFoods == PushRecentDedup(old(recentFoods), entry.food)
      ensures response.Failure? ==>
        && thrown == Some(response.err)
        && error == Some(ErrorText(response.err, AddFailedMessage))
        && dailyLogs == old(dailyLogs) && recentFoods == old(recentFoods)
      ensures old(Valid()) && (response.Success? ==> EntryContribution(response.data) == Contribution(entry.food, entry.quantity)) ==>
        Valid()
    {
      isLoading, error := true, None;
      match response
      case Success(newEntry) =>
        ApplyAddedEntry(entry, newEntry);
        thrown := None;
      case Failure(e) =>
        error, isLoading := Some(ErrorText(e, AddFailedMessage)), false;
        thrown := Some(e);
    }

    /** `updateMealEntry(entry)` after a successful backend call. A missing log or an id absent
        from the list of the entry's (new) meal type returns the state unchanged, so `isLoading`
        stays set; otherwise the entry is replaced in place and the totals move by new minus old. */
    method ApplyUpdatedEntry(entry: MealEntry)
      modifies this
      ensures entry.date !in old(dailyLogs) ==> dailyLogs == old(dailyLogs) && isLoading == old(isLoading)
      ensures entry.date in old(dailyLogs) ==>
        var log := old(dailyLogs)[entry.date];
        && dailyLogs == old(dailyLogs)[entry.date := UpdateEntry(log, entry)]
        && isLoading == (old(isLoading) && FindEntry(log.meals.Get(entry.mealType), entry.id) == -1)
      ensures unchanged(this`recentFoods, this`error)
      ensures old(LogsValid()) ==> LogsValid()
    {
      var date := entry.date;
      if date !in dailyLogs {
        return;
      }
      var currentLog := dailyLogs[date];
      var entryIndex := FindEntry(currentLog.meals.Get(entry.mealType), entry.id);
      if entryIndex == -1 {
        assert dailyLogs == dailyLogs[date := currentLog];
        return;
      }
      if LogsValid() {
        UpdateKeepsAll(dailyLogs, entry);
      }
      dailyLogs := dailyLogs[date := ReplaceAt(currentLog, entry.mealType, entryIndex, entry)];
      isLoading := false;
    }

    /** `updateMealEntry(entry)`: on success see `ApplyUpdatedEntry`; on failure leaves the logs
        alone, records the error and rethrows it. */
    method UpdateMealEntry(entry: MealEntry, failure: Option<ApiError>) returns (thrown: Option<ApiError>)
      modifies this
      ensures failure.None? ==> thrown == None && error == None
      ensures failure.None? && entry.date !in old(dailyLogs) ==> dailyLogs == old(dailyLogs) && isLoading
      ensures failure.None? && entry.date in old(dailyLogs) ==>
        var log := old(dailyLogs)[entry.date];
        && dailyLogs == old(dailyLogs)[entry.date := UpdateEntry(log, entry)]
        && isLoading == (FindEntry(log.meals.Get(entry.mealType), entry.id) == -1)
      ensures failure.Some? ==>
        && thrown == failure && !isLoading
        && error == Some(ErrorText(failure.value, UpdateFailedMessage))
        && dailyLogs == old(dailyLogs)
      ensures unchanged(this`recentFoods)
      ensures old(LogsValid()) ==> LogsValid()
    {
      isLoading, error := true, None;
      match failure
      case None =>
        ApplyUpdatedEntry(entry);
        thrown := None;
      case Some(e) =>
        error, isLoading := Some(ErrorText(e, UpdateFailedMessage)), false;
        thrown := Some(e);
    }

    /** `removeMealEntry(entryId, date)` after a successful backend call: a missing log returns
        the state unchanged, so `isLoading` stays set; otherwise the first entry with the id,
        scanning breakfast, lunch, dinner, snack, is removed and its contribution taken off. */
    method ApplyRemovedEntry(entryId: string, date: string)
      modifies this
      ensures date !in old(dailyLogs) ==> dailyLogs == old(dailyLogs) && isLoading == old(isLoading)
      ensures date in old(dailyLogs) ==>
        dailyLogs == old(dailyLogs)[date := RemoveEntry(old(dailyLogs)[date], entryId)] && !isLoading
      ensures unchanged(this`recentFoods, this`error)
      ensures old(LogsValid()) ==> LogsValid()
    {
      if date !in dailyLogs {
        return;
      }
      StoreRemoved(entryId, date);
      isLoading := false;
    }

    /** The stored log of `date` loses the first entry with the id. */
    method StoreRemoved(entryId: string, date: string)
      requires date in dailyLogs
      modifies this`dailyLogs
      ensures dailyLogs == old(dailyLogs)[date := RemoveEntry(old(dailyLogs)[date], entryId)]
      ensures old(LogsValid()) ==> LogsValid()
    {
      var updatedLog := RemoveFirstMatch(dailyLogs[date], entryId);
      if LogsValid() {
        RemoveKeepsAll(dailyLogs, date, entryId);
      }
      dailyLogs := dailyLogs[date := updatedLog];
    }

    /** `removeMealEntry(entryId, date)`: on success see `ApplyRemovedEntry`; on failure leaves
        the logs alone, records the error and rethrows it. */
    method RemoveMealEntry(entryId: string, date: string, failure: Option<ApiError>) returns (thrown: Option<ApiError>)
      modifies this
      ensures failure.None? ==> thrown == None && error == None
      ensures failure.None? && date !in old(dailyLogs) ==> dailyLogs == old(dailyLogs) && isLoading
      ensures failure.None? && date in old(dailyLogs) ==>
        dailyLogs == old(dailyLogs)[date := RemoveEntry(old(dailyLogs)[date], entryId)] && !isLoading
      ensures failure.Some? ==>
        && thrown == failure && !isLoading
        && error == Some(ErrorText(failure.value, RemoveFailedMessage))
        && dailyLogs == old(dailyLogs)
      ensures unchanged(this`recentFoods)
      ensures old(LogsValid()) ==> LogsValid()
    {
      isLoading, error := true, None;
      match failure
      case None =>
        ApplyRemovedEntry(entryId, date);
        thrown := None;
      case Some(e) =>
        error, isLoading := Some(ErrorText(e, RemoveFailedMessage)), false;
        thrown := Some(e);
    }
  }
}
