/** The locally persisted nutrition store (store/nutrition-store.ts): a map from date string
    to that day's log, and a most-recently-used list of foods. Id and timestamp generation
    (`Date.now`, `Math.random`, `new Date()`) are parameters of the actions. */
module NutritionStore {
  import opened Common
  import opened Types
  import opened Ledger

  /** The most foods `addRecentFood` keeps when it adds a food that is not in the list yet. */
  const RecentFoodsLimit: int := 20

  /** `foods.findIndex(item => item.id === id)`. */
  function FoodIndex(foods: seq<Food>, id: string): (r: int)
    ensures -1 <= r < |foods|
    ensures r == -1 <==> forall i :: 0 <= i < |foods| ==> foods[i].id != id
    ensures r >= 0 ==> foods[r].id == id && forall i :: 0 <= i < r ==> foods[i].id != id
  {
    IndexWhere(foods, (f: Food) => f.id == id)
  }

  /** `[food, ...recent.slice(0, i), ...recent.slice(i + 1)]`: the food at the front, the item at `i`
      dropped, the others in order. */
  function MoveToFront(recent: seq<Food>, i: int, food: Food): (r: seq<Food>)
    requires 0 <= i < |recent|
    ensures |r| == |recent| && r[0] == food
    ensures forall k :: 1 <= k <= i ==> r[k] == recent[k - 1]
    ensures forall k :: i < k < |r| ==> r[k] == recent[k]
  {
    [food] + recent[..i] + recent[i + 1..]
  }

  /** `addRecentFood`: a food already in the list moves to the front (the stored copy is
      replaced by `food`); a new food is put at the front and the list is cut to 20. */
  function PushRecent(recent: seq<Food>, food: Food): (r: seq<Food>)
    ensures |r| >= 1 && r[0] == food
    ensures FoodIndex(recent, food.id) != -1 ==> |r| == |recent|
    ensures FoodIndex(recent, food.id) == -1 ==>
      |r| == if |recent| + 1 < RecentFoodsLimit then |recent| + 1 else RecentFoodsLimit
    ensures |recent| <= RecentFoodsLimit ==> |r| <= RecentFoodsLimit
    ensures forall k :: 1 <= k < |r| ==> r[k] in recent
    ensures FoodIndex(recent, food.id) == -1 ==> r[1..] <= recent
    ensures FoodIndex(recent, food.id) != -1 ==>
      forall k :: 0 <= k < |recent| && recent[k].id != food.id ==> recent[k] in r
    ensures FoodIndex(recent, food.id) != -1 ==> r == MoveToFront(recent, FoodIndex(recent, food.id), food)
  {
    var i := FoodIndex(recent, food.id);
    if i != -1 then
      var r := MoveToFront(recent, i, food);
      assert forall k :: 0 <= k < |recent| && k != i ==> recent[k] == r[if k < i then k + 1 else k];
      r
    else
      var r := SliceTo([food] + recent, RecentFoodsLimit);
      assert forall k :: 1 <= k < |r| ==> r[k] == recent[k - 1];
      r
  }

  /** Moving a food to the front of a duplicate-free list, over the copy with its id, keeps the
      list duplicate-free. */
  lemma MoveToFrontDistinct(recent: seq<Food>, i: int, food: Food)
    requires DistinctIds(recent) && 0 <= i < |recent| && recent[i].id == food.id
    ensures DistinctIds(MoveToFront(recent, i, food))
  {
    var r := MoveToFront(recent, i, food);
    forall a, b | 0 <= a < b < |r| ensures r[a].id != r[b].id {
      var b' := if b <= i then b - 1 else b;
      assert r[b] == recent[b'] && b' != i;
      if a > 0 {
        var a' := if a <= i then a - 1 else a;
        assert r[a] == recent[a'] && a' < b';
      }
    }
  }

  /** Putting a food whose id the list lacks in front of a duplicate-free list, and cutting
      the result, keeps it duplicate-free. */
  lemma PushNewDistinct(recent: seq<Food>, food: Food)
    requires DistinctIds(recent) && FoodIndex(recent, food.id) == -1
    ensures DistinctIds(SliceTo([food] + recent, RecentFoodsLimit))
  {
    var r := SliceTo([food] + recent, RecentFoodsLimit);
    forall a, b | 0 <= a < b < |r| ensures r[a].id != r[b].id {
      assert r[b] == recent[b - 1];
      if a > 0 { assert r[a] == recent[a - 1]; }
    }
  }

  /** `addRecentFood` keeps the recent list free of duplicate ids. */
  lemma PushRecentDistinct(recent: seq<Food>, food: Food)
    requires DistinctIds(recent)
    ensures DistinctIds(PushRecent(recent, food))
  {
    var i := FoodIndex(recent, food.id);
    if i != -1 {
      MoveToFrontDistinct(recent, i, food);
    } else {
      PushNewDistinct(recent, food);
    }
  }

  /** Every stored log is well formed and filed under its own date. */
  ghost predicate AllWellFormed(logs: map<string, DailyNutrition>) {
    forall d :: d in logs ==> WellFormed(d, logs[d])
  }

  /** Storing a well-formed log keeps every stored log well formed. */
  lemma StoreWellFormed(logs: map<string, DailyNutrition>, date: string, log: DailyNutrition)
    requires AllWellFormed(logs) && WellFormed(date, log)
    ensures AllWellFormed(logs[date := log])
  {
  }

  /** `addMealEntry` keeps every stored log well formed. */
  lemma CreditKeepsAll(logs: map<string, DailyNutrition>, log: DailyNutrition, e: MealEntry)
    requires AllWellFormed(logs) && WellFormed(e.date, log)
    ensures AllWellFormed(logs[e.date := Credit(log, e.mealType, EntryContribution(e), e)])
  {
    CreditConsistent(log, e.mealType, e);
    CreditFiled(log, e);
    StoreWellFormed(logs, e.date, Credit(log, e.mealType, EntryContribution(e), e));
  }

  /** `removeMealEntry` keeps every stored log well formed. */
  lemma RemoveKeepsAll(logs: map<string, DailyNutrition>, date: string, id: string)
    requires AllWellFormed(logs) && date in logs
    ensures AllWellFormed(logs[date := RemoveEntry(logs[date], id)])
  {
    RemoveEntryConsistent(logs[date], id);
    RemoveEntryFiled(logs[date], id);
    StoreWellFormed(logs, date, RemoveEntry(logs[date], id));
  }

  /** `updateMealEntry` keeps every stored log well formed. */
  lemma UpdateKeepsAll(logs: map<string, DailyNutrition>, e: MealEntry)
    requires AllWellFormed(logs) && e.date in logs
    ensures AllWellFormed(logs[e.date := UpdateEntry(logs[e.date], e)])
  {
    UpdateEntryConsistent(logs[e.date], e);
    UpdateEntryFiled(logs[e.date], e);
    StoreWellFormed(logs, e.date, UpdateEntry(logs[e.date], e));
  }

  /** Re-adding the food that was just added changes nothing. */
  lemma PushRecentIdempotent(recent: seq<Food>, food: Food)
    ensures PushRecent(PushRecent(recent, food), food) == PushRecent(recent, food)
  {
    var r := PushRecent(recent, food);
    assert FoodIndex(r, food.id) == 0;
    assert MoveToFront(r, 0, food) == r;
  }

  /** The store. `Valid()` is the ledger invariant for every stored day, and no food twice in
      the recent list. */
  class LocalNutritionStore {
    var dailyLogs: map<string, DailyNutrition>
    var recentFoods: seq<Food>

    ghost predicate Valid()
      reads this
    {
      LogsValid() && RecentValid()
    }

    ghost predicate LogsValid()
      reads this`dailyLogs
    {
      AllWellFormed(dailyLogs)
    }

    ghost predicate RecentValid()
      reads this`recentFoods
    {
      DistinctIds(recentFoods)
    }

    /** The initial state: no logs, no recent foods. */
    constructor ()
      ensures Valid()
      ensures dailyLogs == map[] && recentFoods == []
    {
      dailyLogs := map[];
      recentFoods := [];
    }

    /** `getDailyNutrition(date)`: the stored log, or a zeroed one that is not stored. */
    function GetDailyNutrition(date: string): (r: DailyNutrition)
      reads this
      ensures date in dailyLogs ==> r == dailyLogs[date]
      ensures date !in dailyLogs ==> r.date == date && Totals(r) == Zero && forall mt :: r.meals.Get(mt) == []
      ensures Valid() ==> WellFormed(date, r)
    {
      if date in dailyLogs then dailyLogs[date]
      else
        EmptyLogWellFormed(date);
        EmptyLog(date)
    }

    /** `addRecentFood(food)`. */
    method AddRecentFood(food: Food)
      requires Valid()
      modifies this
      ensures Valid()
      ensures recentFoods == PushRecent(old(recentFoods), food)
      ensures unchanged(this`dailyLogs)
    {
      PushRecentDistinct(recentFoods, food);
      recentFoods := PushRecent(recentFoods, food);
    }

    /** The `set` half of `addMealEntry`: the day's log (created empty when missing) gains
        `food.macro * quantity` on every total and the new entry at the tail of its meal list. */
    method LogMealEntry(e: MealEntry)
      requires Valid()
      modifies this
      ensures Valid()
      ensures dailyLogs == old(dailyLogs)[e.date := Credit(old(GetDailyNutrition(e.date)), e.mealType, EntryContribution(e), e)]
      ensures unchanged(this`recentFoods)
    {
      var currentLog := GetDailyNutrition(e.date);
      CreditKeepsAll(dailyLogs, currentLog, e);
      dailyLogs := dailyLogs[e.date := Credit(currentLog, e.mealType, EntryContribution(e), e)];
    }

    /** `addMealEntry`: logs the entry built from the arguments, whose id and creation time are
        given, then records the food as recent. */
    method AddMealEntry(date: string, food: Food, quantity: real, mealType: MealType, id: string, createdAt: string)
      requires Valid()
      modifies this
      ensures Valid()
      ensures var e := MealEntry(id, food, quantity, mealType, date, createdAt);
        dailyLogs == old(dailyLogs)[date := Credit(old(GetDailyNutrition(date)), mealType, EntryContribution(e), e)]
      ensures Totals(dailyLogs[date]) == Totals(old(GetDailyNutrition(date))).Plus(Contribution(food, quantity))
      ensures recentFoods == PushRecent(old(recentFoods), food)
    {
      LogMealEntry(MealEntry(id, food, quantity, mealType, date, createdAt));
      AddRecentFood(food);
    }

    /** `removeMealEntry`: scans breakfast, lunch, dinner, snack and removes the first entry with
        the id, taking its contribution off the totals. A missing log or id changes nothing. */
    method RemoveMealEntry(entryId: string, date: string)
      requires Valid()
      modifies this
      ensures Valid()
      ensures date !in old(dailyLogs) ==> dailyLogs == old(dailyLogs)
      ensures date in old(dailyLogs) ==>
        dailyLogs == old(dailyLogs)[date := RemoveEntry(old(dailyLogs)[date], entryId)]
      ensures unchanged(this`recentFoods)
    {
      if date !in dailyLogs {
        return;
      }
      var updatedLog := RemoveFirstMatch(dailyLogs[date], entryId);
      RemoveKeepsAll(dailyLogs, date, entryId);
      dailyLogs := dailyLogs[date := updatedLog];
    }

    /** `updateMealEntry`: looks the id up in the list of the entry's meal type only; when found,
        the entry is overwritten in place and the totals move by new minus old contribution. */
    method UpdateMealEntry(updatedEntry: MealEntry)
      requires Valid()
      modifies this
      ensures Valid()
      ensures updatedEntry.date !in old(dailyLogs) ==> dailyLogs == old(dailyLogs)
      ensures updatedEntry.date in old(dailyLogs) ==>
        dailyLogs == old(dailyLogs)[updatedEntry.date := UpdateEntry(old(dailyLogs)[updatedEntry.date], updatedEntry)]
      ensures unchanged(this`recentFoods)
    {
      var date := updatedEntry.date;
      if date !in dailyLogs {
        return;
      }
      var currentLog := dailyLogs[date];
      UpdateKeepsAll(dailyLogs, updatedEntry);
      dailyLogs := dailyLogs[date := UpdateEntry(currentLog, updatedEntry)];
    }
  }
}
