/** The daily nutrition ledger: how meal entries roll up into the four running totals of a
    `DailyNutrition` record, and the three edits (add, remove, update) that both nutrition
    stores apply to one day's log. Each edit moves the totals by a delta instead of
    recomputing them; the lemmas show that the deltas keep every total equal to the sum of
    `food.macro * quantity` over the entries. */
module Ledger {
  import opened Common
  import opened Types

  /** The four macro amounts, as one value. */
  datatype Macros = Macros(calories: real, protein: real, carbs: real, fat: real)
  {
    function Plus(o: Macros): Macros {
      Macros(calories + o.calories, protein + o.protein, carbs + o.carbs, fat + o.fat)
    }

    function Minus(o: Macros): Macros {
      Macros(calories - o.calories, protein - o.protein, carbs - o.carbs, fat - o.fat)
    }
  }

  const Zero: Macros := Macros(0.0, 0.0, 0.0, 0.0)

  /** `food.calories * quantity`, `food.protein * quantity`, ... */
  function Contribution(food: Food, quantity: real): Macros {
    Macros(food.calories * quantity, food.protein * quantity, food.carbs * quantity, food.fat * quantity)
  }

  function EntryContribution(e: MealEntry): Macros {
    Contribution(e.food, e.quantity)
  }

  /** The sum of the contributions of a list of entries. */
  function Sum(entries: seq<MealEntry>): Macros
    decreases |entries|
  {
    if entries == [] then Zero
    else Sum(entries[..|entries| - 1]).Plus(EntryContribution(entries[|entries| - 1]))
  }

  /** The sum of the contributions over all four meal lists. */
  function MealsTotal(m: Meals): Macros {
    Sum(m.breakfast).Plus(Sum(m.lunch)).Plus(Sum(m.dinner)).Plus(Sum(m.snack))
  }

  /** The four running totals stored in a log. */
  function Totals(log: DailyNutrition): Macros {
    Macros(log.calories, log.protein, log.carbs, log.fat)
  }

  /** The ledger invariant: every running total equals the sum of the entry contributions. */
  ghost predicate Consistent(log: DailyNutrition) {
    Totals(log) == MealsTotal(log.meals)
  }

  /** Every entry of the log carries the log's date and sits in the list of its own meal type. */
  ghost predicate Filed(log: DailyNutrition) {
    forall mt: MealType, i: int :: 0 <= i < |log.meals.Get(mt)| ==>
      log.meals.Get(mt)[i].date == log.date && log.meals.Get(mt)[i].mealType == mt
  }

  /** What a locally kept store keeps true of the log it stores under key `date`. */
  ghost predicate WellFormed(date: string, log: DailyNutrition) {
    log.date == date && Consistent(log) && Filed(log)
  }

  /** Replaces the running totals of a log. */
  function WithTotals(log: DailyNutrition, t: Macros): (r: DailyNutrition)
    ensures Totals(r) == t && r.date == log.date && r.meals == log.meals
  {
    log.(calories := t.calories, protein := t.protein, carbs := t.carbs, fat := t.fat)
  }

  // ----- creation -------------------------------------------------------------

  /** `createEmptyDailyNutrition(date)`. */
  function EmptyLog(date: string): (r: DailyNutrition)
    ensures r.date == date
    ensures Totals(r) == Zero
    ensures forall mt :: r.meals.Get(mt) == []
  {
    DailyNutrition(date, 0.0, 0.0, 0.0, 0.0, Meals([], [], [], []))
  }

  /** A fresh log satisfies the ledger invariant. */
  lemma EmptyLogWellFormed(date: string)
    ensures WellFormed(date, EmptyLog(date))
  {
    var r := EmptyLog(date);
    var none: seq<MealEntry> := [];
    assert r.meals == Meals(none, none, none, none);
    assert Sum(none) == Zero;
    assert MealsTotal(r.meals) == Zero.Plus(Zero).Plus(Zero).Plus(Zero);
  }

  // ----- add ------------------------------------------------------------------

  /** Adds `amount` to the totals and appends `e` to the tail of the `mt` list. */
  function Credit(log: DailyNutrition, mt: MealType, amount: Macros, e: MealEntry): (r: DailyNutrition)
    ensures r.date == log.date
    ensures Totals(r) == Totals(log).Plus(amount)
    ensures r.meals.Get(mt) == log.meals.Get(mt) + [e]
    ensures forall other :: other != mt ==> r.meals.Get(other) == log.meals.Get(other)
  {
    WithTotals(log, Totals(log).Plus(amount)).(meals := log.meals.With(mt, log.meals.Get(mt) + [e]))
  }

  // ----- search ---------------------------------------------------------------

  /** `entries.findIndex(e => e.id === id)`. */
  function FindEntry(entries: seq<MealEntry>, id: string): (r: int)
    ensures -1 <= r < |entries|
    ensures r == -1 <==> forall i :: 0 <= i < |entries| ==> entries[i].id != id
    ensures r >= 0 ==> entries[r].id == id && forall i :: 0 <= i < r ==> entries[i].id != id
  {
    IndexWhere(entries, (e: MealEntry) => e.id == id)
  }

  /** The first meal type in `order` whose list holds `id`, with the index of the first such
      entry in that list: the `for ... break` scan of `removeMealEntry`. */
  function LocateFrom(m: Meals, id: string, order: seq<MealType>): (r: Option<(MealType, int)>)
    ensures r.None? <==> forall k :: 0 <= k < |order| ==> FindEntry(m.Get(order[k]), id) == -1
    ensures r.Some? ==> 0 <= r.value.1 < |m.Get(r.value.0)| && r.value.1 == FindEntry(m.Get(r.value.0), id)
    decreases |order|
  {
    if order == [] then None
    else
      var i := FindEntry(m.Get(order[0]), id);
      if i != -1 then Some((order[0], i)) else LocateFrom(m, id, order[1..])
  }

  /** The scan stops at the first meal type in `order` whose list holds `id`, at the first
      index of `id` in that list. */
  lemma {:induction false} LocateFromFirst(m: Meals, id: string, order: seq<MealType>, j: int)
    requires 0 <= j < |order| && FindEntry(m.Get(order[j]), id) != -1
    requires forall k :: 0 <= k < j ==> FindEntry(m.Get(order[k]), id) == -1
    ensures LocateFrom(m, id, order) == Some((order[j], FindEntry(m.Get(order[j]), id)))
    decreases |order|
  {
    if j > 0 {
      var rest := order[1..];
      forall k | 0 <= k < j - 1 ensures FindEntry(m.Get(rest[k]), id) == -1 {
        assert rest[k] == order[k + 1];
      }
      assert rest[j - 1] == order[j];
      LocateFromFirst(m, id, rest, j - 1);
    }
  }

  function Locate(m: Meals, id: string): Option<(MealType, int)> {
    LocateFrom(m, id, MealOrder)
  }

  /** When `id` is held by the list of `mt` only, the scan finds it there, at its first index. */
  lemma {:induction false} LocateFromOnly(m: Meals, id: string, order: seq<MealType>, mt: MealType)
    requires mt in order
    requires FindEntry(m.Get(mt), id) != -1
    requires forall k :: 0 <= k < |order| && order[k] != mt ==> FindEntry(m.Get(order[k]), id) == -1
    ensures LocateFrom(m, id, order) == Some((mt, FindEntry(m.Get(mt), id)))
    decreases |order|
  {
    if order[0] != mt {
      assert mt in order[1..];
      LocateFromOnly(m, id, order[1..], mt);
    }
  }

  // ----- remove ---------------------------------------------------------------

  /** Subtracts the contribution of the entry at `i` of the `mt` list and splices it out. */
  function RemoveAt(log: DailyNutrition, mt: MealType, i: int): (r: DailyNutrition)
    requires 0 <= i < |log.meals.Get(mt)|
    ensures r.date == log.date
    ensures Totals(r) == Totals(log).Minus(EntryContribution(log.meals.Get(mt)[i]))
    ensures r.meals.Get(mt) == log.meals.Get(mt)[..i] + log.meals.Get(mt)[i + 1..]
    ensures |r.meals.Get(mt)| == |log.meals.Get(mt)| - 1
    ensures forall other :: other != mt ==> r.meals.Get(other) == log.meals.Get(other)
  {
    var s := log.meals.Get(mt);
    WithTotals(log, Totals(log).Minus(EntryContribution(s[i]))).(meals := log.meals.With(mt, s[..i] + s[i + 1..]))
  }

  /** The local-state part of `removeMealEntry` on one day's log: the first entry with `id`,
      scanning breakfast, lunch, dinner, snack in that order, is removed; no match is a no-op. */
  function RemoveEntry(log: DailyNutrition, id: string): (r: DailyNutrition)
    ensures r.date == log.date
    ensures (forall mt :: FindEntry(log.meals.Get(mt), id) == -1) ==> r == log
    ensures Locate(log.meals, id).Some? ==>
      var (mt, i) := Locate(log.meals, id).value;
      && log.meals.Get(mt)[i].id == id
      && r == RemoveAt(log, mt, i)
  {
    match Locate(log.meals, id)
    case None => log
    case Some((mt, i)) => RemoveAt(log, mt, i)
  }

  /** The loop of `removeMealEntry`: walks the meal types in order and, at the first list that
      holds `id`, splices that entry out of `updatedLog` and stops. */
  method RemoveFirstMatch(currentLog: DailyNutrition, entryId: string) returns (updatedLog: DailyNutrition)
    ensures updatedLog == RemoveEntry(currentLog, entryId)
  {
    updatedLog := currentLog;
    for k := 0 to |MealOrder|
      invariant LocateFrom(currentLog.meals, entryId, MealOrder[k..]) == Locate(currentLog.meals, entryId)
      invariant updatedLog == currentLog
    {
      var mealType := MealOrder[k];
      var entryIndex := FindEntry(currentLog.meals.Get(mealType), entryId);
      assert MealOrder[k..][1..] == MealOrder[k + 1..];
      if entryIndex != -1 {
        updatedLog := RemoveAt(updatedLog, mealType, entryIndex);
        return;
      }
    }
  }

  // ----- update ---------------------------------------------------------------

  /** Moves the totals by (new contribution - old contribution) and overwrites the entry at `i`
      of the `mt` list with `e`. */
  function ReplaceAt(log: DailyNutrition, mt: MealType, i: int, e: MealEntry): (r: DailyNutrition)
    requires 0 <= i < |log.meals.Get(mt)|
    ensures r.date == log.date
    ensures Totals(r) == Totals(log).Minus(EntryContribution(log.meals.Get(mt)[i])).Plus(EntryContribution(e))
    ensures r.meals.Get(mt) == log.meals.Get(mt)[i := e]
    ensures forall other :: other != mt ==> r.meals.Get(other) == log.meals.Get(other)
  {
    var s := log.meals.Get(mt);
    WithTotals(log, Totals(log).Minus(EntryContribution(s[i])).Plus(EntryContribution(e))).(meals := log.meals.With(mt, s[i := e]))
  }

  /** The local-state part of `updateMealEntry` on one day's log. Only the list of the entry's
      NEW meal type is searched, so an entry whose meal type changed is not found and nothing
      changes. */
  function UpdateEntry(log: DailyNutrition, e: MealEntry): (r: DailyNutrition)
    ensures FindEntry(log.meals.Get(e.mealType), e.id) == -1 ==> r == log
    ensures FindEntry(log.meals.Get(e.mealType), e.id) != -1 ==>
      r == ReplaceAt(log, e.mealType, FindEntry(log.meals.Get(e.mealType), e.id), e)
  {
    var i := FindEntry(log.meals.Get(e.mealType), e.id);
    if i == -1 then log else ReplaceAt(log, e.mealType, i, e)
  }

  // ----- sums -----------------------------------------------------------------

  /** The linear arithmetic on macro amounts that the list lemmas reduce to. */
  lemma Algebra(a: Macros, x: Macros, y: Macros, c: Macros)
    ensures a.Plus(x).Plus(y) == a.Plus(x.Plus(y))
    ensures a.Plus(c) == a.Plus(x).Plus(c).Minus(x)
    ensures a.Plus(y).Plus(c) == a.Plus(x).Plus(c).Minus(x).Plus(y)
    ensures a.Plus(c) == a.Minus(x).Plus(x.Plus(c))
    ensures a.Minus(c) == a.Minus(x).Plus(x.Minus(c))
    ensures a.Minus(c).Plus(y) == a.Minus(x).Plus(x.Minus(c).Plus(y))
    ensures a.Plus(x).Minus(x) == a
  {
  }

  lemma {:induction false} SumAppend(a: seq<MealEntry>, b: seq<MealEntry>)
    ensures Sum(a + b) == Sum(a).Plus(Sum(b))
    decreases |b|
  {
    if b == [] {
      assert a + b == a;
    } else {
      var b' := b[..|b| - 1];
      var x := EntryContribution(b[|b| - 1]);
      assert (a + b)[..|a + b| - 1] == a + b';
      assert (a + b)[|a + b| - 1] == b[|b| - 1];
      assert Sum(a + b) == Sum(a + b').Plus(x);
      SumAppend(a, b');
      assert Sum(b) == Sum(b').Plus(x);
      Algebra(Sum(a), Sum(b'), x, Zero);
    }
  }

  lemma SumSingle(e: MealEntry)
    ensures Sum([e]) == EntryContribution(e)
  {
    assert [e][..0] == [];
  }

  /** The sum of a list split around position `i`. */
  lemma SumSplit(s: seq<MealEntry>, i: int)
    requires 0 <= i < |s|
    ensures Sum(s) == Sum(s[..i]).Plus(EntryContribution(s[i])).Plus(Sum(s[i + 1..]))
  {
    var a, c := s[..i], s[i + 1..];
    assert s == (a + [s[i]]) + c;
    SumAppend(a + [s[i]], c);
    SumAppend(a, [s[i]]);
    SumSingle(s[i]);
  }

  /** Splicing out one entry takes exactly its contribution off the sum. */
  lemma SumRemoveAt(s: seq<MealEntry>, i: int)
    requires 0 <= i < |s|
    ensures Sum(s[..i] + s[i + 1..]) == Sum(s).Minus(EntryContribution(s[i]))
  {
    SumSplit(s, i);
    SumAppend(s[..i], s[i + 1..]);
    Algebra(Sum(s[..i]), EntryContribution(s[i]), Zero, Sum(s[i + 1..]));
  }

  /** Overwriting one entry moves the sum by the difference of the two contributions. */
  lemma SumReplaceAt(s: seq<MealEntry>, i: int, e: MealEntry)
    requires 0 <= i < |s|
    ensures Sum(s[i := e]) == Sum(s).Minus(EntryContribution(s[i])).Plus(EntryContribution(e))
  {
    var t := s[i := e];
    assert t[..i] == s[..i] && t[i + 1..] == s[i + 1..];
    SumSplit(s, i);
    SumSplit(t, i);
    Algebra(Sum(s[..i]), EntryContribution(s[i]), EntryContribution(e), Sum(s[i + 1..]));
  }

  /** The four ways of swapping one term of a four-term total. */
  lemma SwapTerm4(b: Macros, l: Macros, d: Macros, n: Macros, t: Macros)
    ensures t.Plus(l).Plus(d).Plus(n) == b.Plus(l).Plus(d).Plus(n).Minus(b).Plus(t)
    ensures b.Plus(t).Plus(d).Plus(n) == b.Plus(l).Plus(d).Plus(n).Minus(l).Plus(t)
    ensures b.Plus(l).Plus(t).Plus(n) == b.Plus(l).Plus(d).Plus(n).Minus(d).Plus(t)
    ensures b.Plus(l).Plus(d).Plus(t) == b.Plus(l).Plus(d).Plus(n).Minus(n).Plus(t)
  {
  }

  /** Replacing one meal list moves the grand total by the difference of the two list sums. */
  lemma MealsTotalWith(m: Meals, mt: MealType, s: seq<MealEntry>)
    ensures MealsTotal(m.With(mt, s)) == MealsTotal(m).Minus(Sum(m.Get(mt))).Plus(Sum(s))
  {
    var b, l, d, n, t := Sum(m.breakfast), Sum(m.lunch), Sum(m.dinner), Sum(m.snack), Sum(s);
    SwapTerm4(b, l, d, n, t);
    match mt
    case Breakfast =>
      assert MealsTotal(m.With(mt, s)) == t.Plus(l).Plus(d).Plus(n);
    case Lunch =>
      assert MealsTotal(m.With(mt, s)) == b.Plus(t).Plus(d).Plus(n);
    case Dinner =>
      assert MealsTotal(m.With(mt, s)) == b.Plus(l).Plus(t).Plus(n);
    case Snack =>
      assert MealsTotal(m.With(mt, s)) == b.Plus(l).Plus(d).Plus(t);
  }

  // ----- the ledger invariant -------------------------------------------------

  /** Crediting the entry's own contribution keeps the log consistent. */
  lemma CreditConsistent(log: DailyNutrition, mt: MealType, e: MealEntry)
    requires Consistent(log)
    ensures Consistent(Credit(log, mt, EntryContribution(e), e))
  {
    var r := Credit(log, mt, EntryContribution(e), e);
    var s, x := log.meals.Get(mt), EntryContribution(e);
    assert r.meals == log.meals.With(mt, s + [e]);
    MealsTotalWith(log.meals, mt, s + [e]);
    SumAppend(s, [e]);
    SumSingle(e);
    Algebra(Totals(log), Sum(s), Zero, x);
  }

  lemma RemoveAtConsistent(log: DailyNutrition, mt: MealType, i: int)
    requires Consistent(log)
    requires 0 <= i < |log.meals.Get(mt)|
    ensures Consistent(RemoveAt(log, mt, i))
  {
    var s := log.meals.Get(mt);
    assert RemoveAt(log, mt, i).meals == log.meals.With(mt, s[..i] + s[i + 1..]);
    MealsTotalWith(log.meals, mt, s[..i] + s[i + 1..]);
    SumRemoveAt(s, i);
    Algebra(Totals(log), Sum(s), Zero, EntryContribution(s[i]));
  }

  lemma ReplaceAtConsistent(log: DailyNutrition, mt: MealType, i: int, e: MealEntry)
    requires Consistent(log)
    requires 0 <= i < |log.meals.Get(mt)|
    ensures Consistent(ReplaceAt(log, mt, i, e))
  {
    var s := log.meals.Get(mt);
    assert ReplaceAt(log, mt, i, e).meals == log.meals.With(mt, s[i := e]);
    MealsTotalWith(log.meals, mt, s[i := e]);
    SumReplaceAt(s, i, e);
    Algebra(Totals(log), Sum(s), EntryContribution(e), EntryContribution(s[i]));
  }

  lemma RemoveEntryConsistent(log: DailyNutrition, id: string)
    requires Consistent(log)
    ensures Consistent(RemoveEntry(log, id))
  {
    match Locate(log.meals, id)
    case None =>
    case Some((mt, i)) => RemoveAtConsistent(log, mt, i);
  }

  lemma UpdateEntryConsistent(log: DailyNutrition, e: MealEntry)
    requires Consistent(log)
    ensures Consistent(UpdateEntry(log, e))
  {
    var i := FindEntry(log.meals.Get(e.mealType), e.id);
    if i != -1 {
      ReplaceAtConsistent(log, e.mealType, i, e);
    }
  }

  /** A log whose entries are filed under their own date and meal type stays so when an entry
      with that date and meal type is appended to the list of its meal type. */
  lemma CreditFiled(log: DailyNutrition, e: MealEntry)
    requires Filed(log) && e.date == log.date
    ensures Filed(Credit(log, e.mealType, EntryContribution(e), e))
  {
    var r := Credit(log, e.mealType, EntryContribution(e), e);
    forall mt: MealType, i: int | 0 <= i < |r.meals.Get(mt)|
      ensures r.meals.Get(mt)[i].date == r.date && r.meals.Get(mt)[i].mealType == mt
    {
      if mt == e.mealType && i == |log.meals.Get(mt)| {
      } else {
        assert r.meals.Get(mt)[i] == log.meals.Get(mt)[i];
      }
    }
  }

  lemma RemoveAtFiled(log: DailyNutrition, mt0: MealType, k: int)
    requires Filed(log) && 0 <= k < |log.meals.Get(mt0)|
    ensures Filed(RemoveAt(log, mt0, k))
  {
    var r := RemoveAt(log, mt0, k);
    forall mt: MealType, i: int | 0 <= i < |r.meals.Get(mt)|
      ensures r.meals.Get(mt)[i].date == r.date && r.meals.Get(mt)[i].mealType == mt
    {
      var s := log.meals.Get(mt);
      if mt == mt0 {
        assert r.meals.Get(mt)[i] == if i < k then s[i] else s[i + 1];
      } else {
        assert r.meals.Get(mt)[i] == s[i];
      }
    }
  }

  lemma RemoveEntryFiled(log: DailyNutrition, id: string)
    requires Filed(log)
    ensures Filed(RemoveEntry(log, id))
  {
    match Locate(log.meals, id)
    case None =>
    case Some((mt0, k)) => RemoveAtFiled(log, mt0, k);
  }

  lemma UpdateEntryFiled(log: DailyNutrition, e: MealEntry)
    requires Filed(log) && e.date == log.date
    ensures Filed(UpdateEntry(log, e))
  {
    var r := UpdateEntry(log, e);
    forall mt: MealType, i: int | 0 <= i < |r.meals.Get(mt)|
      ensures r.meals.Get(mt)[i].date == r.date && r.meals.Get(mt)[i].mealType == mt
    {
      if mt != e.mealType {
        assert r.meals.Get(mt) == log.meals.Get(mt);
      }
    }
  }

  // ----- round trip -----------------------------------------------------------

  /** Two logs with the same date, totals and lists are the same log. */
  lemma LogExtensionality(a: DailyNutrition, b: DailyNutrition)
    requires a.date == b.date && Totals(a) == Totals(b)
    requires forall mt :: a.meals.Get(mt) == b.meals.Get(mt)
    ensures a == b
  {
    assert a.meals.breakfast == a.meals.Get(Breakfast) == b.meals.Get(Breakfast);
    assert a.meals.lunch == a.meals.Get(Lunch) == b.meals.Get(Lunch);
    assert a.meals.dinner == a.meals.Get(Dinner) == b.meals.Get(Dinner);
    assert a.meals.snack == a.meals.Get(Snack) == b.meals.Get(Snack);
  }

  /** Appending an entry whose id the list lacks puts the first match at the end. */
  lemma AppendedFoundLast(s: seq<MealEntry>, e: MealEntry)
    requires FindEntry(s, e.id) == -1
    ensures FindEntry(s + [e], e.id) == |s|
  {
    assert (s + [e])[|s|] == e;
    assert forall j :: 0 <= j < |s| ==> (s + [e])[j] == s[j];
  }

  /** After crediting an entry whose id is in none of the lists, the scan finds it at the end
      of its meal list. */
  lemma CreditedLocated(log: DailyNutrition, mt: MealType, e: MealEntry)
    requires forall t :: FindEntry(log.meals.Get(t), e.id) == -1
    ensures var c := Credit(log, mt, EntryContribution(e), e);
      Locate(c.meals, e.id) == Some((mt, |log.meals.Get(mt)|))
  {
    var c := Credit(log, mt, EntryContribution(e), e);
    AppendedFoundLast(log.meals.Get(mt), e);
    assert forall k :: 0 <= k < |MealOrder| && MealOrder[k] != mt ==>
      FindEntry(c.meals.Get(MealOrder[k]), e.id) == -1;
    assert mt in MealOrder;
    LocateFromOnly(c.meals, e.id, MealOrder, mt);
  }

  /** Adding an entry whose id is in none of the day's lists and then removing that id gives
      back exactly the log before the add: the same totals and the same four lists. */
  lemma AddThenRemove(log: DailyNutrition, mt: MealType, e: MealEntry)
    requires forall t :: FindEntry(log.meals.Get(t), e.id) == -1
    ensures RemoveEntry(Credit(log, mt, EntryContribution(e), e), e.id) == log
  {
    var c := Credit(log, mt, EntryContribution(e), e);
    var s := log.meals.Get(mt);
    CreditedLocated(log, mt, e);
    var r := RemoveAt(c, mt, |s|);
    assert r.meals.Get(mt) == s by {
      assert (s + [e])[..|s|] + (s + [e])[|s| + 1..] == s;
    }
    assert Totals(r) == Totals(log) by {
      Algebra(Totals(log), EntryContribution(e), Zero, Zero);
    }
    LogExtensionality(r, log);
  }
}
