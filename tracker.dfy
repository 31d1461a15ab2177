/** The application state: the four collections the app keeps (and persists)
    and the handlers that replace them. Every handler for the selected day
    resolves the day, edits one of its lists and writes the day back through
    `UpdateCurrentDayData`. */
module Tracker {
  import opened Wrappers
  import opened Lists
  import opened Types
  import opened Day

  /** `findIndex(x => key(x) === k)`: the first index with key `k`, or -1. */
  method FindIndex<T, K(==)>(xs: seq<T>, key: T -> K, k: K) returns (idx: int)
    ensures -1 <= idx < |xs|
    ensures idx == -1 <==> forall i :: 0 <= i < |xs| ==> key(xs[i]) != k
    ensures idx >= 0 ==> key(xs[idx]) == k && forall i :: 0 <= i < idx ==> key(xs[i]) != k
    ensures idx >= 0 ==> IndexOfKey(xs, key, k) == Some(idx as nat)
  {
    var i := 0;
    while i < |xs|
      invariant 0 <= i <= |xs|
      invariant forall j :: 0 <= j < i ==> key(xs[j]) != k
    {
      if key(xs[i]) == k {
        return i;
      }
      i := i + 1;
    }
    return -1;
  }

  /** The save pattern: find the element with the same key, copy the array and
      overwrite that entry, or append when there is none. */
  method Upserted<T, K(==)>(xs: seq<T>, x: T, key: T -> K) returns (next: seq<T>)
    ensures next == Upsert(xs, x, key)
  {
    var idx := FindIndex(xs, key, key(x));
    if idx > -1 {
      next := xs;
      next := next[idx := x];
    } else {
      next := xs + [x];
    }
  }

  class AppState {
    var foodPool: seq<FoodCard>
    var activityPool: seq<ActivityCard>
    var dailyRecords: seq<DailyData>
    var chartSlots: seq<ChartConfig>

    /** Every collection is keyed: no two food cards, activity cards, chart
        slots or day records share an id (a date for a day). */
    ghost predicate Valid()
      reads this
    {
      && UniqueKeys(foodPool, FoodCardId)
      && UniqueKeys(activityPool, ActivityCardId)
      && UniqueKeys(dailyRecords, DayDate)
      && UniqueKeys(chartSlots, ChartId)
    }

    /** The state of a first run: the seed cards, no records, the default charts. */
    constructor FirstRun()
      ensures foodPool == InitialFoodCards && activityPool == InitialActivityCards
      ensures dailyRecords == [] && chartSlots == InitialChartSlots
      ensures Valid()
    {
      foodPool := InitialFoodCards;
      activityPool := InitialActivityCards;
      dailyRecords := [];
      chartSlots := InitialChartSlots;
    }

    /** Start-up: each collection is its saved value when there is one, and
        its first-run value otherwise. */
    constructor Load(savedFood: Option<seq<FoodCard>>, savedActivities: Option<seq<ActivityCard>>,
                     savedRecords: Option<seq<DailyData>>, savedCharts: Option<seq<ChartConfig>>)
      ensures foodPool == savedFood.GetOr(InitialFoodCards)
      ensures activityPool == savedActivities.GetOr(InitialActivityCards)
      ensures dailyRecords == savedRecords.GetOr([])
      ensures chartSlots == savedCharts.GetOr(InitialChartSlots)
    {
      foodPool := savedFood.GetOr(InitialFoodCards);
      activityPool := savedActivities.GetOr(InitialActivityCards);
      dailyRecords := savedRecords.GetOr([]);
      chartSlots := savedCharts.GetOr(InitialChartSlots);
    }

    /** `updateCurrentDayData`: merge `patch` into the resolved day and write it
        back in place of the stored record, or append it. The selected day then
        reads as the merged day and every other day reads as before. */
    method UpdateCurrentDayData(date: string, patch: DayPatch)
      modifies this
      ensures dailyRecords == UpdateDay(old(dailyRecords), date, patch)
      ensures foodPool == old(foodPool) && activityPool == old(activityPool) && chartSlots == old(chartSlots)
      ensures Resolve(dailyRecords, date) == Merge(old(Resolve(dailyRecords, date)), patch)
      ensures forall d :: d != date ==> Resolve(dailyRecords, d) == old(Resolve(dailyRecords, d))
      ensures old(Valid()) ==> Valid()
    {
      var before := dailyRecords;
      var idx := FindIndex(dailyRecords, DayDate, date);
      var updated := Merge(Resolve(dailyRecords, date), patch);
      if idx > -1 {
        var next := dailyRecords;
        next := next[idx := updated];
        dailyRecords := next;
      } else {
        dailyRecords := dailyRecords + [updated];
      }
      ResolveAfterUpdate(before, date, patch);
      forall d | d != date ensures Resolve(dailyRecords, d) == Resolve(before, d) {
        ResolveOtherAfterUpdate(before, date, patch, d);
      }
      if UniqueKeys(before, DayDate) {
        UpdateKeepsDatesUnique(before, date, patch);
      }
    }

    /** `handleAddActivity`: nothing happens for a card that is not in the pool. */
    method AddActivity(date: string, cardId: string, id: string, now: string)
      modifies this
      ensures var added := Day.AddActivity(old(Resolve(dailyRecords, date)).activityRecords, old(activityPool), cardId, date, id, now);
              && (added.None? ==> dailyRecords == old(dailyRecords))
              && (added.Some? ==> dailyRecords == UpdateDay(old(dailyRecords), date, ActivityPatch(added.value)))
      ensures foodPool == old(foodPool) && activityPool == old(activityPool) && chartSlots == old(chartSlots)
      ensures old(Valid()) ==> Valid()
    {
      var added := Day.AddActivity(Resolve(dailyRecords, date).activityRecords, activityPool, cardId, date, id, now);
      if added.Some? {
        UpdateCurrentDayData(date, ActivityPatch(added.value));
      }
    }

    /** `onAddSlot`: a day already holding nine slots is left alone. */
    method AddSlot(date: string, id: string, now: string)
      modifies this
      ensures var slots := old(Resolve(dailyRecords, date)).mealSlots;
              && (|slots| >= MaxSlots ==> dailyRecords == old(dailyRecords))
              && (|slots| < MaxSlots ==> dailyRecords == UpdateDay(old(dailyRecords), date, SlotsPatch(Day.AddSlot(slots, id, now))))
      ensures foodPool == old(foodPool) && activityPool == old(activityPool) && chartSlots == old(chartSlots)
      ensures old(Valid()) ==> Valid()
    {
      var slots := Resolve(dailyRecords, date).mealSlots;
      if |slots| >= MaxSlots {
        return;
      }
      UpdateCurrentDayData(date, SlotsPatch(Day.AddSlot(slots, id, now)));
    }

    method RemoveSlot(date: string, id: string)
      modifies this
      ensures dailyRecords == UpdateDay(old(dailyRecords), date,
                                SlotsPatch(Day.RemoveSlot(old(Resolve(dailyRecords, date)).mealSlots, id)))
      ensures foodPool == old(foodPool) && activityPool == old(activityPool) && chartSlots == old(chartSlots)
      ensures old(Valid()) ==> Valid()
    {
      UpdateCurrentDayData(date, SlotsPatch(Day.RemoveSlot(Resolve(dailyRecords, date).mealSlots, id)));
    }

    method UpdateSlotTime(date: string, slotId: string, field: TimeField, t: string)
      modifies this
      ensures dailyRecords == UpdateDay(old(dailyRecords), date,
                                SlotsPatch(SetSlotTime(old(Resolve(dailyRecords, date)).mealSlots, slotId, field, t)))
      ensures foodPool == old(foodPool) && activityPool == old(activityPool) && chartSlots == old(chartSlots)
      ensures old(Valid()) ==> Valid()
    {
      UpdateCurrentDayData(date, SlotsPatch(SetSlotTime(Resolve(dailyRecords, date).mealSlots, slotId, field, t)));
    }

    method AddFood(date: string, slotId: string, food: FoodCard)
      modifies this
      ensures dailyRecords == UpdateDay(old(dailyRecords), date,
                                SlotsPatch(Day.AddFood(old(Resolve(dailyRecords, date)).mealSlots, slotId, food)))
      ensures foodPool == old(foodPool) && activityPool == old(activityPool) && chartSlots == old(chartSlots)
      ensures old(Valid()) ==> Valid()
    {
      UpdateCurrentDayData(date, SlotsPatch(Day.AddFood(Resolve(dailyRecords, date).mealSlots, slotId, food)));
    }

    method RemoveFoodItem(date: string, slotId: string, idx: int)
      modifies this
      ensures dailyRecords == UpdateDay(old(dailyRecords), date,
                                SlotsPatch(Day.RemoveFoodItem(old(Resolve(dailyRecords, date)).mealSlots, slotId, idx)))
      ensures foodPool == old(foodPool) && activityPool == old(activityPool) && chartSlots == old(chartSlots)
      ensures old(Valid()) ==> Valid()
    {
      UpdateCurrentDayData(date, SlotsPatch(Day.RemoveFoodItem(Resolve(dailyRecords, date).mealSlots, slotId, idx)));
    }

    method UpdateActivity(date: string, id: string, edit: ActivityEdit)
      modifies this
      ensures dailyRecords == UpdateDay(old(dailyRecords), date,
                                ActivityPatch(Day.UpdateActivity(old(Resolve(dailyRecords, date)).activityRecords, id, edit)))
      ensures foodPool == old(foodPool) && activityPool == old(activityPool) && chartSlots == old(chartSlots)
      ensures old(Valid()) ==> Valid()
    {
      UpdateCurrentDayData(date, ActivityPatch(Day.UpdateActivity(Resolve(dailyRecords, date).activityRecords, id, edit)));
    }

    method RemoveActivity(date: string, id: string)
      modifies this
      ensures dailyRecords == UpdateDay(old(dailyRecords), date,
                                ActivityPatch(Day.RemoveActivity(old(Resolve(dailyRecords, date)).activityRecords, id)))
      ensures foodPool == old(foodPool) && activityPool == old(activityPool) && chartSlots == old(chartSlots)
      ensures old(Valid()) ==> Valid()
    {
      UpdateCurrentDayData(date, ActivityPatch(Day.RemoveActivity(Resolve(dailyRecords, date).activityRecords, id)));
    }

    method LogEnergy(date: string, id: string, now: string, level: int)
      modifies this
      ensures dailyRecords == UpdateDay(old(dailyRecords), date,
                                EnergyPatch(Day.LogEnergy(old(Resolve(dailyRecords, date)).energyRecords, id, date, now, level)))
      ensures foodPool == old(foodPool) && activityPool == old(activityPool) && chartSlots == old(chartSlots)
      ensures old(Valid()) ==> Valid()
    {
      UpdateCurrentDayData(date, EnergyPatch(Day.LogEnergy(Resolve(dailyRecords, date).energyRecords, id, date, now, level)));
    }

    method RemoveEnergyRecord(date: string, id: string)
      modifies this
      ensures dailyRecords == UpdateDay(old(dailyRecords), date,
                                EnergyPatch(RemoveEnergy(old(Resolve(dailyRecords, date)).energyRecords, id)))
      ensures foodPool == old(foodPool) && activityPool == old(activityPool) && chartSlots == old(chartSlots)
      ensures old(Valid()) ==> Valid()
    {
      UpdateCurrentDayData(date, EnergyPatch(RemoveEnergy(Resolve(dailyRecords, date).energyRecords, id)));
    }

    /** `onSaveFood`: replace the card with the same id, or add it. */
    method SaveFood(food: FoodCard)
      modifies this
      ensures foodPool == Upsert(old(foodPool), food, FoodCardId)
      ensures activityPool == old(activityPool) && dailyRecords == old(dailyRecords) && chartSlots == old(chartSlots)
      ensures old(Valid()) ==> Valid()
    {
      if UniqueKeys(foodPool, FoodCardId) {
        UpsertKeepsUnique(foodPool, food, FoodCardId);
      }
      foodPool := Upserted(foodPool, food, FoodCardId);
    }

    method RemoveFood(id: string)
      modifies this
      ensures foodPool == RemoveKey(old(foodPool), FoodCardId, id)
      ensures activityPool == old(activityPool) && dailyRecords == old(dailyRecords) && chartSlots == old(chartSlots)
      ensures old(Valid()) ==> Valid()
    {
      if UniqueKeys(foodPool, FoodCardId) {
        FilterKeepsUnique(foodPool, KeyIsNot(FoodCardId, id), FoodCardId);
      }
      foodPool := RemoveKey(foodPool, FoodCardId, id);
    }

    /** `onSaveActivity` of the card pool. */
    method SaveActivityCard(card: ActivityCard)
      modifies this
      ensures activityPool == Upsert(old(activityPool), card, ActivityCardId)
      ensures foodPool == old(foodPool) && dailyRecords == old(dailyRecords) && chartSlots == old(chartSlots)
      ensures old(Valid()) ==> Valid()
    {
      if UniqueKeys(activityPool, ActivityCardId) {
        UpsertKeepsUnique(activityPool, card, ActivityCardId);
      }
      activityPool := Upserted(activityPool, card, ActivityCardId);
    }

    method RemoveActivityCard(id: string)
      modifies this
      ensures activityPool == RemoveKey(old(activityPool), ActivityCardId, id)
      ensures foodPool == old(foodPool) && dailyRecords == old(dailyRecords) && chartSlots == old(chartSlots)
      ensures old(Valid()) ==> Valid()
    {
      if UniqueKeys(activityPool, ActivityCardId) {
        FilterKeepsUnique(activityPool, KeyIsNot(ActivityCardId, id), ActivityCardId);
      }
      activityPool := RemoveKey(activityPool, ActivityCardId, id);
    }

    /** The chart editor's save: replace the slot with the same id, or add it. */
    method SaveChart(chart: ChartConfig)
      modifies this
      ensures chartSlots == Upsert(old(chartSlots), chart, ChartId)
      ensures foodPool == old(foodPool) && activityPool == old(activityPool) && dailyRecords == old(dailyRecords)
      ensures old(Valid()) ==> Valid()
    {
      if UniqueKeys(chartSlots, ChartId) {
        UpsertKeepsUnique(chartSlots, chart, ChartId);
      }
      chartSlots := Upserted(chartSlots, chart, ChartId);
    }

    method RemoveChart(id: string)
      modifies this
      ensures chartSlots == RemoveKey(old(chartSlots), ChartId, id)
      ensures foodPool == old(foodPool) && activityPool == old(activityPool) && dailyRecords == old(dailyRecords)
      ensures old(Valid()) ==> Valid()
    {
      if UniqueKeys(chartSlots, ChartId) {
        FilterKeepsUnique(chartSlots, KeyIsNot(ChartId, id), ChartId);
      }
      chartSlots := RemoveKey(chartSlots, ChartId, id);
    }
  }
}
