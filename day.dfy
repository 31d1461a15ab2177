/** The day record the screens work on, and the edits they make to it. A date
    without a stored record reads as a default day; an edit merges a partial
    update into the resolved day and upserts it by date. */
module Day {
  import opened Wrappers
  import opened Lists
  import opened Clock
  import opened Types
  import opened Metrics

  /** The slots of a day nothing has been logged on yet. */
  const DefaultSlots: seq<MealSlot> := [
    MealSlot("s1", "Breakfast", "08:00", "08:30", []),
    MealSlot("s2", "Lunch", "12:30", "13:00", []),
    MealSlot("s3", "Dinner", "19:00", "19:30", [])
  ]

  /** Most meal slots a day may hold. */
  const MaxSlots := 9

  /** The day a date without a stored record reads as: Breakfast, Lunch and
      Dinner with no food, and nothing else logged. */
  function DefaultDay(date: string): (d: DailyData)
    ensures d.date == date && d.activityRecords == [] && d.energyRecords == []
    ensures |d.mealSlots| == 3 && d.mealSlots[0].slotLabel == "Breakfast"
            && d.mealSlots[1].slotLabel == "Lunch" && d.mealSlots[2].slotLabel == "Dinner"
    ensures forall i :: 0 <= i < |d.mealSlots| ==> d.mealSlots[i].foodItems == []
  {
    DailyData(date, DefaultSlots, [], [])
  }

  /** `currentDayData`: the stored record for `date`, or a fresh default day
      that is not added to the collection. */
  function Resolve(records: seq<DailyData>, date: string): (d: DailyData)
    ensures d.date == date
    ensures (exists i :: 0 <= i < |records| && records[i].date == date) ==>
              d == records[IndexOfKey(records, DayDate, date).value]
    ensures (forall i :: 0 <= i < |records| ==> records[i].date != date) ==>
              && d.mealSlots == DefaultSlots
              && d.activityRecords == [] && d.energyRecords == []
  {
    FindByKey(records, DayDate, date).GetOr(DefaultDay(date))
  }

  /** The fields a screen replaces in the current day (`Partial<DailyData>`). */
  datatype DayPatch = DayPatch(
    mealSlots: Option<seq<MealSlot>>,
    activityRecords: Option<seq<ActivityRecord>>,
    energyRecords: Option<seq<EnergyRecord>>)

  function SlotsPatch(slots: seq<MealSlot>): DayPatch { DayPatch(Some(slots), None, None) }
  function ActivityPatch(records: seq<ActivityRecord>): DayPatch { DayPatch(None, Some(records), None) }
  function EnergyPatch(records: seq<EnergyRecord>): DayPatch { DayPatch(None, None, Some(records)) }

  /** `{ ...day, ...patch }`: the fields the patch names replace the day's. */
  function Merge(day: DailyData, patch: DayPatch): (r: DailyData)
    ensures r.date == day.date
    ensures patch.mealSlots.Some? ==> r.mealSlots == patch.mealSlots.value
    ensures patch.mealSlots.None? ==> r.mealSlots == day.mealSlots
    ensures patch.activityRecords.Some? ==> r.activityRecords == patch.activityRecords.value
    ensures patch.activityRecords.None? ==> r.activityRecords == day.activityRecords
    ensures patch.energyRecords.Some? ==> r.energyRecords == patch.energyRecords.value
    ensures patch.energyRecords.None? ==> r.energyRecords == day.energyRecords
  {
    DailyData(
      day.date,
      patch.mealSlots.GetOr(day.mealSlots),
      patch.activityRecords.GetOr(day.activityRecords),
      patch.energyRecords.GetOr(day.energyRecords))
  }

  /** The new record collection `updateCurrentDayData` computes. */
  function UpdateDay(records: seq<DailyData>, date: string, patch: DayPatch): (r: seq<DailyData>)
    ensures (exists i :: 0 <= i < |records| && records[i].date == date) ==>
              && |r| == |records|
              && var i := IndexOfKey(records, DayDate, date).value;
                 && r[i] == Merge(records[i], patch)
                 && forall j :: 0 <= j < |records| && j != i ==> r[j] == records[j]
    ensures (forall i :: 0 <= i < |records| ==> records[i].date != date) ==>
              r == records + [Merge(DefaultDay(date), patch)]
  {
    Upsert(records, Merge(Resolve(records, date), patch), DayDate)
  }

  /** After an update, the day resolves to the merged record. */
  lemma ResolveAfterUpdate(records: seq<DailyData>, date: string, patch: DayPatch)
    ensures Resolve(UpdateDay(records, date, patch), date) == Merge(Resolve(records, date), patch)
  {
    UpsertThenFind(records, Merge(Resolve(records, date), patch), DayDate);
  }

  /** An update of one date leaves every other date as it resolved before. */
  lemma ResolveOtherAfterUpdate(records: seq<DailyData>, date: string, patch: DayPatch, other: string)
    requires other != date
    ensures Resolve(UpdateDay(records, date, patch), other) == Resolve(records, other)
  {
    UpsertFindOther(records, Merge(Resolve(records, date), patch), DayDate, other);
  }

  /** Updates keep at most one record per date. */
  lemma UpdateKeepsDatesUnique(records: seq<DailyData>, date: string, patch: DayPatch)
    requires UniqueKeys(records, DayDate)
    ensures UniqueKeys(UpdateDay(records, date, patch), DayDate)
  {
    UpsertKeepsUnique(records, Merge(Resolve(records, date), patch), DayDate);
  }

  /** The number a string of decimal digits spells. */
  function DigitsValue(s: string): nat
    requires forall i :: 0 <= i < |s| ==> IsDigit(s[i])
  {
    if s == [] then 0 else DigitsValue(s[..|s| - 1]) * 10 + DigitValue(s[|s| - 1])
  }

  /** `n` in decimal, as a template literal writes it: digits that spell `n`,
      with no leading zero. */
  function Decimal(n: nat): (s: string)
    ensures |s| > 0 && forall i :: 0 <= i < |s| ==> IsDigit(s[i])
    ensures DigitsValue(s) == n
    ensures s[0] == '0' ==> n == 0
  {
    if n < 10 then [DigitChar(n)]
    else
      var prefix := Decimal(n / 10);
      var s := prefix + [DigitChar(n % 10)];
      assert s[..|s| - 1] == prefix;
      s
  }

  /** The "New Meal Slot" button: a new empty slot `Meal n+1` at the current
      time, unless the day already has nine or more slots. */
  function AddSlot(slots: seq<MealSlot>, id: string, now: string): (r: seq<MealSlot>)
    ensures |slots| >= MaxSlots ==> r == slots
    ensures |slots| < MaxSlots ==>
              && |r| == |slots| + 1 && r[..|slots|] == slots
              && r[|slots|] == MealSlot(id, "Meal " + [DigitChar(|slots| + 1)], now, now, [])
    ensures |r| <= MaxSlots || r == slots
  {
    if |slots| >= MaxSlots then slots
    else slots + [MealSlot(id, "Meal " + Decimal(|slots| + 1), now, now, [])]
  }

  /** The slot's delete button: every slot with that id goes, the rest stay. */
  function RemoveSlot(slots: seq<MealSlot>, id: string): (r: seq<MealSlot>)
    ensures forall s :: s in r <==> s in slots && s.id != id
  {
    RemoveKey(slots, SlotId, id)
  }

  datatype TimeField = StartTime | EndTime

  /** The time inputs of a slot: set its start or its end to `t`. */
  function SetSlotTime(slots: seq<MealSlot>, slotId: string, field: TimeField, t: string): (r: seq<MealSlot>)
    ensures |r| == |slots|
    ensures forall i :: 0 <= i < |slots| && slots[i].id != slotId ==> r[i] == slots[i]
    ensures forall i :: 0 <= i < |slots| && slots[i].id == slotId ==>
              && r[i].id == slots[i].id && r[i].slotLabel == slots[i].slotLabel
              && r[i].foodItems == slots[i].foodItems
              && r[i].startTime == (if field == StartTime then t else slots[i].startTime)
              && r[i].endTime == (if field == EndTime then t else slots[i].endTime)
  {
    seq(|slots|, i requires 0 <= i < |slots| =>
      if slots[i].id != slotId then slots[i]
      else if field == StartTime then slots[i].(startTime := t)
      else slots[i].(endTime := t))
  }

  /** The item logged when a food card is picked: its default weight and the
      calorie count rounded once, at this moment. */
  function NewFoodItem(food: FoodCard): (item: FoodItem)
    ensures item.foodCardId == food.id && item.weight == food.defaultWeight
    ensures var exact := food.defaultWeight * food.caloriesPer100g / 100.0;
      exact - 1.0 / 2.0 < item.calculatedCalories as real <= exact + 1.0 / 2.0
  {
    var weight := food.defaultWeight;
    FoodItem(food.id, weight, Round(weight * (food.caloriesPer100g / 100.0)))
  }

  /** Append the new item to every slot with id `slotId`. */
  function AddFood(slots: seq<MealSlot>, slotId: string, food: FoodCard): (r: seq<MealSlot>)
    ensures |r| == |slots|
    ensures forall i :: 0 <= i < |slots| && slots[i].id != slotId ==> r[i] == slots[i]
    ensures forall i :: 0 <= i < |slots| && slots[i].id == slotId ==>
              r[i] == slots[i].(foodItems := slots[i].foodItems + [NewFoodItem(food)])
  {
    seq(|slots|, i requires 0 <= i < |slots| =>
      if slots[i].id == slotId then slots[i].(foodItems := slots[i].foodItems + [NewFoodItem(food)])
      else slots[i])
  }

  /** `items.filter((_, i) => i !== idx)`. */
  function RemoveAt<T>(items: seq<T>, idx: int): (r: seq<T>)
    ensures 0 <= idx < |items| ==> |r| == |items| - 1
    ensures 0 <= idx < |items| ==> forall i :: 0 <= i < idx ==> r[i] == items[i]
    ensures 0 <= idx < |items| ==> forall i :: idx < i < |items| ==> r[i - 1] == items[i]
    ensures !(0 <= idx < |items|) ==> r == items
  {
    if 0 <= idx < |items| then items[..idx] + items[idx + 1..] else items
  }

  /** Delete item `idx` of every slot with id `slotId`. */
  function RemoveFoodItem(slots: seq<MealSlot>, slotId: string, idx: int): (r: seq<MealSlot>)
    ensures |r| == |slots|
    ensures forall i :: 0 <= i < |slots| && slots[i].id != slotId ==> r[i] == slots[i]
    ensures forall i :: 0 <= i < |slots| && slots[i].id == slotId ==>
              r[i] == slots[i].(foodItems := RemoveAt(slots[i].foodItems, idx))
  {
    seq(|slots|, i requires 0 <= i < |slots| =>
      if slots[i].id == slotId then slots[i].(foodItems := RemoveAt(slots[i].foodItems, idx))
      else slots[i])
  }

  /** How many slots carry id `slotId`. */
  function CountSlots(slots: seq<MealSlot>, slotId: string): nat {
    if slots == [] then 0
    else CountSlots(slots[..|slots| - 1], slotId) + (if slots[|slots| - 1].id == slotId then 1 else 0)
  }

  /** Adding food raises the day's calories by the new snapshot once per slot
      with that id: exactly once when slot ids are unique, not at all for an
      unknown slot. */
  lemma {:induction false} AddFoodCalories(slots: seq<MealSlot>, slotId: string, food: FoodCard)
    ensures DayCalories(AddFood(slots, slotId, food))
         == DayCalories(slots) + CountSlots(slots, slotId) * NewFoodItem(food).calculatedCalories
  {
    if slots != [] {
      var n := |slots| - 1;
      var r := AddFood(slots, slotId, food);
      AddFoodInit(slots, slotId, food);
      AddFoodCalories(slots[..n], slotId, food);
      assert DayCalories(r) == DayCalories(r[..n]) + SlotCalories(r[n]);
      CountStep(slots, slotId, NewFoodItem(food).calculatedCalories);
      if slots[n].id == slotId {
        SlotGainsItem(slots[n], NewFoodItem(food));
      }
    }
  }

  lemma CountStep(slots: seq<MealSlot>, slotId: string, k: int)
    requires slots != []
    ensures CountSlots(slots, slotId) * k
         == CountSlots(slots[..|slots| - 1], slotId) * k + (if slots[|slots| - 1].id == slotId then k else 0)
  {
    var c := CountSlots(slots[..|slots| - 1], slotId);
    if slots[|slots| - 1].id == slotId {
      assert CountSlots(slots, slotId) == c + 1;
      MulSucc(c, k);
    }
  }

  lemma MulSucc(c: int, k: int)
    ensures (c + 1) * k == c * k + k
  {
  }

  lemma AddFoodInit(slots: seq<MealSlot>, slotId: string, food: FoodCard)
    requires slots != []
    ensures AddFood(slots, slotId, food)[..|slots| - 1] == AddFood(slots[..|slots| - 1], slotId, food)
  {
    var n := |slots| - 1;
    var r, q := AddFood(slots, slotId, food), AddFood(slots[..n], slotId, food);
    forall i | 0 <= i < n ensures r[..n][i] == q[i] {
      assert slots[..n][i] == slots[i];
    }
  }

  /** A slot's calories grow by the snapshot of the item appended to it. */
  lemma SlotGainsItem(slot: MealSlot, item: FoodItem)
    ensures SlotCalories(slot.(foodItems := slot.foodItems + [item])) == SlotCalories(slot) + item.calculatedCalories
  {
    SumConcat(slot.foodItems, [item], ItemCalories);
    SumOfTriple(item, item, item, ItemCalories);
  }

  /** Removing item `idx` lowers the day's calories by that item's snapshot once
      per slot with that id. */
  lemma {:induction false} RemoveFoodItemCalories(slots: seq<MealSlot>, slotId: string, idx: int)
    requires forall i :: 0 <= i < |slots| && slots[i].id == slotId ==> 0 <= idx < |slots[i].foodItems|
    ensures DayCalories(RemoveFoodItem(slots, slotId, idx))
         == DayCalories(slots) - RemovedCalories(slots, slotId, idx)
  {
    if slots != [] {
      var n := |slots| - 1;
      var r := RemoveFoodItem(slots, slotId, idx);
      assert r[..n] == RemoveFoodItem(slots[..n], slotId, idx);
      RemoveFoodItemCalories(slots[..n], slotId, idx);
      if slots[n].id == slotId {
        var items := slots[n].foodItems;
        assert items == items[..idx] + [items[idx]] + items[idx + 1..];
        SumConcat(items[..idx] + [items[idx]], items[idx + 1..], ItemCalories);
        SumConcat(items[..idx], [items[idx]], ItemCalories);
        SumConcat(items[..idx], items[idx + 1..], ItemCalories);
        SumOfTriple(items[idx], items[idx], items[idx], ItemCalories);
      }
    }
  }

  /** The calories of item `idx` summed over the slots with id `slotId`. */
  function RemovedCalories(slots: seq<MealSlot>, slotId: string, idx: int): int
    requires forall i :: 0 <= i < |slots| && slots[i].id == slotId ==> 0 <= idx < |slots[i].foodItems|
  {
    if slots == [] then 0
    else
      var last := slots[|slots| - 1];
      RemovedCalories(slots[..|slots| - 1], slotId, idx)
        + (if last.id == slotId then last.foodItems[idx].calculatedCalories else 0)
  }

  /** `card.defaultDuration || 30`. */
  function DefaultDuration(card: ActivityCard): (minutes: int)
    ensures card.defaultDuration.Some? && card.defaultDuration.value != 0 ==> minutes == card.defaultDuration.value
    ensures card.defaultDuration.None? || card.defaultDuration.value == 0 ==> minutes == 30
  {
    match card.defaultDuration
    case Some(d) => if d != 0 then d else 30
    case None => 30
  }

  /** `handleAddActivity`: log the card at the current time, or nothing at all
      (`None`) when the card is not in the pool. */
  function AddActivity(records: seq<ActivityRecord>, pool: seq<ActivityCard>, cardId: string,
                       date: string, id: string, now: string): (r: Option<seq<ActivityRecord>>)
    ensures r.None? <==> forall i :: 0 <= i < |pool| ==> pool[i].id != cardId
    ensures r.Some? ==>
              && |r.value| == |records| + 1 && r.value[..|records|] == records
              && var rec := r.value[|records|];
                 && rec == ActivityRecord(id, date, cardId, now, now, rec.duration)
                 && rec.duration == DefaultDuration(FindByKey(pool, ActivityCardId, cardId).value) as real
  {
    match FindByKey(pool, ActivityCardId, cardId)
    case None => None
    case Some(card) => Some(records + [ActivityRecord(id, date, cardId, now, now, DefaultDuration(card) as real)])
  }

  /** The fields an activity row edits (`{ ...r, ...updates }`). */
  datatype ActivityEdit = ActivityEdit(startTime: Option<string>, endTime: Option<string>, duration: Option<real>)

  function UpdateActivity(records: seq<ActivityRecord>, id: string, edit: ActivityEdit): (r: seq<ActivityRecord>)
    ensures |r| == |records|
    ensures forall i :: 0 <= i < |records| && records[i].id != id ==> r[i] == records[i]
    ensures forall i :: 0 <= i < |records| && records[i].id == id ==>
              && r[i].id == id && r[i].date == records[i].date
              && r[i].activityCardId == records[i].activityCardId
              && r[i].startTime == edit.startTime.GetOr(records[i].startTime)
              && r[i].endTime == edit.endTime.GetOr(records[i].endTime)
              && r[i].duration == edit.duration.GetOr(records[i].duration)
  {
    seq(|records|, i requires 0 <= i < |records| =>
      var rec := records[i];
      if rec.id != id then rec
      else rec.(startTime := edit.startTime.GetOr(rec.startTime),
                endTime := edit.endTime.GetOr(rec.endTime),
                duration := edit.duration.GetOr(rec.duration)))
  }

  function RemoveActivity(records: seq<ActivityRecord>, id: string): (r: seq<ActivityRecord>)
    ensures forall a :: a in r <==> a in records && a.id != id
  {
    RemoveKey(records, ActivityRecordId, id)
  }

  /** A tap on an energy level: append a record stamped with the current time. */
  function LogEnergy(records: seq<EnergyRecord>, id: string, date: string, now: string, level: int): (r: seq<EnergyRecord>)
    ensures |r| == |records| + 1 && r[..|records|] == records
    ensures r[|records|] == EnergyRecord(id, date, now, level)
  {
    records + [EnergyRecord(id, date, now, level)]
  }

  function RemoveEnergy(records: seq<EnergyRecord>, id: string): (r: seq<EnergyRecord>)
    ensures forall e :: e in r <==> e in records && e.id != id
  {
    RemoveKey(records, EnergyRecordId, id)
  }

  /** `getFastingData` of the fasting screen: the eating window of the stored
      record for `date`, with no stored record reading as no meals. */
  function FastingData(records: seq<DailyData>, date: string): (w: Window)
    ensures w.duration == w.end - w.start
    ensures (forall i :: 0 <= i < |records| ==> records[i].date != date) ==> w == Window(0, 0, 0)
  {
    match FindByKey(records, DayDate, date)
    case Some(d) => EatingWindow(d.mealSlots)
    case None => EatingWindow([])
  }

  /** The fasting screen and the nutrition screen agree on the day: the window
      of the stored record, or of the empty default day. */
  lemma FastingDataOfResolvedDay(records: seq<DailyData>, date: string)
    ensures FastingData(records, date) == EatingWindow(Resolve(records, date).mealSlots)
    ensures (forall i :: 0 <= i < |records| ==> records[i].date != date) ==>
              FastingData(records, date) == Window(0, 0, 0)
  {
    var found := FindByKey(records, DayDate, date);
    if found.None? {
      assert Resolve(records, date) == DefaultDay(date);
      assert forall i :: 0 <= i < |DefaultSlots| ==> DefaultSlots[i].foodItems == [];
      assert EatingWindow(DefaultSlots) == Window(0, 0, 0);
      assert FastingData(records, date) == EatingWindow([]);
    } else {
      assert Resolve(records, date) == found.value;
    }
  }
}
