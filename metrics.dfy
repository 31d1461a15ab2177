/** The figures the day screens show, recomputed from the raw records on every
    render: calories eaten, calories burned, average energy and the eating
    window, plus the clamp on the eating-window arc. */
module Metrics {
  import opened Wrappers
  import opened Lists
  import opened Clock
  import opened Types

  function ItemCalories(i: FoodItem): int { i.calculatedCalories }

  /** Calories logged in one slot: the sum of its items' snapshots. An empty
      slot counts 0, and snapshots that are never negative never sum below 0. */
  function SlotCalories(s: MealSlot): (kcal: int)
    ensures s.foodItems == [] ==> kcal == 0
    ensures (forall i :: 0 <= i < |s.foodItems| ==> s.foodItems[i].calculatedCalories >= 0) ==> kcal >= 0
  {
    SumOfNonNegative(s.foodItems, ItemCalories);
    SumOf(s.foodItems, ItemCalories)
  }

  /** `totalCals` of the nutrition screen: the sum over slots of the slot sums;
      never negative when no snapshot is. */
  function DayCalories(slots: seq<MealSlot>): (kcal: int)
    ensures (forall i, j :: 0 <= i < |slots| && 0 <= j < |slots[i].foodItems| ==>
               slots[i].foodItems[j].calculatedCalories >= 0) ==> kcal >= 0
  {
    SumOfNonNegative(slots, SlotCalories);
    SumOf(slots, SlotCalories)
  }

  /** Every food item of the given slots, slot by slot. */
  function AllItems(slots: seq<MealSlot>): (items: seq<FoodItem>)
    ensures forall s :: s in slots ==> forall i :: i in s.foodItems ==> i in items
    ensures forall i :: i in items ==> exists s :: s in slots && i in s.foodItems
  {
    if slots == [] then []
    else AllItems(slots[..|slots| - 1]) + slots[|slots| - 1].foodItems
  }

  /** The nested sum is the plain sum of every logged item. */
  lemma {:induction false} DayCaloriesIsItemSum(slots: seq<MealSlot>)
    ensures DayCalories(slots) == SumOf(AllItems(slots), ItemCalories)
  {
    if slots != [] {
      var init := slots[..|slots| - 1];
      DayCaloriesIsItemSum(init);
      SumConcat(AllItems(init), slots[|slots| - 1].foodItems, ItemCalories);
    }
  }

  /** A day without any food item has eaten 0 calories. */
  lemma {:induction false} NoFoodNoCalories(slots: seq<MealSlot>)
    requires forall i :: 0 <= i < |slots| ==> slots[i].foodItems == []
    ensures DayCalories(slots) == 0
  {
    SumOfZeros(slots, SlotCalories);
  }

  /** One slot with items of 120 and 80 kcal and another with 200 kcal: 400 kcal. */
  lemma CaloriesExample()
    ensures DayCalories([
      MealSlot("s1", "Breakfast", "08:00", "08:30", [FoodItem("f1", 200.0, 120), FoodItem("f2", 50.0, 80)]),
      MealSlot("s2", "Lunch", "12:30", "13:00", [FoodItem("f2", 120.0, 200)])]) == 400
  {
    var i1, i2, i3 := FoodItem("f1", 200.0, 120), FoodItem("f2", 50.0, 80), FoodItem("f2", 120.0, 200);
    var b := MealSlot("s1", "Breakfast", "08:00", "08:30", [i1, i2]);
    var l := MealSlot("s2", "Lunch", "12:30", "13:00", [i3]);
    SumOfTriple(i1, i2, i2, ItemCalories);
    SumOfTriple(i3, i3, i3, ItemCalories);
    SumOfTriple(b, l, l, SlotCalories);
  }

  /** `card?.calorieBurnRate || 0` for the first card with the record's card id. */
  function BurnRate(pool: seq<ActivityCard>, cardId: string): (rate: real)
    ensures (forall i :: 0 <= i < |pool| ==> pool[i].id != cardId) ==> rate == 0.0
    ensures FindByKey(pool, ActivityCardId, cardId).Some? ==>
              rate == FindByKey(pool, ActivityCardId, cardId).value.calorieBurnRate.GetOr(0.0)
  {
    match FindByKey(pool, ActivityCardId, cardId)
    case Some(card) => card.calorieBurnRate.GetOr(0.0)
    case None => 0.0
  }

  /** What one activity record adds to `totalBurned`: duration times burn rate. */
  function BurnOf(pool: seq<ActivityCard>): ActivityRecord -> real {
    (r: ActivityRecord) => r.duration * BurnRate(pool, r.activityCardId)
  }

  /** `totalBurned` of the activity screen: nothing is burned when no record's
      card has a rate. */
  function Burned(records: seq<ActivityRecord>, pool: seq<ActivityCard>): (kcal: real)
    ensures (forall i :: 0 <= i < |records| ==> BurnRate(pool, records[i].activityCardId) == 0.0) ==> kcal == 0.0
  {
    RealSumOfZeros(records, BurnOf(pool));
    RealSumOf(records, BurnOf(pool))
  }

  /** A record whose card has left the pool adds nothing to the calories burned. */
  lemma UnknownCardBurnsNothing(records: seq<ActivityRecord>, pool: seq<ActivityCard>, r: ActivityRecord)
    requires forall i :: 0 <= i < |pool| ==> pool[i].id != r.activityCardId
    ensures Burned(records + [r], pool) == Burned(records, pool)
  {
    assert (records + [r])[..|records + [r]| - 1] == records;
  }

  /** With no negative durations or rates, nothing burns negative calories. */
  lemma BurnedNonNegative(records: seq<ActivityRecord>, pool: seq<ActivityCard>)
    requires forall i :: 0 <= i < |records| ==> records[i].duration >= 0.0
    requires forall i :: 0 <= i < |pool| ==> pool[i].calorieBurnRate.GetOr(0.0) >= 0.0
    ensures Burned(records, pool) >= 0.0
  {
    var burn := BurnOf(pool);
    forall i | 0 <= i < |records| ensures burn(records[i]) >= 0.0 {
      RecordBurnNonNegative(pool, records[i]);
    }
    RealSumNonNegative(records, burn);
  }

  lemma RecordBurnNonNegative(pool: seq<ActivityCard>, r: ActivityRecord)
    requires r.duration >= 0.0
    requires forall i :: 0 <= i < |pool| ==> pool[i].calorieBurnRate.GetOr(0.0) >= 0.0
    ensures BurnOf(pool)(r) >= 0.0
  {
    BurnRateNonNegative(pool, r.activityCardId);
    NonNegativeProduct(r.duration, BurnRate(pool, r.activityCardId));
  }

  lemma NonNegativeProduct(x: real, y: real)
    requires x >= 0.0 && y >= 0.0
    ensures x * y >= 0.0
  {
  }

  lemma BurnRateNonNegative(pool: seq<ActivityCard>, cardId: string)
    requires forall i :: 0 <= i < |pool| ==> pool[i].calorieBurnRate.GetOr(0.0) >= 0.0
    ensures BurnRate(pool, cardId) >= 0.0
  {
    var found := FindByKey(pool, ActivityCardId, cardId);
    if found.Some? {
      assert found.value == pool[IndexOfKey(pool, ActivityCardId, cardId).value];
    }
  }

  /** Workout for 30 minutes at 8 kcal/min and walking for 20 at 4: 320 kcal. */
  lemma BurnedExample()
    ensures Burned([ActivityRecord("r1", "2024-05-01", "a2", "07:00", "07:30", 30.0),
                    ActivityRecord("r2", "2024-05-01", "a3", "18:00", "18:20", 20.0)],
                   InitialActivityCards) == 320.0
  {
    var records := [ActivityRecord("r1", "2024-05-01", "a2", "07:00", "07:30", 30.0),
                    ActivityRecord("r2", "2024-05-01", "a3", "18:00", "18:20", 20.0)];
    WorkoutAndWalkingRates();
    RealSumOfPair(records[0], records[1], BurnOf(InitialActivityCards));
  }

  lemma WorkoutAndWalkingRates()
    ensures BurnRate(InitialActivityCards, "a2") == 8.0
    ensures BurnRate(InitialActivityCards, "a3") == 4.0
  {
    var pool := InitialActivityCards;
    assert pool[0].id != "a2" && pool[1].id == "a2";
    assert IndexOfKey(pool, ActivityCardId, "a2") == Some(1);
    assert pool[0].id != "a3" && pool[1].id != "a3" && pool[2].id == "a3";
    assert IndexOfKey(pool, ActivityCardId, "a3") == Some(2);
  }

  function Level(r: EnergyRecord): int { r.level }

  /** `avgEnergy`: the mean level, and no number at all when nothing is logged. */
  function AverageEnergy(records: seq<EnergyRecord>): (avg: Option<real>)
    ensures avg.None? <==> records == []
    ensures avg.Some? ==> avg.value * |records| as real == SumOf(records, Level) as real
  {
    if |records| > 0 then Some(SumOf(records, Level) as real / |records| as real) else None
  }

  lemma {:induction false} LevelSumBounds(records: seq<EnergyRecord>, lo: int, hi: int)
    requires forall i :: 0 <= i < |records| ==> lo <= records[i].level <= hi
    ensures lo * |records| <= SumOf(records, Level) <= hi * |records|
  {
    if records != [] {
      LevelSumBounds(records[..|records| - 1], lo, hi);
    }
  }

  /** The average of levels logged on a scale stays on that scale. */
  lemma AverageWithinScale(records: seq<EnergyRecord>, lo: int, hi: int)
    requires records != []
    requires forall i :: 0 <= i < |records| ==> lo <= records[i].level <= hi
    ensures lo as real <= AverageEnergy(records).value <= hi as real
  {
    LevelSumBounds(records, lo, hi);
    var n := |records| as real;
    var avg := AverageEnergy(records).value;
    assert avg * n == SumOf(records, Level) as real;
    assert lo as real * n <= avg * n <= hi as real * n;
  }

  /** Levels 4, 6 and 8 average to 6. */
  lemma AverageExample()
    ensures AverageEnergy([EnergyRecord("e1", "2024-05-01", "08:00", 4),
                           EnergyRecord("e2", "2024-05-01", "12:00", 6),
                           EnergyRecord("e3", "2024-05-01", "18:00", 8)]) == Some(6.0)
  {
    var records := [EnergyRecord("e1", "2024-05-01", "08:00", 4),
                    EnergyRecord("e2", "2024-05-01", "12:00", 6),
                    EnergyRecord("e3", "2024-05-01", "18:00", 8)];
    SumOfTriple(records[0], records[1], records[2], Level);
  }

  predicate HasFood(s: MealSlot) { |s.foodItems| > 0 }

  function StartTimes(slots: seq<MealSlot>): (ts: seq<string>)
    ensures |ts| == |slots| && forall i :: 0 <= i < |slots| ==> ts[i] == slots[i].startTime
  {
    seq(|slots|, i requires 0 <= i < |slots| => slots[i].startTime)
  }

  function EndTimes(slots: seq<MealSlot>): (ts: seq<string>)
    ensures |ts| == |slots| && forall i :: 0 <= i < |slots| ==> ts[i] == slots[i].endTime
  {
    seq(|slots|, i requires 0 <= i < |slots| => slots[i].endTime)
  }

  /** Every start and end is a well-formed `"HH:MM"`. */
  predicate ClockTimes(slots: seq<MealSlot>) {
    forall i :: 0 <= i < |slots| ==> IsClock(slots[i].startTime) && IsClock(slots[i].endTime)
  }

  /** Minutes from the earliest start to the latest end of `meals`, as the chart's
      fasting metric computes it; 0 when there are no meals. It runs from some
      meal's start to some meal's end and, with well-formed times, covers every
      meal. */
  function Span(meals: seq<MealSlot>): (minutes: int)
    ensures meals == [] ==> minutes == 0
    ensures meals != [] ==>
              exists i, j :: 0 <= i < |meals| && 0 <= j < |meals|
                             && minutes == Minutes(meals[j].endTime) - Minutes(meals[i].startTime)
    ensures ClockTimes(meals) ==> forall i :: 0 <= i < |meals| ==>
              Minutes(meals[i].endTime) - Minutes(meals[i].startTime) <= minutes
    ensures meals != [] && ClockTimes(meals) ==>
              exists i, j :: 0 <= i < |meals| && 0 <= j < |meals|
                             && minutes == Minutes(meals[j].endTime) - Minutes(meals[i].startTime)
                             && SpanExtremes(meals, i, j)
  {
    if meals == [] then 0
    else
      SpanBounds(meals);
      Minutes(LexMax(EndTimes(meals))) - Minutes(LexMin(StartTimes(meals)))
  }

  /** Meal `i` starts no later than any meal and meal `j` ends no earlier than any. */
  predicate SpanExtremes(meals: seq<MealSlot>, i: nat, j: nat)
    requires i < |meals| && j < |meals|
  {
    forall k :: 0 <= k < |meals| ==>
      Minutes(meals[i].startTime) <= Minutes(meals[k].startTime) && Minutes(meals[k].endTime) <= Minutes(meals[j].endTime)
  }

  /** The earliest start and the latest end are a start and an end of some meal,
      and with well-formed times no meal starts before or ends after them. */
  lemma SpanBounds(meals: seq<MealSlot>)
    requires meals != []
    ensures exists i :: 0 <= i < |meals| && meals[i].startTime == LexMin(StartTimes(meals))
    ensures exists j :: 0 <= j < |meals| && meals[j].endTime == LexMax(EndTimes(meals))
    ensures ClockTimes(meals) ==> forall i :: 0 <= i < |meals| ==>
              && Minutes(LexMin(StartTimes(meals))) <= Minutes(meals[i].startTime)
              && Minutes(meals[i].endTime) <= Minutes(LexMax(EndTimes(meals)))
    ensures ClockTimes(meals) ==>
              exists i, j :: 0 <= i < |meals| && 0 <= j < |meals|
                             && Minutes(LexMax(EndTimes(meals))) - Minutes(LexMin(StartTimes(meals)))
                                == Minutes(meals[j].endTime) - Minutes(meals[i].startTime)
                             && SpanExtremes(meals, i, j)
  {
    var lo, hi := LexMin(StartTimes(meals)), LexMax(EndTimes(meals));
    var a :| 0 <= a < |meals| && StartTimes(meals)[a] == lo;
    var b :| 0 <= b < |meals| && EndTimes(meals)[b] == hi;
    if ClockTimes(meals) {
      forall i | 0 <= i < |meals|
        ensures Minutes(lo) <= Minutes(meals[i].startTime) && Minutes(meals[i].endTime) <= Minutes(hi)
      {
        assert LexLe(lo, StartTimes(meals)[i]) && LexLe(EndTimes(meals)[i], hi);
        ClockOrder(lo, meals[i].startTime);
        ClockOrder(meals[i].endTime, hi);
      }
      assert meals[a].startTime == lo && meals[b].endTime == hi;
      assert SpanExtremes(meals, a, b);
    }
  }

  datatype Window = Window(start: int, end: int, duration: int)

  /** The eating window of the fasting screen over the slots that hold food. */
  function EatingWindow(slots: seq<MealSlot>): (w: Window)
    ensures w.duration == w.end - w.start
    ensures w.duration == Span(Filter(slots, HasFood))
    ensures (forall i :: 0 <= i < |slots| ==> slots[i].foodItems == []) ==> w == Window(0, 0, 0)
  {
    var meals := Filter(slots, HasFood);
    if meals == [] then Window(0, 0, 0)
    else
      assert meals[0] in meals;
      var s := Minutes(LexMin(StartTimes(meals)));
      var e := Minutes(LexMax(EndTimes(meals)));
      Window(s, e, e - s)
  }

  /** With well-formed times, the window starts at the earliest start and ends at
      the latest end among the slots holding food. */
  lemma EatingWindowExtremes(slots: seq<MealSlot>)
    requires forall s :: s in slots ==> IsClock(s.startTime) && IsClock(s.endTime)
    requires exists s :: s in slots && HasFood(s)
    ensures var w := EatingWindow(slots);
      && (exists s :: s in slots && HasFood(s) && Minutes(s.startTime) == w.start)
      && (exists s :: s in slots && HasFood(s) && Minutes(s.endTime) == w.end)
      && (forall s :: s in slots && HasFood(s) ==> w.start <= Minutes(s.startTime))
      && (forall s :: s in slots && HasFood(s) ==> Minutes(s.endTime) <= w.end)
  {
    var s0 :| s0 in slots && HasFood(s0);
    WindowAttained(slots, s0);
    forall s | s in slots && HasFood(s)
      ensures EatingWindow(slots).start <= Minutes(s.startTime) && Minutes(s.endTime) <= EatingWindow(slots).end
    {
      MealWithinWindow(slots, s);
    }
  }

  /** Some slot holding food starts when the window starts, and some ends when it ends. */
  lemma WindowAttained(slots: seq<MealSlot>, s0: MealSlot)
    requires s0 in slots && HasFood(s0)
    ensures exists s :: s in slots && HasFood(s) && Minutes(s.startTime) == EatingWindow(slots).start
    ensures exists s :: s in slots && HasFood(s) && Minutes(s.endTime) == EatingWindow(slots).end
  {
    var meals := Filter(slots, HasFood);
    assert s0 in meals;
    var lo, hi := LexMin(StartTimes(meals)), LexMax(EndTimes(meals));
    var i :| 0 <= i < |meals| && StartTimes(meals)[i] == lo;
    var j :| 0 <= j < |meals| && EndTimes(meals)[j] == hi;
    assert meals[i] in meals && meals[j] in meals;
  }

  /** A slot holding food with well-formed times lies inside the window. */
  lemma MealWithinWindow(slots: seq<MealSlot>, s: MealSlot)
    requires forall t :: t in slots ==> IsClock(t.startTime) && IsClock(t.endTime)
    requires s in slots && HasFood(s)
    ensures EatingWindow(slots).start <= Minutes(s.startTime)
    ensures Minutes(s.endTime) <= EatingWindow(slots).end
  {
    var meals := Filter(slots, HasFood);
    assert s in meals;
    var k :| 0 <= k < |meals| && meals[k] == s;
    var lo, hi := LexMin(StartTimes(meals)), LexMax(EndTimes(meals));
    var i :| 0 <= i < |meals| && StartTimes(meals)[i] == lo;
    var j :| 0 <= j < |meals| && EndTimes(meals)[j] == hi;
    assert meals[i] in meals && meals[j] in meals;
    assert LexLe(lo, StartTimes(meals)[k]) && LexLe(EndTimes(meals)[k], hi);
    ClockOrder(lo, s.startTime);
    ClockOrder(s.endTime, hi);
  }

  /** Food in 08:00-08:30 and 19:00-19:30 but not in 12:30-13:00. */
  const ExampleSlots: seq<MealSlot> := [
    MealSlot("s1", "Breakfast", "08:00", "08:30", [FoodItem("f1", 200.0, 136)]),
    MealSlot("s2", "Lunch", "12:30", "13:00", []),
    MealSlot("s3", "Dinner", "19:00", "19:30", [FoodItem("f2", 150.0, 248)])
  ]

  /** The example day eats from 08:00 to 19:30: a 690-minute window. */
  lemma EatingWindowExample()
    ensures EatingWindow(ExampleSlots) == Window(480, 1170, 690)
  {
    var s := ExampleSlots;
    ExampleMeals();
    ExampleTimes();
    WindowOfTwoMeals(s, s[0], s[2]);
  }

  /** Only breakfast and dinner of the example day hold food. */
  lemma ExampleMeals()
    ensures Filter(ExampleSlots, HasFood) == [ExampleSlots[0], ExampleSlots[2]]
  {
    var s := ExampleSlots;
    FilterTriple(s[0], s[1], s[2], HasFood);
  }

  /** The clock readings of the example day, in order and in minutes. */
  lemma ExampleTimes()
    ensures LexLe("08:00", "19:00") && LexLe("08:30", "19:30")
    ensures Minutes("08:00") == 480 && Minutes("19:30") == 1170
  {
    assert "08:00"[0] < "19:00"[0] && "08:30"[0] < "19:30"[0];
  }

  /** When the slots with food are `a` then `b`, in time order, the window runs
      from `a`'s start to `b`'s end. */
  lemma WindowOfTwoMeals(slots: seq<MealSlot>, a: MealSlot, b: MealSlot)
    requires Filter(slots, HasFood) == [a, b]
    requires LexLe(a.startTime, b.startTime) && LexLe(a.endTime, b.endTime)
    ensures EatingWindow(slots)
         == Window(Minutes(a.startTime), Minutes(b.endTime), Minutes(b.endTime) - Minutes(a.startTime))
  {
    var meals := [a, b];
    assert StartTimes(meals) == [a.startTime, b.startTime];
    assert EndTimes(meals) == [a.endTime, b.endTime];
    LexPair(a.startTime, b.startTime);
    LexPair(a.endTime, b.endTime);
  }

  /** The arc the 24-hour dial draws for a window, in degrees: the difference of
      the two angles, never negative. */
  function SweepDegrees(startMinutes: int, endMinutes: int): (sweep: real)
    ensures sweep >= 0.0
    ensures startMinutes <= endMinutes ==> sweep == (endMinutes - startMinutes) as real / 4.0
    ensures endMinutes < startMinutes ==> sweep == 0.0
  {
    var sAng := (startMinutes as real / 1440.0) * 360.0 - 90.0;
    var eAng := (endMinutes as real / 1440.0) * 360.0 - 90.0;
    var sweep := eAng - sAng;
    if sweep < 0.0 then 0.0 else sweep
  }
}
