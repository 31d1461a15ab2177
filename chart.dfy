/** The analytics screen: every chart slot gets one value per bucket of the
    selected period. In the Day period the buckets are the 24 hours of the
    selected day and entries are picked by the two-character hour prefix of
    their time; in the other periods a bucket is a set of whole day records. */
module Chart {
  import opened Wrappers
  import opened Lists
  import opened Clock
  import opened Types
  import opened Metrics
  import opened Day

  /** One point of the x-axis: its caption, the hour prefix `HH` when it is an
      hour of the Day period, and the day records that fall into it. */
  datatype Bucket = Bucket(caption: string, hour: Option<string>, records: seq<DailyData>)

  /** The stored records dated `date`. */
  function DayRecords(all: seq<DailyData>, date: string): seq<DailyData> {
    Filter(all, KeyIs(DayDate, date))
  }

  /** The 24 hour buckets of the Day period, captioned `HH:00`. */
  function DayBuckets(all: seq<DailyData>, date: string): (bs: seq<Bucket>)
    ensures |bs| == 24
    ensures forall h :: 0 <= h < 24 ==>
              bs[h].hour == Some(HourLabel(h)) && bs[h].records == DayRecords(all, date)
  {
    seq(24, h requires 0 <= h < 24 => Bucket(HourLabel(h) + ":00", Some(HourLabel(h)), DayRecords(all, date)))
  }

  /** A bucket of the Week or Month period: the records of one calendar day. */
  function CalendarDayBucket(all: seq<DailyData>, caption: string, date: string): Bucket {
    Bucket(caption, None, DayRecords(all, date))
  }

  function DateInMonth(month: string): DailyData -> bool {
    (d: DailyData) => StartsWith(d.date, month)
  }

  /** A bucket of the Year period: the records whose "YYYY-MM-DD" key lies in
      the month `month` ("YYYY-MM"). */
  function MonthBucket(all: seq<DailyData>, caption: string, month: string): Bucket {
    Bucket(caption, None, Filter(all, DateInMonth(month)))
  }

  /** `dayData`: in the Day period, the first record of the bucket, if any. */
  function DayData(b: Bucket): (d: Option<DailyData>)
    ensures d.Some? <==> b.hour.Some? && b.records != []
    ensures d.Some? ==> d.value == b.records[0]
  {
    if b.hour.Some? && b.records != [] then Some(b.records[0]) else None
  }

  function SlotStart(s: MealSlot): string { s.startTime }
  function EnergyTime(r: EnergyRecord): string { r.time }
  function Duration(r: ActivityRecord): real { r.duration }

  function StartsAt<T>(time: T -> string, hh: string): T -> bool {
    (x: T) => StartsWith(time(x), hh)
  }

  /** The entries whose time starts with the hour prefix `hh`. */
  function AtHour<T>(xs: seq<T>, time: T -> string, hh: string): (r: seq<T>)
    ensures |r| <= |xs|
    ensures forall i :: 0 <= i < |r| ==> r[i] in xs && StartsWith(time(r[i]), hh)
    ensures forall i :: 0 <= i < |xs| && StartsWith(time(xs[i]), hh) ==> xs[i] in r
  {
    Filter(xs, StartsAt(time, hh))
  }

  /** `slot.targetId === 'all' || r.activityCardId === slot.targetId`. */
  predicate Matches(target: Option<string>, r: ActivityRecord) {
    target.Some? && (target.value == "all" || r.activityCardId == target.value)
  }

  function MatchesTarget(target: Option<string>): ActivityRecord -> bool {
    (r: ActivityRecord) => Matches(target, r)
  }

  function ActivityAt(hh: string, target: Option<string>): ActivityRecord -> bool {
    (r: ActivityRecord) => StartsWith(r.startTime, hh) && Matches(target, r)
  }

  function RecordCalories(d: DailyData): int { DayCalories(d.mealSlots) }
  function ActivityCount(d: DailyData): int { |d.activityRecords| }

  function MatchCount(target: Option<string>): DailyData -> int {
    (d: DailyData) => |Filter(d.activityRecords, MatchesTarget(target))|
  }

  function MatchDuration(target: Option<string>): DailyData -> real {
    (d: DailyData) => RealSumOf(Filter(d.activityRecords, MatchesTarget(target)), Duration)
  }

  function EnergyCount(d: DailyData): int { |d.energyRecords| }

  /** `records.flatMap(d => d.energyRecords)`: every energy record of every day
      and nothing else, as many as the days hold together. */
  function AllEnergy(records: seq<DailyData>): (es: seq<EnergyRecord>)
    ensures records == [] ==> es == []
    ensures |es| == SumOf(records, EnergyCount)
    ensures forall e :: e in es <==> exists i :: 0 <= i < |records| && e in records[i].energyRecords
  {
    if records == [] then []
    else
      var init := records[..|records| - 1];
      assert forall i :: 0 <= i < |init| ==> init[i] == records[i];
      AllEnergy(init) + records[|records| - 1].energyRecords
  }

  /** `records.flatMap(d => d.mealSlots)`: every slot of every day and nothing else. */
  function AllSlots(records: seq<DailyData>): (ss: seq<MealSlot>)
    ensures records == [] ==> ss == []
    ensures forall s :: s in ss <==> exists i :: 0 <= i < |records| && s in records[i].mealSlots
  {
    if records == [] then []
    else
      var init := records[..|records| - 1];
      assert forall i :: 0 <= i < |init| ==> init[i] == records[i];
      AllSlots(init) + records[|records| - 1].mealSlots
  }

  function NutrientName(n: Nutrient): string { n.name }

  /** Card `i` is the first card of the pool with id `id`. */
  predicate FirstCard(pool: seq<FoodCard>, id: string, i: nat)
    requires i < |pool|
  {
    pool[i].id == id && forall k :: 0 <= k < i ==> pool[k].id != id
  }

  /** Entry `j` is the first nutrient named `name`. */
  predicate FirstNutrient(ns: seq<Nutrient>, name: string, j: nat)
    requires j < |ns|
  {
    ns[j].name == name && forall k :: 0 <= k < j ==> ns[k].name != name
  }

  /** `food?.nutrients.find(n => n.name === name)?.valuePer100g || 0`. */
  function NutrientPer100g(pool: seq<FoodCard>, foodCardId: string, name: string): (v: real)
    ensures (forall i :: 0 <= i < |pool| ==> pool[i].id != foodCardId) ==> v == 0.0
    ensures (forall c, n :: c in pool && n in c.nutrients ==> n.name != name) ==> v == 0.0
    ensures (forall c, n :: c in pool && n in c.nutrients ==> n.valuePer100g >= 0.0) ==> v >= 0.0
    ensures forall i, j ::
              (0 <= i < |pool| && 0 <= j < |pool[i].nutrients|
               && FirstCard(pool, foodCardId, i) && FirstNutrient(pool[i].nutrients, name, j))
              ==> v == pool[i].nutrients[j].valuePer100g
    ensures forall i ::
              (0 <= i < |pool| && FirstCard(pool, foodCardId, i)
               && forall k :: 0 <= k < |pool[i].nutrients| ==> pool[i].nutrients[k].name != name)
              ==> v == 0.0
  {
    match FindByKey(pool, FoodCardId, foodCardId)
    case None => 0.0
    case Some(food) =>
      match FindByKey(food.nutrients, NutrientName, name)
      case None => 0.0
      case Some(n) => n.valuePer100g
  }

  /** Grams of nutrient `name` in one logged item. */
  function ItemNutrient(pool: seq<FoodCard>, name: string): FoodItem -> real {
    (i: FoodItem) => i.weight * (NutrientPer100g(pool, i.foodCardId, name) / 100.0)
  }

  function SlotNutrient(pool: seq<FoodCard>, name: string): MealSlot -> real {
    (s: MealSlot) => RealSumOf(s.foodItems, ItemNutrient(pool, name))
  }

  function DayNutrient(pool: seq<FoodCard>, name: string): DailyData -> real {
    (d: DailyData) => RealSumOf(d.mealSlots, SlotNutrient(pool, name))
  }

  /** Grams of nutrient `name` over every item of every slot of every record:
      0 for a nutrient no food card lists. */
  function NutrientTotal(records: seq<DailyData>, pool: seq<FoodCard>, name: string): (grams: real)
    ensures (forall c, n :: c in pool && n in c.nutrients ==> n.name != name) ==> grams == 0.0
  {
    UnknownNutrientIsZero(records, pool, name);
    RealSumOf(records, DayNutrient(pool, name))
  }

  /** 200 g of the seed Oatmeal card, at 2.4 g of protein per 100 g, hold 4.8 g
      of protein, and a day whose breakfast is that portion totals 4.8 g. */
  lemma OatmealProtein(date: string)
    ensures NutrientPer100g(InitialFoodCards, "f1", "Protein") == 2.4
    ensures ItemNutrient(InitialFoodCards, "Protein")(FoodItem("f1", 200.0, 136)) == 4.8
    ensures NutrientTotal([DailyData(date, [MealSlot("s1", "Breakfast", "08:00", "08:30", [FoodItem("f1", 200.0, 136)])], [], [])],
                          InitialFoodCards, "Protein") == 4.8
  {
    assert FirstCard(InitialFoodCards, "f1", 0);
    assert FirstNutrient(InitialFoodCards[0].nutrients, "Protein", 0);
    var item := FoodItem("f1", 200.0, 136);
    var slot := MealSlot("s1", "Breakfast", "08:00", "08:30", [item]);
    var day := DailyData(date, [slot], [], []);
    var name := "Protein";
    assert ItemNutrient(InitialFoodCards, name)(item) == 4.8;
    RealSumOne(item, ItemNutrient(InitialFoodCards, name));
    RealSumOne(slot, SlotNutrient(InitialFoodCards, name));
    RealSumOne(day, DayNutrient(InitialFoodCards, name));
  }

  /** Oatmeal lists no fat, so a fat chart counts none for it, even though the
      seed Chicken card lists fat. */
  lemma OatmealHasNoFat()
    ensures exists c, n :: c in InitialFoodCards && n in c.nutrients && n.name == "Fat"
    ensures NutrientPer100g(InitialFoodCards, "f1", "Fat") == 0.0
  {
    assert InitialFoodCards[1].nutrients[1].name == "Fat";
    assert FirstCard(InitialFoodCards, "f1", 0);
    var ns := InitialFoodCards[0].nutrients;
    assert forall k :: 0 <= k < |ns| ==> ns[k].name != "Fat";
  }

  /** `getMetric`: the value of one chart slot in one bucket; `None` is `null`. */
  function Metric(b: Bucket, chart: ChartConfig, pool: seq<FoodCard>): (m: Option<real>)
    ensures m.None? ==> chart.source == Energy
    ensures chart.source.Unrecognised? ==> m == Some(0.0)
    ensures chart.source == NutrientGrams && (chart.targetId.None? || chart.targetId.value == "") ==> m == Some(0.0)
  {
    var day := DayData(b);
    var hh := b.hour.GetOr("");
    match chart.source
    case Calories =>
      Some((if day.Some? then SumOf(AtHour(day.value.mealSlots, SlotStart, hh), SlotCalories)
            else SumOf(b.records, RecordCalories)) as real)
    case Energy =>
      AverageEnergy(if day.Some? then AtHour(day.value.energyRecords, EnergyTime, hh) else AllEnergy(b.records))
    case Fasting =>
      Some(Span(if day.Some? then AtHour(day.value.mealSlots, SlotStart, hh)
                else Filter(AllSlots(b.records), HasFood)) as real)
    case ActivityFreq =>
      Some((if day.Some? then |Filter(day.value.activityRecords, ActivityAt(hh, chart.targetId))|
            else SumOf(b.records, MatchCount(chart.targetId))) as real)
    case ActivityDur =>
      Some(if day.Some? then RealSumOf(Filter(day.value.activityRecords, ActivityAt(hh, chart.targetId)), Duration)
           else RealSumOf(b.records, MatchDuration(chart.targetId)))
    case NutrientGrams =>
      Some(if chart.targetId.Some? && chart.targetId.value != "" then NutrientTotal(b.records, pool, chart.targetId.value)
           else 0.0)
    case Unrecognised(_) =>
      Some(0.0)
  }

  // ---------------------------------------------------------------------------
  // The hour buckets of the Day period split the day's entries between them.

  /** The sum over the first `n` hours of the weights of the entries in each hour. */
  function HourTotal<T>(xs: seq<T>, time: T -> string, w: T -> int, n: nat): int
    requires n <= 24
  {
    if n == 0 then 0 else HourTotal(xs, time, w, n - 1) + SumOf(AtHour(xs, time, HourLabel(n - 1)), w)
  }

  lemma {:induction false} HourTotalEmpty<T>(time: T -> string, w: T -> int, n: nat)
    requires n <= 24
    ensures HourTotal([], time, w, n) == 0
  {
    if n > 0 {
      HourTotalEmpty(time, w, n - 1);
    }
  }

  /** One more entry adds its weight to exactly the hour its time names. */
  lemma {:induction false} HourTotalSnoc<T>(xs: seq<T>, x: T, time: T -> string, w: T -> int, n: nat)
    requires n <= 24 && IsClock(time(x))
    ensures HourTotal(xs + [x], time, w, n) == HourTotal(xs, time, w, n) + (if Hour(time(x)) < n then w(x) else 0)
  {
    if n > 0 {
      HourTotalSnoc(xs, x, time, w, n - 1);
      var p := StartsAt(time, HourLabel(n - 1));
      SumFilterSnoc(xs, x, p, w);
      HourPrefix(time(x), n - 1);
      assert p(x) == StartsWith(time(x), HourLabel(n - 1));
    }
  }

  /** Every well-timed entry lands in exactly one of the 24 hours, so the hour
      sums add up to the plain sum. */
  lemma HoursPartition<T>(xs: seq<T>, time: T -> string, w: T -> int)
    requires forall i :: 0 <= i < |xs| ==> IsClock(time(xs[i]))
    ensures HourTotal(xs, time, w, 24) == SumOf(xs, w)
  {
    HoursPartitionOf(xs, time, w, 24);
  }

  /** `HoursPartition` with the hour count as a variable, which keeps the solver
      from unrolling `HourTotal` 24 times at every step. */
  lemma {:induction false} HoursPartitionOf<T>(xs: seq<T>, time: T -> string, w: T -> int, hours: nat)
    requires hours == 24
    requires forall i :: 0 <= i < |xs| ==> IsClock(time(xs[i]))
    ensures HourTotal(xs, time, w, hours) == SumOf(xs, w)
  {
    if xs == [] {
      HourTotalEmpty(time, w, hours);
    } else {
      var init, last := xs[..|xs| - 1], xs[|xs| - 1];
      assert forall i :: 0 <= i < |init| ==> init[i] == xs[i];
      HoursPartitionOf(init, time, w, hours);
      assert init + [last] == xs;
      HourTotalSnoc(init, last, time, w, hours);
    }
  }

  /** What a bucket contributes to the sum of a chart's series (`null` as 0). */
  function MetricValue(chart: ChartConfig, pool: seq<FoodCard>): Bucket -> real {
    b => Metric(b, chart, pool).GetOr(0.0)
  }

  lemma {:induction false} DayCaloriesPrefix(all: seq<DailyData>, date: string, chart: ChartConfig,
                                             pool: seq<FoodCard>, n: nat)
    requires chart.source == Calories && n <= 24
    requires DayRecords(all, date) != []
    ensures RealSumOf(DayBuckets(all, date)[..n], MetricValue(chart, pool))
         == HourTotal(DayRecords(all, date)[0].mealSlots, SlotStart, SlotCalories, n) as real
  {
    if n > 0 {
      DayCaloriesPrefix(all, date, chart, pool, n - 1);
      var bs, f := DayBuckets(all, date), MetricValue(chart, pool);
      RealSumPrefix(bs, n, f);
      HourBucketCalories(all, date, chart, pool, n - 1);
    }
  }

  /** The calorie bar of hour `h` sums the slots of the day that start in that hour. */
  lemma HourBucketCalories(all: seq<DailyData>, date: string, chart: ChartConfig, pool: seq<FoodCard>, h: nat)
    requires chart.source == Calories && h < 24
    requires DayRecords(all, date) != []
    ensures MetricValue(chart, pool)(DayBuckets(all, date)[h])
         == SumOf(AtHour(DayRecords(all, date)[0].mealSlots, SlotStart, HourLabel(h)), SlotCalories) as real
  {
    var b := DayBuckets(all, date)[h];
    assert DayData(b) == Some(DayRecords(all, date)[0]);
  }

  /** The 24 hourly calorie bars of a day add up to the nutrition screen's total
      for that day, provided every slot starts at a well-formed time. */
  lemma DayCaloriesPartition(all: seq<DailyData>, date: string, chart: ChartConfig, pool: seq<FoodCard>)
    requires chart.source == Calories
    requires forall i :: 0 <= i < |Resolve(all, date).mealSlots| ==> IsClock(Resolve(all, date).mealSlots[i].startTime)
    ensures RealSumOf(DayBuckets(all, date), MetricValue(chart, pool)) == DayCalories(Resolve(all, date).mealSlots) as real
  {
    var bs := DayBuckets(all, date);
    FilterHeadIsFind(all, DayDate, date);
    assert bs[..24] == bs;
    if DayRecords(all, date) == [] {
      forall i | 0 <= i < |bs| ensures MetricValue(chart, pool)(bs[i]) == 0.0 {
        assert DayData(bs[i]).None?;
      }
      RealSumOfZeros(bs, MetricValue(chart, pool));
      NoFoodNoCalories(DefaultSlots);
    } else {
      DayCaloriesPrefix(all, date, chart, pool, 24);
      HoursPartition(Resolve(all, date).mealSlots, SlotStart, SlotCalories);
    }
  }

  // ---------------------------------------------------------------------------
  // A calendar-day bucket agrees with the day screens.

  /** With one record per date, a day's calories bar is the nutrition screen's total. */
  lemma CalendarDayCalories(all: seq<DailyData>, caption: string, date: string, chart: ChartConfig, pool: seq<FoodCard>)
    requires UniqueKeys(all, DayDate) && chart.source == Calories
    ensures Metric(CalendarDayBucket(all, caption, date), chart, pool)
         == Some(DayCalories(Resolve(all, date).mealSlots) as real)
  {
    FilterUniqueKey(all, DayDate, date);
    var rs := DayRecords(all, date);
    if rs == [] {
      NoFoodNoCalories(DefaultSlots);
    } else {
      SumOfTriple(rs[0], rs[0], rs[0], RecordCalories);
    }
  }

  /** With one record per date, a day's energy point is the energy screen's average. */
  lemma CalendarDayEnergy(all: seq<DailyData>, caption: string, date: string, chart: ChartConfig, pool: seq<FoodCard>)
    requires UniqueKeys(all, DayDate) && chart.source == Energy
    ensures Metric(CalendarDayBucket(all, caption, date), chart, pool)
         == AverageEnergy(Resolve(all, date).energyRecords)
  {
    FilterUniqueKey(all, DayDate, date);
    var rs := DayRecords(all, date);
    if rs != [] {
      assert rs[..0] == [];
      assert AllEnergy(rs) == rs[0].energyRecords;
    }
  }

  /** With one record per date, a day's fasting bar is the fasting screen's window. */
  lemma CalendarDayFasting(all: seq<DailyData>, caption: string, date: string, chart: ChartConfig, pool: seq<FoodCard>)
    requires UniqueKeys(all, DayDate) && chart.source == Fasting
    ensures Metric(CalendarDayBucket(all, caption, date), chart, pool)
         == Some(FastingData(all, date).duration as real)
  {
    FilterUniqueKey(all, DayDate, date);
    var rs := DayRecords(all, date);
    if rs != [] {
      assert rs[..0] == [];
      assert AllSlots(rs) == rs[0].mealSlots;
    }
  }

  /** In the Day period the fasting metric does not ask for food: a stored day
      with only its default, empty slots still shows 30 minutes at 08:00,
      while its calendar-day bucket shows no window. */
  lemma DayFastingIgnoresFood()
    ensures var day := DailyData("2024-05-01", DefaultSlots, [], []);
            var chart := ChartConfig("c3", "Fasting Window", Bar, Fasting, None);
            && Metric(Bucket("08:00", Some("08"), [day]), chart, []) == Some(30.0)
            && Metric(Bucket("05/01", None, [day]), chart, []) == Some(0.0)
  {
    var day := DailyData("2024-05-01", DefaultSlots, [], []);
    var chart := ChartConfig("c3", "Fasting Window", Bar, Fasting, None);
    FastingAtEight(day, chart);
    FastingOfEmptyDay(day, chart);
  }

  lemma FastingAtEight(day: DailyData, chart: ChartConfig)
    requires day.mealSlots == DefaultSlots && chart.source == Fasting
    ensures Metric(Bucket("08:00", Some("08"), [day]), chart, []) == Some(30.0)
  {
    var b := Bucket("08:00", Some("08"), [day]);
    assert DayData(b) == Some(day);
    BreakfastHour();
    BreakfastSpan();
  }

  lemma FastingOfEmptyDay(day: DailyData, chart: ChartConfig)
    requires day.mealSlots == DefaultSlots && chart.source == Fasting
    ensures Metric(Bucket("05/01", None, [day]), chart, []) == Some(0.0)
  {
    var b := Bucket("05/01", None, [day]);
    assert DayData(b).None?;
    assert [day][..0] == [];
    assert AllSlots([day]) == DefaultSlots;
    FilterNone(DefaultSlots, HasFood);
    assert Metric(b, chart, []) == Some(Span([]) as real);
  }

  /** The Breakfast slot alone spans its 30 minutes. */
  lemma BreakfastSpan()
    ensures Span([DefaultSlots[0]]) == 30
  {
    var meals := [DefaultSlots[0]];
    assert StartTimes(meals) == ["08:00"] && EndTimes(meals) == ["08:30"];
    assert Minutes("08:30") - Minutes("08:00") == 30;
  }

  lemma BreakfastHour()
    ensures AtHour(DefaultSlots, SlotStart, "08") == [DefaultSlots[0]]
  {
    var s := DefaultSlots;
    var p := StartsAt(SlotStart, "08");
    FilterTriple(s[0], s[1], s[2], p);
    assert s[0].startTime[..2] == "08";
    assert s[1].startTime[..2][0] == '1' && s[2].startTime[..2][0] == '1';
    assert StartsWith(SlotStart(s[0]), "08");
    assert !StartsWith(SlotStart(s[1]), "08") && !StartsWith(SlotStart(s[2]), "08");
    assert p(s[0]) && !p(s[1]) && !p(s[2]);
  }

  // ---------------------------------------------------------------------------
  // Activity counts and nutrient sums.

  /** The number of activity records a bucket looks at. */
  function ActivityTotal(b: Bucket): int {
    if DayData(b).Some? then |DayData(b).value.activityRecords| else SumOf(b.records, ActivityCount)
  }

  /** `activity_freq` never counts more records than the bucket holds. */
  lemma ActivityFreqBounded(b: Bucket, chart: ChartConfig, pool: seq<FoodCard>)
    requires chart.source == ActivityFreq
    ensures 0.0 <= Metric(b, chart, pool).value <= ActivityTotal(b) as real
  {
    SumOfMonotone(b.records, MatchCount(chart.targetId), ActivityCount);
    forall i | 0 <= i < |b.records| ensures 0 <= MatchCount(chart.targetId)(b.records[i]) {}
    SumOfMonotone(b.records, (d: DailyData) => 0, MatchCount(chart.targetId));
    SumOfZeros(b.records, (d: DailyData) => 0);
  }

  /** With target 'all', `activity_freq` of a bucket of whole days counts every record. */
  lemma ActivityFreqAll(b: Bucket, chart: ChartConfig, pool: seq<FoodCard>)
    requires chart.source == ActivityFreq && chart.targetId == Some("all") && b.hour.None?
    ensures Metric(b, chart, pool) == Some(ActivityTotal(b) as real)
  {
    forall i | 0 <= i < |b.records| ensures MatchCount(chart.targetId)(b.records[i]) == ActivityCount(b.records[i]) {
      FilterKeepsAll(b.records[i].activityRecords, MatchesTarget(chart.targetId));
    }
    SumOfPointwise(b.records, MatchCount(chart.targetId), ActivityCount);
  }

  /** With target 'all', `activity_dur` of a bucket of whole days sums the
      duration of every record of every day. */
  lemma ActivityDurAll(b: Bucket, chart: ChartConfig, pool: seq<FoodCard>)
    requires chart.source == ActivityDur && chart.targetId == Some("all") && b.hour.None?
    ensures Metric(b, chart, pool) == Some(RealSumOf(b.records, AllDurations))
  {
    var dur := MatchDuration(Some("all"));
    assert DayData(b).None?;
    assert Metric(b, chart, pool) == Some(RealSumOf(b.records, dur));
    forall i | 0 <= i < |b.records| ensures dur(b.records[i]) == AllDurations(b.records[i]) {
      MatchAllDuration(b.records[i]);
    }
    RealSumOfPointwise(b.records, dur, AllDurations);
  }

  function AllDurations(d: DailyData): real { RealSumOf(d.activityRecords, Duration) }

  /** Target 'all' keeps every activity record of a day. */
  lemma MatchAllDuration(d: DailyData)
    ensures MatchDuration(Some("all"))(d) == AllDurations(d)
  {
    FilterKeepsAll(d.activityRecords, MatchesTarget(Some("all")));
  }

  // ---------------------------------------------------------------------------
  // A specific activity target.

  /** The number of records of activity card `id`. */
  function CardCount(rs: seq<ActivityRecord>, id: string): nat {
    if rs == [] then 0
    else CardCount(rs[..|rs| - 1], id) + (if rs[|rs| - 1].activityCardId == id then 1 else 0)
  }

  /** The minutes spent on activity card `id`. */
  function CardDuration(rs: seq<ActivityRecord>, id: string): real {
    if rs == [] then 0.0
    else CardDuration(rs[..|rs| - 1], id) + (if rs[|rs| - 1].activityCardId == id then rs[|rs| - 1].duration else 0.0)
  }

  /** A target other than 'all' keeps the records of that card and no others. */
  lemma {:induction false} TargetFilter(rs: seq<ActivityRecord>, id: string)
    requires id != "all"
    ensures |Filter(rs, MatchesTarget(Some(id)))| == CardCount(rs, id)
    ensures RealSumOf(Filter(rs, MatchesTarget(Some(id))), Duration) == CardDuration(rs, id)
  {
    if rs != [] {
      var p := MatchesTarget(Some(id));
      var init, last := rs[..|rs| - 1], rs[|rs| - 1];
      TargetFilter(init, id);
      var tail := if p(last) then [last] else [];
      assert Filter(rs, p) == Filter(init, p) + tail;
      RealSumConcat(Filter(init, p), tail, Duration);
      assert [last][..0] == [];
      assert RealSumOf(tail, Duration) == if p(last) then last.duration else 0.0;
    }
  }

  function CardCountOf(id: string): DailyData -> int {
    (d: DailyData) => CardCount(d.activityRecords, id)
  }

  function CardDurationOf(id: string): DailyData -> real {
    (d: DailyData) => CardDuration(d.activityRecords, id)
  }

  /** With a card as target, `activity_freq` of a bucket of whole days counts
      the records of that card, day by day. */
  lemma ActivityFreqTarget(b: Bucket, chart: ChartConfig, pool: seq<FoodCard>, id: string)
    requires chart.source == ActivityFreq && chart.targetId == Some(id) && id != "all" && b.hour.None?
    ensures Metric(b, chart, pool) == Some(SumOf(b.records, CardCountOf(id)) as real)
  {
    forall i | 0 <= i < |b.records| ensures MatchCount(chart.targetId)(b.records[i]) == CardCountOf(id)(b.records[i]) {
      TargetFilter(b.records[i].activityRecords, id);
    }
    SumOfPointwise(b.records, MatchCount(chart.targetId), CardCountOf(id));
  }

  /** With a card as target, `activity_dur` of a bucket of whole days sums the
      durations of the records of that card. */
  lemma ActivityDurTarget(b: Bucket, chart: ChartConfig, pool: seq<FoodCard>, id: string)
    requires chart.source == ActivityDur && chart.targetId == Some(id) && id != "all" && b.hour.None?
    ensures Metric(b, chart, pool) == Some(RealSumOf(b.records, CardDurationOf(id)))
  {
    var dur := MatchDuration(chart.targetId);
    assert DayData(b).None?;
    assert Metric(b, chart, pool) == Some(RealSumOf(b.records, dur));
    forall i | 0 <= i < |b.records| ensures dur(b.records[i]) == CardDurationOf(id)(b.records[i]) {
      TargetFilter(b.records[i].activityRecords, id);
    }
    RealSumOfPointwise(b.records, dur, CardDurationOf(id));
  }

  // ---------------------------------------------------------------------------
  // Buckets of whole days add up day by day.

  /** The sources whose value over whole days is a sum over the days. */
  predicate Additive(source: DataSource) {
    source == Calories || source == ActivityFreq || source == ActivityDur || source == NutrientGrams
  }

  /** Joining two sets of whole days adds their values. */
  lemma WholeDaysAdditive(xs: seq<DailyData>, ys: seq<DailyData>, caption: string, chart: ChartConfig, pool: seq<FoodCard>)
    requires Additive(chart.source)
    ensures Metric(Bucket(caption, None, xs + ys), chart, pool).Some?
    ensures Metric(Bucket(caption, None, xs + ys), chart, pool).value
         == Metric(Bucket(caption, None, xs), chart, pool).value + Metric(Bucket(caption, None, ys), chart, pool).value
  {
    match chart.source
    case Calories => SumConcat(xs, ys, RecordCalories);
    case ActivityFreq => SumConcat(xs, ys, MatchCount(chart.targetId));
    case ActivityDur => RealSumConcat(xs, ys, MatchDuration(chart.targetId));
    case NutrientGrams =>
      if chart.targetId.Some? && chart.targetId.value != "" {
        RealSumConcat(xs, ys, DayNutrient(pool, chart.targetId.value));
      }
  }

  /** The value of one whole day on its own. */
  function OneDay(chart: ChartConfig, pool: seq<FoodCard>, caption: string): DailyData -> real {
    (d: DailyData) => Metric(Bucket(caption, None, [d]), chart, pool).GetOr(0.0)
  }

  /** A bucket of whole days (a week day, a month day, a month of the year) shows
      the sum of what each of its days shows on its own. */
  lemma WholeDaysSum(records: seq<DailyData>, caption: string, chart: ChartConfig, pool: seq<FoodCard>)
    requires Additive(chart.source)
    ensures Metric(Bucket(caption, None, records), chart, pool) == Some(RealSumOf(records, OneDay(chart, pool, caption)))
  {
    var g := (rs: seq<DailyData>) => Metric(Bucket(caption, None, rs), chart, pool).GetOr(0.0);
    NoDays(caption, chart, pool);
    forall i | 0 <= i < |records|
      ensures g(records[..i + 1]) == g(records[..i]) + OneDay(chart, pool, caption)(records[i])
    {
      WholeDaysStep(records[..i], records[i], caption, chart, pool);
      assert records[..i] + [records[i]] == records[..i + 1];
    }
    SumBySnoc(records, g, OneDay(chart, pool, caption));
    assert records[..|records|] == records;
  }

  lemma WholeDaysStep(init: seq<DailyData>, d: DailyData, caption: string, chart: ChartConfig, pool: seq<FoodCard>)
    requires Additive(chart.source)
    ensures Metric(Bucket(caption, None, init + [d]), chart, pool).GetOr(0.0)
         == Metric(Bucket(caption, None, init), chart, pool).GetOr(0.0) + OneDay(chart, pool, caption)(d)
  {
    WholeDaysAdditive(init, [d], caption, chart, pool);
  }

  lemma NoDays(caption: string, chart: ChartConfig, pool: seq<FoodCard>)
    requires Additive(chart.source)
    ensures Metric(Bucket(caption, None, []), chart, pool) == Some(0.0)
  {
  }

  /** One day's calories on its own are that day's `totalCals`. */
  lemma OneDayCalories(d: DailyData, caption: string, chart: ChartConfig, pool: seq<FoodCard>)
    requires chart.source == Calories
    ensures OneDay(chart, pool, caption)(d) == DayCalories(d.mealSlots) as real
  {
    assert [d][..0] == [];
    assert SumOf([d], RecordCalories) == RecordCalories(d);
    assert Metric(Bucket(caption, None, [d]), chart, pool) == Some(SumOf([d], RecordCalories) as real);
  }

  // ---------------------------------------------------------------------------
  // The hour buckets of the Day period.

  function EnergyInHour(h: nat): EnergyRecord -> bool {
    (r: EnergyRecord) => IsClock(r.time) && Hour(r.time) == h
  }

  function StartInHour(h: nat): ActivityRecord -> bool {
    (r: ActivityRecord) => IsClock(r.startTime) && Hour(r.startTime) == h
  }

  /** The energy point of hour `h` is the average of the levels logged in that hour. */
  lemma HourEnergy(all: seq<DailyData>, date: string, chart: ChartConfig, pool: seq<FoodCard>, h: nat)
    requires chart.source == Energy && h < 24 && DayRecords(all, date) != []
    requires forall k :: 0 <= k < |DayRecords(all, date)[0].energyRecords| ==>
               IsClock(DayRecords(all, date)[0].energyRecords[k].time)
    ensures Metric(DayBuckets(all, date)[h], chart, pool)
         == AverageEnergy(Filter(DayRecords(all, date)[0].energyRecords, EnergyInHour(h)))
  {
    var b := DayBuckets(all, date)[h];
    var es := DayRecords(all, date)[0].energyRecords;
    assert DayData(b) == Some(DayRecords(all, date)[0]);
    forall k | 0 <= k < |es| ensures StartsAt(EnergyTime, HourLabel(h))(es[k]) == EnergyInHour(h)(es[k]) {
      assert IsClock(es[k].time);
      HourPrefix(es[k].time, h);
      assert EnergyTime(es[k]) == es[k].time;
      assert StartsAt(EnergyTime, HourLabel(h))(es[k]) == StartsWith(EnergyTime(es[k]), HourLabel(h));
    }
    FilterSame(es, StartsAt(EnergyTime, HourLabel(h)), EnergyInHour(h));
  }

  /** In hour `h`, the activity filter is the card filter applied to the records
      that start in that hour. */
  lemma HourActivities(rs: seq<ActivityRecord>, h: nat, target: Option<string>)
    requires h < 24 && forall k :: 0 <= k < |rs| ==> IsClock(rs[k].startTime)
    ensures Filter(rs, ActivityAt(HourLabel(h), target)) == Filter(Filter(rs, StartInHour(h)), MatchesTarget(target))
  {
    forall k | 0 <= k < |rs|
      ensures ActivityAt(HourLabel(h), target)(rs[k]) == (StartInHour(h)(rs[k]) && MatchesTarget(target)(rs[k]))
    {
      HourPrefix(rs[k].startTime, h);
    }
    FilterBoth(rs, StartInHour(h), MatchesTarget(target), ActivityAt(HourLabel(h), target));
  }

  /** With a card as target, the activity bars of hour `h` count, and sum the
      minutes of, the records of that card that start in that hour. */
  lemma HourActivityTarget(all: seq<DailyData>, date: string, chart: ChartConfig, pool: seq<FoodCard>, h: nat, id: string)
    requires (chart.source == ActivityFreq || chart.source == ActivityDur) && chart.targetId == Some(id) && id != "all"
    requires h < 24 && DayRecords(all, date) != []
    requires forall k :: 0 <= k < |DayRecords(all, date)[0].activityRecords| ==>
               IsClock(DayRecords(all, date)[0].activityRecords[k].startTime)
    ensures chart.source == ActivityFreq ==>
              Metric(DayBuckets(all, date)[h], chart, pool)
              == Some(CardCount(Filter(DayRecords(all, date)[0].activityRecords, StartInHour(h)), id) as real)
    ensures chart.source == ActivityDur ==>
              Metric(DayBuckets(all, date)[h], chart, pool)
              == Some(CardDuration(Filter(DayRecords(all, date)[0].activityRecords, StartInHour(h)), id))
  {
    var b := DayBuckets(all, date)[h];
    var rs := DayRecords(all, date)[0].activityRecords;
    assert DayData(b) == Some(DayRecords(all, date)[0]);
    HourActivities(rs, h, chart.targetId);
    TargetFilter(Filter(rs, StartInHour(h)), id);
  }

  /** A nutrient that no food card lists adds up to 0 grams. */
  lemma UnknownNutrientIsZero(records: seq<DailyData>, pool: seq<FoodCard>, name: string)
    ensures (forall c, n :: c in pool && n in c.nutrients ==> n.name != name) ==>
              RealSumOf(records, DayNutrient(pool, name)) == 0.0
  {
    if forall c, n :: c in pool && n in c.nutrients ==> n.name != name {
      forall d | d in records ensures DayNutrient(pool, name)(d) == 0.0 {
        forall s | s in d.mealSlots ensures SlotNutrient(pool, name)(s) == 0.0 {
          RealSumOfZeros(s.foodItems, ItemNutrient(pool, name));
        }
        RealSumOfZeros(d.mealSlots, SlotNutrient(pool, name));
      }
      RealSumOfZeros(records, DayNutrient(pool, name));
    }
  }

  /** No food card lists a negative amount of any nutrient. */
  predicate NonNegativeNutrients(pool: seq<FoodCard>) {
    forall c, n :: c in pool && n in c.nutrients ==> n.valuePer100g >= 0.0
  }

  /** No item of any of the slots weighs less than 0 grams. */
  predicate NonNegativeWeights(slots: seq<MealSlot>) {
    forall i, j :: 0 <= i < |slots| && 0 <= j < |slots[i].foodItems| ==> slots[i].foodItems[j].weight >= 0.0
  }

  /** With no negative weight and no negative nutrient value, a nutrient chart
      never goes below 0 grams. */
  lemma NutrientTotalNonNegative(records: seq<DailyData>, pool: seq<FoodCard>, name: string)
    requires NonNegativeNutrients(pool)
    requires forall k :: 0 <= k < |records| ==> NonNegativeWeights(records[k].mealSlots)
    ensures NutrientTotal(records, pool, name) >= 0.0
  {
    forall k | 0 <= k < |records| ensures DayNutrient(pool, name)(records[k]) >= 0.0 {
      DayNutrientNonNegative(records[k].mealSlots, pool, name);
    }
    RealSumNonNegative(records, DayNutrient(pool, name));
  }

  lemma DayNutrientNonNegative(slots: seq<MealSlot>, pool: seq<FoodCard>, name: string)
    requires NonNegativeNutrients(pool) && NonNegativeWeights(slots)
    ensures RealSumOf(slots, SlotNutrient(pool, name)) >= 0.0
  {
    forall i | 0 <= i < |slots| ensures SlotNutrient(pool, name)(slots[i]) >= 0.0 {
      SlotNutrientNonNegative(slots[i].foodItems, pool, name);
    }
    RealSumNonNegative(slots, SlotNutrient(pool, name));
  }

  lemma SlotNutrientNonNegative(items: seq<FoodItem>, pool: seq<FoodCard>, name: string)
    requires NonNegativeNutrients(pool)
    requires forall j :: 0 <= j < |items| ==> items[j].weight >= 0.0
    ensures RealSumOf(items, ItemNutrient(pool, name)) >= 0.0
  {
    forall j | 0 <= j < |items| ensures ItemNutrient(pool, name)(items[j]) >= 0.0 {
      var per100g := NutrientPer100g(pool, items[j].foodCardId, name);
      assert per100g >= 0.0;
      NonNegativeProduct(items[j].weight, per100g / 100.0);
    }
    RealSumNonNegative(items, ItemNutrient(pool, name));
  }

  // ---------------------------------------------------------------------------
  // The chart data rows.

  /** A cell of a row: the bucket caption under `label`, or a metric value. */
  datatype Cell = Text(text: string) | Value(value: Option<real>)

  /** The position of the last chart slot with id `id`. */
  function LastIndex(charts: seq<ChartConfig>, id: string): (k: Option<nat>)
    ensures k.None? <==> forall i :: 0 <= i < |charts| ==> charts[i].id != id
    ensures k.Some? ==> k.value < |charts| && charts[k.value].id == id
                        && forall j :: k.value < j < |charts| ==> charts[j].id != id
  {
    if charts == [] then None
    else if charts[|charts| - 1].id == id then Some(|charts| - 1)
    else LastIndex(charts[..|charts| - 1], id)
  }

  /** The last chart slot with id `id`: the one whose value a row keeps. */
  function LastWithId(charts: seq<ChartConfig>, id: string): (c: Option<ChartConfig>)
    ensures c.Some? ==> c.value in charts && c.value.id == id
    ensures c.None? <==> forall i :: 0 <= i < |charts| ==> charts[i].id != id
    ensures c.Some? ==> exists i :: 0 <= i < |charts| && charts[i] == c.value
                                    && forall j :: i < j < |charts| ==> charts[j].id != id
  {
    match LastIndex(charts, id)
    case Some(k) => Some(charts[k])
    case None => None
  }

  function RowKeys(charts: seq<ChartConfig>): set<string> {
    {"label"} + set i | 0 <= i < |charts| :: charts[i].id
  }

  /** What `results[key]` holds once every chart slot has written its value. */
  function ExpectedCell(b: Bucket, charts: seq<ChartConfig>, pool: seq<FoodCard>, key: string): Cell {
    match LastWithId(charts, key)
    case Some(c) => Value(Metric(b, c, pool))
    case None => Text(b.caption)
  }

  /** `row` is the data row of bucket `b`: its keys are `label` and the slot ids, and
      each key holds the value its last slot wrote, the caption otherwise. */
  predicate IsRow(row: map<string, Cell>, b: Bucket, charts: seq<ChartConfig>, pool: seq<FoodCard>) {
    && row.Keys == RowKeys(charts)
    && forall k :: k in row ==> row[k] == ExpectedCell(b, charts, pool, k)
  }

  /** The row of one bucket: `{ label }`, then `results[slot.id] = getMetric(slot)`
      for each chart slot in order. */
  method ChartRow(b: Bucket, charts: seq<ChartConfig>, pool: seq<FoodCard>) returns (row: map<string, Cell>)
    ensures IsRow(row, b, charts, pool)
  {
    row := map["label" := Text(b.caption)];
    var i := 0;
    while i < |charts|
      invariant 0 <= i <= |charts|
      invariant IsRow(row, b, charts[..i], pool)
    {
      RowStep(b, charts, pool, i);
      row := row[charts[i].id := Value(Metric(b, charts[i], pool))];
      i := i + 1;
    }
    assert charts[..i] == charts;
  }

  /** One more chart slot adds its id to the keys and overwrites that key's cell. */
  lemma RowStep(b: Bucket, charts: seq<ChartConfig>, pool: seq<FoodCard>, i: nat)
    requires i < |charts|
    ensures RowKeys(charts[..i + 1]) == RowKeys(charts[..i]) + {charts[i].id}
    ensures forall k :: ExpectedCell(b, charts[..i + 1], pool, k)
                     == if k == charts[i].id then Value(Metric(b, charts[i], pool)) else ExpectedCell(b, charts[..i], pool, k)
  {
    var next := charts[..i + 1];
    assert next[..|next| - 1] == charts[..i] && next[|next| - 1] == charts[i];
    forall k ensures ExpectedCell(b, next, pool, k)
                     == if k == charts[i].id then Value(Metric(b, charts[i], pool)) else ExpectedCell(b, charts[..i], pool, k)
    {
      assert LastWithId(next, k) == if k == charts[i].id then Some(charts[i]) else LastWithId(charts[..i], k);
    }
    forall x ensures x in RowKeys(next) <==> x in RowKeys(charts[..i]) + {charts[i].id} {
      if x in RowKeys(next) && x != "label" && x != charts[i].id {
        var j :| 0 <= j < |next| && next[j].id == x;
        assert charts[..i][j] == next[j];
      }
      if x in RowKeys(charts[..i]) && x != "label" {
        var j :| 0 <= j < i && charts[..i][j].id == x;
        assert next[j] == charts[..i][j];
      }
    }
  }

  /** `processedData`: one row per bucket. */
  method ChartSeries(buckets: seq<Bucket>, charts: seq<ChartConfig>, pool: seq<FoodCard>)
    returns (rows: seq<map<string, Cell>>)
    ensures |rows| == |buckets|
    ensures forall i :: 0 <= i < |buckets| ==> IsRow(rows[i], buckets[i], charts, pool)
  {
    rows := [];
    for j := 0 to |buckets|
      invariant |rows| == j
      invariant forall i :: 0 <= i < j ==> IsRow(rows[i], buckets[i], charts, pool)
    {
      var row := ChartRow(buckets[j], charts, pool);
      RowsSnoc(rows, row, buckets, charts, pool);
      rows := rows + [row];
    }
  }

  lemma RowsSnoc(rows: seq<map<string, Cell>>, row: map<string, Cell>, buckets: seq<Bucket>,
                 charts: seq<ChartConfig>, pool: seq<FoodCard>)
    requires |rows| < |buckets| && IsRow(row, buckets[|rows|], charts, pool)
    requires forall i :: 0 <= i < |rows| ==> IsRow(rows[i], buckets[i], charts, pool)
    ensures forall i :: 0 <= i <= |rows| ==> IsRow((rows + [row])[i], buckets[i], charts, pool)
  {
    forall i | 0 <= i <= |rows| ensures IsRow((rows + [row])[i], buckets[i], charts, pool) {
      if i < |rows| { assert (rows + [row])[i] == rows[i]; }
    }
  }

  /** With unique chart ids every slot's own value is in the row; the caption
      stays under `label` unless a slot is itself named "label". */
  lemma RowHoldsEveryChart(b: Bucket, charts: seq<ChartConfig>, pool: seq<FoodCard>)
    requires UniqueKeys(charts, ChartId)
    ensures forall i :: 0 <= i < |charts| ==> ExpectedCell(b, charts, pool, charts[i].id) == Value(Metric(b, charts[i], pool))
    ensures (forall i :: 0 <= i < |charts| ==> charts[i].id != "label") ==> ExpectedCell(b, charts, pool, "label") == Text(b.caption)
  {
    forall i | 0 <= i < |charts| ensures ExpectedCell(b, charts, pool, charts[i].id) == Value(Metric(b, charts[i], pool)) {
      LastIsOnly(charts, i);
    }
  }

  lemma {:induction false} LastIsOnly(charts: seq<ChartConfig>, i: nat)
    requires UniqueKeys(charts, ChartId) && i < |charts|
    ensures LastWithId(charts, charts[i].id) == Some(charts[i])
  {
    var n := |charts| - 1;
    if i < n {
      assert charts[n].id != charts[i].id;
      assert UniqueKeys(charts[..n], ChartId);
      LastIsOnly(charts[..n], i);
    }
  }
}
