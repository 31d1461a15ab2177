/** The tracker's records. Every entity is a plain value identified by a string
    id (a day by its "YYYY-MM-DD" date key); nothing enforces that the ids a
    record refers to still exist in their pool. */
module Types {
  import opened Wrappers

  /** One nutrient line of a food card, per 100 g. */
  datatype Nutrient = Nutrient(id: string, name: string, valuePer100g: real, unit: string)

  datatype FoodCard = FoodCard(
    id: string,
    name: string,
    image: string,
    defaultWeight: real,
    caloriesPer100g: real,
    nutrients: seq<Nutrient>,
    customTags: seq<string>)

  /** `defaultDuration` and `calorieBurnRate` are optional in a stored card. */
  datatype ActivityCard = ActivityCard(
    id: string,
    name: string,
    icon: string,
    defaultDuration: Option<int>,
    calorieBurnRate: Option<real>)

  /** A logged portion; `calculatedCalories` is the snapshot taken when it was added. */
  datatype FoodItem = FoodItem(foodCardId: string, weight: real, calculatedCalories: int)

  /** `slotLabel` is the slot's `label` ("Breakfast", "Meal 4", ...); `label`
      itself is a Dafny keyword. */
  datatype MealSlot = MealSlot(
    id: string,
    slotLabel: string,
    startTime: string,
    endTime: string,
    foodItems: seq<FoodItem>)

  datatype ActivityRecord = ActivityRecord(
    id: string,
    date: string,
    activityCardId: string,
    startTime: string,
    endTime: string,
    duration: real)

  /** `level` is logged from the 1..10 buttons of the energy screen. */
  datatype EnergyRecord = EnergyRecord(id: string, date: string, time: string, level: int)

  datatype DailyData = DailyData(
    date: string,
    mealSlots: seq<MealSlot>,
    activityRecords: seq<ActivityRecord>,
    energyRecords: seq<EnergyRecord>)

  datatype ChartType = Area | Line | Bar

  /** The metric a chart slot plots; `Unrecognised` is any other stored tag. */
  datatype DataSource =
    | Calories | Energy | Fasting | ActivityFreq | ActivityDur | NutrientGrams
    | Unrecognised(tag: string)

  datatype ChartConfig = ChartConfig(
    id: string,
    title: string,
    chartType: ChartType,
    source: DataSource,
    targetId: Option<string>)

  // Keys of the four collections, as the app's `find`/`findIndex` calls use them.
  function DayDate(d: DailyData): string { d.date }
  function FoodCardId(c: FoodCard): string { c.id }
  function ActivityCardId(c: ActivityCard): string { c.id }
  function ChartId(c: ChartConfig): string { c.id }
  function SlotId(s: MealSlot): string { s.id }
  function ActivityRecordId(r: ActivityRecord): string { r.id }
  function EnergyRecordId(r: EnergyRecord): string { r.id }

  /** JavaScript's `Math.round`: the nearest integer, halves rounded up. */
  function Round(x: real): (n: int)
    ensures x - 1.0 / 2.0 < n as real <= x + 1.0 / 2.0
  {
    (x + 1.0 / 2.0).Floor
  }

  /** The food cards a first run starts with. */
  const InitialFoodCards: seq<FoodCard> := [
    FoodCard("f1", "Oatmeal", "https://picsum.photos/seed/oatmeal/200/200", 200.0, 68.0,
      [Nutrient("n1", "Protein", 2.4, "g"), Nutrient("n2", "Carbs", 12.0, "g"), Nutrient("n3", "Fiber", 1.7, "g")],
      ["Breakfast"]),
    FoodCard("f2", "Grilled Chicken", "https://picsum.photos/seed/chicken/200/200", 150.0, 165.0,
      [Nutrient("n1", "Protein", 31.0, "g"), Nutrient("n2", "Fat", 3.6, "g")],
      ["Lunch", "Protein"])
  ]

  /** The activity cards a first run starts with. */
  const InitialActivityCards: seq<ActivityCard> := [
    ActivityCard("a1", "Sleep", "Moon", Some(480), Some(1.0)),
    ActivityCard("a2", "Workout", "Dumbbell", Some(60), Some(8.0)),
    ActivityCard("a3", "Walking", "Footprints", Some(30), Some(4.0)),
    ActivityCard("a4", "Gaming", "Gamepad2", Some(60), Some(1.5)),
    ActivityCard("a5", "Work", "Briefcase", Some(480), Some(2.0))
  ]

  /** The chart slots a first run starts with. */
  const InitialChartSlots: seq<ChartConfig> := [
    ChartConfig("c1", "Daily Calories", Area, Calories, None),
    ChartConfig("c2", "Energy Score", Line, Energy, None),
    ChartConfig("c3", "Fasting Window", Bar, Fasting, None)
  ]
}
