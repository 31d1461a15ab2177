# LifeBalance tracker: a Dafny model of its record keeping and metrics

LifeBalance is a single-page React tracker for meals, activities, energy levels
and fasting windows. All of its logic lives in `App.tsx`. This project models
that logic and proves properties about it:

- **Collections.** The app keeps four collections: food cards, activity cards,
  day records (keyed by a `"YYYY-MM-DD"` date) and chart slots. `Tracker.AppState`
  holds them as `seq` fields. Each screen handler is a method that reassigns one
  field.
- **Selected day.** A date with no stored record reads as a default day with
  three empty meal slots. Every edit of the selected day merges a partial update
  into the resolved day and then does one of two things:
  - overwrites the stored record at its `findIndex` position, or
  - appends the merged day.
- **Cards and charts.** Food cards, activity cards and chart slots are saved by
  the same replace-or-append rule and deleted by filtering on their id.
- **Screens.** The screens show these aggregates:
  - total calories of a day (the sum of the one-time calorie snapshots of its
    food items);
  - calories burned (duration times the card's burn rate, where a missing card
    or rate counts 0);
  - average energy (no number when nothing is logged);
  - the eating window (from the earliest start to the latest end of the slots
    holding food).
- **Analytics.** Every chart slot gets one value per bucket of the selected
  period (`getMetric`):
  - In the Day period a bucket is an hour. Entries are picked by the
    two-character hour prefix of their `"HH:MM"` time.
  - Otherwise a bucket is a set of whole day records.

Modules:

| module | file | contents |
|---|---|---|
| `Wrappers` | wrappers.dfy | `Option` |
| `Lists` | lists.dfy | find / findIndex / upsert / filter / sums over sequences, with their lemmas |
| `Clock` | clock.dfy | `"HH:MM"` strings: minutes, hour prefix, string order, min / max |
| `Types` | types.dfy | the entities, `Math.round`, the first-run seed data |
| `Metrics` | metrics.dfy | the calorie, burn, energy and eating-window aggregates |
| `Day` | day.dfy | the day resolver, the merge and upsert of the selected day, the slot / food / activity / energy edits |
| `Chart` | chart.dfy | buckets, `getMetric`, the per-bucket result rows |
| `Float` | float.dfy | binary64 rounding, to evaluate the calorie snapshot the way JavaScript does |
| `Tracker` | tracker.dfy | the state class and its handlers |

Numbers that are JavaScript floating point in the app are exact `real`s here,
activity durations included: the duration input stores `Number(...)` of what is
typed (App.tsx:644), which can be fractional. Counts, minutes of the day and
calorie snapshots are `int`. `Math.round(x)` is
`floor(x + 1/2)`, which is its definition for every real.

## Model

| member | source | states |
|---|---|---|
| Lists.IndexOfKey | App.tsx:88 | `findIndex` by key: `None` exactly when no element has the key; otherwise an in-range index holding the key with no earlier element holding it |
| Lists.FindByKey | App.tsx:72 | `find` by key: `None` exactly when no element has the key; otherwise the element at the `findIndex` position |
| Lists.Upsert | App.tsx:86-97 | replace-or-append: with the key present, same length, the `findIndex` position holds the new element and every other position is unchanged; with the key absent, the old list with the element appended |
| Lists.RemoveKey | App.tsx:482 | filter by id: no survivor has the id, every element with another id survives, nothing new appears |
| Lists.Filter | App.tsx:192 | a filter keeps exactly the elements satisfying the predicate and never grows |
| Lists.UpsertThenFind | App.tsx:526-530 | after an upsert, looking up the element's key finds exactly that element |
| Lists.UpsertFindOther | App.tsx:187-191 | an upsert leaves the lookup of every other key unchanged |
| Lists.UpsertKeepsUnique | App.tsx:193-197 | replace-or-append never creates a second element with the same key |
| Lists.FilterKeepsUnique | App.tsx:198 | deleting by filter keeps keys unique |
| Lists.FilterHeadIsFind | App.tsx:413-417 | the first record of a date filter is the record `find` returns, and the filter is empty exactly when `find` fails |
| Lists.FilterUniqueKey | App.tsx:415 | with unique keys, filtering on one key gives the found element alone, or nothing |
| Clock.Minutes | App.tsx:320-323 | a well-formed `"HH:MM"` gives a minute of the day in 0..1439 whose hour is `HH`; a malformed one gives 0 |
| Clock.FormatClock | App.tsx:344 | formatting a minute of the day gives a well-formed clock string |
| Clock.ClockRoundTrip | App.tsx:344 | reading a clock string and formatting it again gives the same string |
| Clock.MinutesRoundTrip | App.tsx:348 | formatting a minute of the day and reading it back gives the same minute |
| Clock.HourLabel | App.tsx:421 | `format(hour, 'HH')` is two digits spelling the hour |
| Clock.HourPrefix | App.tsx:421 | a clock starts with the prefix of hour `h` exactly when its hour is `h` |
| Clock.ClockOrder | App.tsx:319 | on clock strings, string order coincides with time order |
| Clock.LexLeTotal | App.tsx:319 | the string order is total |
| Clock.LexLeTransitive | App.tsx:319 | the string order is transitive |
| Clock.LexLeAntisymmetric | App.tsx:319 | the string order is antisymmetric |
| Clock.LexMin | App.tsx:319-320 | the head after an ascending sort is an element not above any other |
| Clock.LexMax | App.tsx:321 | the head after a descending sort is an element not below any other |
| Types.Round | App.tsx:160 | `Math.round` lands within one half of its argument, halves rounding up |
| Metrics.SlotCalories | App.tsx:222 | a slot without food items has 0 calories; a slot whose snapshots are non-negative has non-negative calories |
| Metrics.DayCalories | App.tsx:222 | a day whose snapshots are all non-negative has a non-negative `totalCals` |
| Metrics.AllItems | App.tsx:222 | the flattened items are exactly the items of the slots |
| Metrics.DayCaloriesIsItemSum | App.tsx:222 | the nested `totalCals` reduction equals the plain sum of all item snapshots |
| Metrics.NoFoodNoCalories | App.tsx:222 | a day without food items has 0 calories |
| Metrics.CaloriesExample | App.tsx:222 | items of 120 + 80 and 200 kcal total 400 |
| Metrics.BurnRate | App.tsx:611 | `card?.calorieBurnRate \|\| 0`: 0 for a card missing from the pool, the card's rate (0 when unset) otherwise |
| Metrics.Burned | App.tsx:611 | `totalBurned` is 0 when no record's card has a burn rate, whether the card is missing or its rate unset |
| Metrics.RecordBurnNonNegative | App.tsx:611 | one record of non-negative duration burns a non-negative amount when the pool's rates are non-negative |
| Metrics.UnknownCardBurnsNothing | App.tsx:611 | a record whose card is not in the pool adds nothing to `totalBurned` |
| Lists.RealSumNonNegative | App.tsx:611 | a `reduce` sum of non-negative terms is non-negative |
| Metrics.BurnedNonNegative | App.tsx:611 | with non-negative durations and rates, `totalBurned` is non-negative |
| Metrics.BurnedExample | App.tsx:611 | 30 min of workout at 8 and 20 min of walking at 4 (seed rates) burn 320 |
| Metrics.WorkoutAndWalkingRates | constants.tsx:40-41 | the seed burn rates of Workout and Walking are 8 and 4 |
| Metrics.AverageEnergy | App.tsx:678-680 | no value exactly when there are no records; otherwise the value times the count is the level sum (no division by zero) |
| Metrics.LevelSumBounds | App.tsx:678-680 | levels within [lo, hi] sum to within [lo·n, hi·n] |
| Metrics.AverageWithinScale | App.tsx:678-680 | the average of levels logged on a scale lies on that scale |
| Metrics.AverageExample | App.tsx:678-680 | levels 4, 6, 8 average to 6 |
| Metrics.EatingWindow | App.tsx:314-325 | duration = end − start; (0, 0, 0) when no slot holds food; the span is taken over the slots with food only |
| Metrics.EatingWindowExtremes | App.tsx:318-323 | with well-formed times the window starts at the earliest start and ends at the latest end among the slots holding food, both attained |
| Metrics.MealWithinWindow | App.tsx:318-323 | with well-formed times, every slot holding food starts no earlier than the window starts and ends no later than it ends |
| Metrics.WindowAttained | App.tsx:318-323 | some slot holding food starts exactly when the window starts, and some ends exactly when it ends |
| Metrics.WindowOfTwoMeals | App.tsx:318-325 | when the slots with food are two, in time order, the window runs from the first one's start to the second one's end |
| Metrics.EatingWindowExample | App.tsx:314-325 | food at 08:00–08:30 and 19:00–19:30 with an empty lunch gives (480, 1170, 690) |
| Metrics.Span | App.tsx:432-436 | the analytics fasting span: 0 for no meals; otherwise the end of some meal minus the start of some meal; with well-formed times, exactly the latest end of any meal minus the earliest start of any meal, and so at least every single meal's length |
| Metrics.SpanBounds | App.tsx:433-435 | the heads of the two sorts are times of actual meals; with well-formed times they are the start of a meal that starts no later than any other and the end of a meal that ends no earlier than any other |
| Metrics.SweepDegrees | App.tsx:386-389 | the dial's sweep is never negative; it is a quarter degree per minute when the end is not before the start, 0 otherwise |
| Day.DefaultDay | App.tsx:73-83 | the default day carries the date, no activity or energy records, and three slots Breakfast, Lunch and Dinner, all without food |
| Day.Resolve | App.tsx:71-84 | the stored record with the date (the first one) if any; otherwise a day with that date, the Breakfast / Lunch / Dinner slots and empty lists |
| Day.Merge | App.tsx:89 | `{ ...day, ...patch }`: each field the patch names is replaced, every other field and the date kept |
| Day.UpdateDay | App.tsx:86-97 | with a stored record, same length, that record replaced by the merged day, all others unchanged; without one, the merged default day appended |
| Day.ResolveAfterUpdate | App.tsx:86-97 | after an update the day resolves to the merged day |
| Day.ResolveOtherAfterUpdate | App.tsx:86-97 | an update of one date leaves every other date resolving as before |
| Day.UpdateKeepsDatesUnique | App.tsx:86-97 | updates never create a second record for a date |
| Day.Decimal | App.tsx:153 | the template literal's number is a nonempty digit string whose digits spell the number, with no leading zero unless the number is 0 |
| Day.AddSlot | App.tsx:151-155 | nine or more slots: unchanged; otherwise exactly one new empty slot `Meal n+1` at the given time appended after the old slots |
| Day.RemoveSlot | App.tsx:156 | the surviving slots are exactly those without the id |
| Day.SetSlotTime | App.tsx:157 | slots with the id get the new start or end time and nothing else changes; other slots are untouched |
| Day.NewFoodItem | App.tsx:158-160 | the item records the card id and default weight, and calories within one half of weight × kcal / 100 |
| Day.AddFood | App.tsx:158-162 | slots with the id get the new item appended; all other slots unchanged |
| Day.RemoveAt | App.tsx:163 | `filter((_, i) => i !== idx)`: the item at `idx` goes and the order of the rest is kept; an out-of-range index changes nothing |
| Day.RemoveFoodItem | App.tsx:163 | slots with the id lose item `idx`; all other slots unchanged |
| Day.AddFoodCalories | App.tsx:158-162 | adding food raises the day's calories by the snapshot once per slot with that id |
| Day.RemoveFoodItemCalories | App.tsx:163 | removing item `idx` lowers the day's calories by that item's snapshot once per slot with that id |
| Day.DefaultDuration | App.tsx:108 | `card.defaultDuration \|\| 30`: the card's duration unless unset or 0, then 30 |
| Day.AddActivity | App.tsx:99-111 | no result exactly when the card is not in the pool; otherwise one record appended, stamped with the date, card id and time, and carrying the default duration |
| Day.UpdateActivity | App.tsx:170 | records with the id take the edited start, end and duration; id, date and card are kept; other records untouched |
| Day.RemoveActivity | App.tsx:171 | the surviving activity records are exactly those without the id |
| Day.LogEnergy | App.tsx:180 | one record with the level, date and time appended after the old ones |
| Day.RemoveEnergy | App.tsx:181 | the surviving energy records are exactly those without the id |
| Day.FastingData | App.tsx:314-325 | `getFastingData`: the duration is end − start, and a date without a record gives (0, 0, 0) |
| Day.FastingDataOfResolvedDay | App.tsx:314-318 | the fasting screen's window is the eating window of the resolved day's slots; a date without a record gives (0, 0, 0) |
| Chart.DayBuckets | App.tsx:407 | the Day period has 24 buckets, bucket `h` with hour prefix `HH` and the records of the selected date |
| Chart.DayData | App.tsx:417 | `dayData` is the first record of an hour bucket, and absent in the other periods or when there is no record |
| Chart.NutrientPer100g | App.tsx:448-449 | the `valuePer100g` of the first nutrient with the name on the first card with the id; 0 for a food card missing from the pool, 0 when the first card with the id does not list the nutrient (whatever other cards list), and 0 for a nutrient no card lists; never negative when the cards' values are not |
| Chart.OatmealHasNoFat | App.tsx:448-449 | the seed Oatmeal card lists no fat, so it has 0 g of fat per 100 g, although the seed Chicken card lists fat |
| Chart.OatmealProtein | App.tsx:446-451 | 200 g of the seed Oatmeal card (2.4 g protein per 100 g, constants.tsx:12-18) hold 4.8 g of protein, and a day whose one breakfast is that portion totals 4.8 g |
| Chart.NutrientTotal | App.tsx:446-451 | a nutrient no food card lists totals 0 g over any records; the grams of a found nutrient follow from `Chart.NutrientPer100g`, and sums over days from `Chart.WholeDaysAdditive` |
| Chart.NutrientTotalNonNegative | App.tsx:446-451 | with non-negative nutrient values and item weights, a nutrient total is non-negative |
| Chart.DayNutrientNonNegative | App.tsx:447-451 | the same for the slots of one day |
| Chart.SlotNutrientNonNegative | App.tsx:447-451 | the same for the items of one slot |
| Chart.AllEnergy | App.tsx:426 | `flatMap` of the energy lists: a record is in the result exactly when some day holds it, and its length is the sum of the days' energy counts |
| Chart.AllSlots | App.tsx:431 | `flatMap` of the meal slots: a slot is in the result exactly when some day holds it |
| Chart.AtHour | App.tsx:421-430 | the hour filter keeps exactly the entries whose time starts with the hour prefix, and never grows |
| Chart.Metric | App.tsx:419-454 | only the energy metric can be `null`; an unrecognised source, or a nutrient chart without a target, is 0; what each source computes is stated by the lemmas that follow (calendar-day, whole-day and hour-bucket values) |
| Chart.HourTotalSnoc | App.tsx:421 | one more entry adds its weight to exactly the hour its time names |
| Chart.HoursPartition | App.tsx:421 | with well-formed times, summing the 24 hour-prefix filters gives the plain sum: every entry lands in exactly one hour |
| Chart.HourBucketCalories | App.tsx:420 | the calories of hour bucket `h` are the calories of the selected day's slots whose start time has hour `h` |
| Chart.DayCaloriesPrefix | App.tsx:420-421 | the first `n` hourly calorie values sum to the first `n` hour totals of the selected day |
| Chart.DayCaloriesPartition | App.tsx:420-422 | the 24 hourly calorie bars of a day add up to that day's `totalCals` |
| Chart.CalendarDayCalories | App.tsx:422 | with one record per date, a day bucket's calories equal the nutrition screen's `totalCals` for that day |
| Chart.CalendarDayEnergy | App.tsx:426-427 | with one record per date, a day bucket's energy equals the energy screen's average for that day |
| Chart.CalendarDayFasting | App.tsx:431-436 | with one record per date, a day bucket's fasting value equals the fasting screen's window duration |
| Chart.DayFastingIgnoresFood | App.tsx:430 | in the Day period an hour whose slots hold no food still gets a fasting span (30 at 08:00 for the default day), while the day bucket gets 0 |
| Chart.BreakfastHour | App.tsx:430 | of the default slots only Breakfast starts in hour `08` |
| Chart.ActivityFreqBounded | App.tsx:438-440 | `activity_freq` is between 0 and the number of activity records the bucket holds |
| Chart.ActivityFreqAll | App.tsx:440 | with target `'all'` a day-record bucket counts every activity record |
| Chart.ActivityDurAll | App.tsx:444 | with target `'all'` a day-record bucket sums every activity duration |
| Chart.MatchAllDuration | App.tsx:444 | target `'all'` keeps every activity record of a day, so its duration sum is the day's whole duration |
| Chart.TargetFilter | App.tsx:439-440 | with a card id other than `'all'` as target, the activity filter keeps exactly the records of that card: its length is their count and its duration sum is their minutes |
| Chart.ActivityFreqTarget | App.tsx:440 | with a card as target, `activity_freq` of a week, month or year bucket is the sum over its days of the number of that card's records |
| Chart.ActivityDurTarget | App.tsx:444 | with a card as target, `activity_dur` of a week, month or year bucket is the sum over its days of that card's minutes |
| Chart.WholeDaysAdditive | App.tsx:420-451 | for calories, activity count, activity minutes and nutrient grams, the value of a bucket of whole days is additive: the days `xs + ys` show the value of `xs` plus the value of `ys` |
| Chart.WholeDaysSum | App.tsx:420-451 | for those sources, a bucket of whole days shows the sum of what each of its days shows on its own |
| Chart.OneDayCalories | App.tsx:421-422 | one whole day on its own shows that day's `totalCals` |
| Chart.HourEnergy | App.tsx:424-427 | with well-formed times, the energy point of hour bucket `h` is the average of the selected day's levels logged at an hour `h` time (`null` when there are none) |
| Chart.HourActivities | App.tsx:438-439 | with well-formed times, the hour-`h` activity filter is the target filter applied to the records that start in hour `h` |
| Chart.HourActivityTarget | App.tsx:438-444 | with a card as target, the activity bars of hour `h` count, and sum the minutes of, exactly that card's records starting in hour `h` |
| Chart.UnknownNutrientIsZero | App.tsx:446-451 | a nutrient no food card lists sums to 0 grams |
| Chart.LastIndex | App.tsx:457-458 | none exactly when no slot has the id; otherwise the position of a slot with the id after which no slot has it |
| Chart.LastWithId | App.tsx:457-458 | the slot whose value a key keeps is the last slot with that id: it has the id and no later slot has it; there is none exactly when no slot has the id |
| Chart.ChartRow | App.tsx:456-459 | the row's keys are `label` and the slot ids, and each key holds the value the last slot with that id wrote, the caption otherwise |
| Chart.ChartSeries | App.tsx:412-460 | one row per bucket, each row as `ChartRow` states |
| Chart.RowHoldsEveryChart | App.tsx:456-459 | with unique slot ids each slot's own metric is in the row, and the caption stays under `label` when no slot is named `label` |
| Chart.LastIsOnly | App.tsx:457-458 | with unique ids the last slot with a slot's id is that slot |
| Float.NearestEven | App.tsx:160 | `n / d` rounded to the nearest integer: within a half of it, and even on a tie |
| Float.ToDouble | App.tsx:160 | the double of `p / q`: scaled into its binade, its significand is within half a unit of the scaled value |
| Float.BinadeExists | App.tsx:160 | every positive fraction has a binade |
| Float.BinadeUnique | App.tsx:160 | a fraction has only one binade, so the double of a value is determined |
| Float.BinadesApart | App.tsx:160 | scaled into one binade, a fraction is too large for every higher one |
| Float.RatioOf29 | App.tsx:160 | `29 / 100` is the double 5224175567749775 × 2^-54 |
| Float.ProductOf50 | App.tsx:160 | 50 times that double is the double 8162774324609023 × 2^-49, just under 14.5 |
| Float.HalfCalorieRoundsDown | App.tsx:160 | a 50 g portion of a 29 kcal / 100 g card is stored as 14 kcal, half a calorie or more below the exact 14.5, where `Day.NewFoodItem` gives 15 |
| Tracker.FindIndex | App.tsx:88 | -1 exactly when no element has the key; otherwise the first index that has it, in agreement with `Lists.IndexOfKey` |
| Tracker.Upserted | App.tsx:189-190 | the copy-then-assign upsert computes `Lists.Upsert` |
| Tracker.AppState.FirstRun | App.tsx:39-61 | the seed cards, no day records and the three default charts, all keys unique |
| Tracker.AppState.Load | App.tsx:39-61 | each collection is its saved value if there is one, else its first-run value |
| Tracker.AppState.UpdateCurrentDayData | App.tsx:86-97 | the records become `Day.UpdateDay` of the old ones; the selected day resolves to the merged day; every other day and every other collection is unchanged; unique keys are kept |
| Tracker.AppState.AddActivity | App.tsx:99-111 | an unknown card changes nothing; otherwise the day's activities become `Day.AddActivity`'s result |
| Tracker.AppState.AddSlot | App.tsx:151-155 | nine or more slots change nothing; otherwise the day's slots become `Day.AddSlot`'s result |
| Tracker.AppState.RemoveSlot | App.tsx:156 | the day's slots lose the slot; nothing else changes |
| Tracker.AppState.UpdateSlotTime | App.tsx:157 | the day's slots become `Day.SetSlotTime`'s result; nothing else changes |
| Tracker.AppState.AddFood | App.tsx:158-162 | the day's slots become `Day.AddFood`'s result; nothing else changes |
| Tracker.AppState.RemoveFoodItem | App.tsx:163 | the day's slots become `Day.RemoveFoodItem`'s result; nothing else changes |
| Tracker.AppState.UpdateActivity | App.tsx:170 | the day's activities become `Day.UpdateActivity`'s result; nothing else changes |
| Tracker.AppState.RemoveActivity | App.tsx:171 | the day's activities lose the record; nothing else changes |
| Tracker.AppState.LogEnergy | App.tsx:180 | the day's energy list gains the record; nothing else changes |
| Tracker.AppState.RemoveEnergyRecord | App.tsx:181 | the day's energy list loses the record; nothing else changes |
| Tracker.AppState.SaveFood | App.tsx:187-191 | the food pool becomes the upsert by id; the other collections are unchanged; ids stay unique |
| Tracker.AppState.RemoveFood | App.tsx:192 | the food pool loses the card with that id; the rest is unchanged; ids stay unique |
| Tracker.AppState.SaveActivityCard | App.tsx:193-197 | the activity pool becomes the upsert by id; the rest is unchanged; ids stay unique |
| Tracker.AppState.RemoveActivityCard | App.tsx:198 | the activity pool loses the card with that id; the rest is unchanged; ids stay unique |
| Tracker.AppState.SaveChart | App.tsx:526-530 | the chart slots become the upsert by id; the rest is unchanged; ids stay unique |
| Tracker.AppState.RemoveChart | App.tsx:482 | the chart slots lose the slot with that id; the rest is unchanged; ids stay unique |

## Left out

- Persistence: `localStorage` and `JSON.parse` / `JSON.stringify` (App.tsx:39-68) are browser I/O. A saved value is a parameter of `Tracker.AppState.Load`, and saving is not modelled.
- `fileToBase64` and the image upload (App.tsx:26-33) are asynchronous file I/O.
- `Math.random` ids and the current time are nondeterministic. Each handler takes the id and one `"HH:MM"` time `now` as parameters. The app reads the clock twice for a new activity's or slot's start and end (two `format(new Date(), 'HH:mm')` calls, App.tsx:106-107 and 153). The two readings can straddle a minute boundary, and the model's single `now` does not capture that.
- The selected date is also a parameter. Turning a `Date` into `"yyyy-MM-dd"` is not modelled.
- Bucket generation by date-fns (`eachHourOfInterval`, `startOfWeek`, `eachDayOfInterval`, `subMonths`) comes from a library outside this model. A bucket is given as a caption, an optional hour prefix and its records.
  - `Chart.DayBuckets` builds the Day period's 24 hours.
  - `Chart.CalendarDayBucket` and `Chart.MonthBucket` build the record sets of a calendar day and of a `"YYYY-MM"` month. The latter stands in for `isSameMonth(parseISO(...))`.
- `Circular24hChart` trigonometry and SVG output (App.tsx:379-397) are left out. Only the clamp of the sweep to non-negative values is kept (`Metrics.SweepDegrees`).
- JSX, recharts, styling, the case-insensitive search of the food pool (App.tsx:223) and `toFixed(1)` (App.tsx:679) are presentation only.
- Floating point: weights, rates, durations, nutrient values and averages are exact reals, so rounding error in JavaScript's sums and averages is not modelled.
- Day.NewFoodItem: the snapshot is the exact product weight × kcal / 100 rounded half up. The app divides first and rounds in binary floating point, so a product that is exactly a half can come out just below it. `Math.round(50 * (29 / 100))` is 14, because the product is 14.499999999999998, where the model gives 15; (90, 35), (170, 35) and (150, 41) behave the same way. `Float.HalfCalorieRoundsDown` derives the first case (see Findings).
- Float.ToDouble: only non-negative values are rounded, each in its normal binade; negative numbers, overflow and subnormals cannot arise in a calorie snapshot. `Float.JsSnapshot` takes whole-number weights and calories, and `Float.HalfCalorieRoundsDown` derives its one case rather than a general error bound.
- Chart.DayBuckets: 24 hourly buckets hold only on a 24-hour day. On a daylight-saving change `eachHourOfInterval` (App.tsx:407) yields 23 or 25 hours: one hour prefix is missing, or one occurs twice.
- Chart.DayCaloriesPartition: the 24 bars add up to `totalCals` only on a 24-hour day. On a 23-hour day the slots of the skipped hour are in no bar, and on a 25-hour day the repeated hour's slots are counted in two bars.
- Clock.Minutes: a malformed time gives 0 where the app computes `NaN`. A cleared time input yields `""` (App.tsx:244, 246, 640), and the handlers store it (App.tsx:157, 170). The eating window and the fasting span of such a slot are then `NaN` in the app, but computed with 0 in the model.
- Clock.LexLe: `localeCompare` is modelled as code-point order. On zero-padded `"HH:MM"` strings the two agree; `Clock.ClockOrder` proves that this order is time order on them.
- Clock.LexMin: sorting and taking the head is modelled as the least element. Only the time string of that slot is used, so ties between slots do not matter.
- The Analytics chart editor's form state and its modal are left out. Only its save (an upsert by id) and the delete button are modelled.
- The card editor `EditModal` (App.tsx:791-910) is form state. Only its save is modelled (`Tracker.AppState.SaveFood`, `Tracker.AppState.SaveActivityCard`), and it takes the saved card as a parameter. The form has no `defaultDuration` field, so saving an edited activity card drops the card's duration, and `handleAddActivity` then falls back to 30 (App.tsx:108). The model's save stores whatever card it is given.
- `getIcon` and the icon table (constants.tsx:46-69) return React nodes.
- types.ts declares a `time` field on `MealSlot` and a 1–5 `level`. The app uses `startTime` / `endTime` and logs levels 1–10, and the model follows the app.
- services/geminiService.ts is not part of this model; its functions return constant strings.
- Tracker.AppState.UpdateCurrentDayData: React applies the update to `prev` while the merged day is built from the rendered `currentDayData`. The model treats both as the same state, which holds when one handler runs per render.
- Tracker.AppState.FirstRun: the ids of the seed cards and default charts are modelled exactly. Card images, icon names and chart titles are kept as plain strings.

## Findings

| source | as written | input that shows it | evidently intended | confidence | as-written member | corrected member |
|---|---|---|---|---|---|---|
| App.tsx:160 | the snapshot divides the calories by 100 before multiplying by the weight, in binary floating point, and rounds the result | a card with default weight 50 and 29 kcal per 100 g: the product is 14.499999999999998 and 14 kcal is stored | weight × kcal / 100 rounded half up, 15 kcal | not executed; the double arithmetic is derived in `Float` | Float.JsSnapshot, Float.HalfCalorieRoundsDown | Day.NewFoodItem |
