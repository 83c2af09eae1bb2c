/**
 * The bio-age scoring engine: a per-metric "optimal range" scorer and an
 * aggregator that groups the scored readings by category and turns the
 * summed impacts into a biological age and a pace of aging.
 */
module BioAge {
  import opened Wrappers
  import opened Rounding
  import opened Grouping
  import opened Schema

  /** How one metric is scored: its optimal range `[low, high]` and the most years it can move the estimate. */
  datatype MetricConfig = MetricConfig(
    category: string,
    labelText: string,
    unit: string,
    low: real,
    high: real,
    maxImpact: real,
    lowerIsBetter: bool)

  /** The metric table, keyed by metric key. */
  const MetricTable: map<string, MetricConfig> := map[
    "resting_hr" := MetricConfig("cardiovascular", "Resting HR", "bpm", 45.0, 65.0, 1.5, true),
    "vo2_max" := MetricConfig("cardiovascular", "VO2 Max", "ml/kg/min", 35.0, 55.0, 2.0, false),
    "hrv" := MetricConfig("recovery", "HRV", "ms", 40.0, 100.0, 1.5, false),
    "deep_sleep" := MetricConfig("sleep", "Deep Sleep", "hrs", 1.5, 3.0, 1.2, false),
    "sleep_duration" := MetricConfig("sleep", "Sleep Duration", "hrs", 7.0, 9.0, 0.8, false),
    "active_calories" := MetricConfig("activity", "Active Calories", "cal", 400.0, 800.0, 1.0, false),
    "exercise_minutes" := MetricConfig("activity", "Exercise", "min", 30.0, 90.0, 1.0, false),
    "bmi" := MetricConfig("body_composition", "BMI", "kg/m\U{00C2}\U{00B2}", 18.5, 25.0, 1.5, true),
    "body_fat" := MetricConfig("body_composition", "Body Fat", "%", 10.0, 25.0, 1.0, true)
  ]

  /** Readings older than this many hours are reported as not fresh. */
  const StaleHours: int := 48

  const MillisPerHour: int := 1000 * 60 * 60

  /** The labels of the categories. */
  const CategoryLabels: map<string, string> := map[
    "cardiovascular" := "Cardiovascular",
    "sleep" := "Sleep",
    "recovery" := "Recovery",
    "activity" := "Activity",
    "body_composition" := "Body Composition"
  ]

  /** A configuration the scorer can divide by: a positive range of positive numbers and a positive maximum. */
  predicate WellFormed(c: MetricConfig) {
    0.0 < c.low < c.high && 0.0 < c.maxImpact
  }

  /** Every entry of the metric table is well formed. */
  lemma TableWellFormed()
    ensures forall k :: k in MetricTable ==> WellFormed(MetricTable[k])
  {
  }

  /** `Object.keys(METRIC_CONFIG)`: the metric keys in declaration order. */
  function AllMetricKeys(): seq<string> {
    ["resting_hr", "vo2_max", "hrv", "deep_sleep", "sleep_duration",
     "active_calories", "exercise_minutes", "bmi", "body_fat"]
  }

  /** The key list names every key of the table once. */
  lemma MetricKeysListed()
    ensures Distinct(AllMetricKeys())
    ensures forall k :: k in AllMetricKeys() <==> k in MetricTable
  {
  }

  /** The category of a configured key. */
  function CategoryOfKey(key: string): string {
    if key in MetricTable then MetricTable[key].category else ""
  }

  /** `CATEGORIES`: the distinct categories of the table, in order of first appearance. */
  function Categories(): (r: seq<string>)
    ensures Distinct(r)
    ensures forall k :: k in MetricTable ==> MetricTable[k].category in r
    ensures forall c :: c in r ==> c in CategoryLabels
  {
    ["cardiovascular", "recovery", "sleep", "activity", "body_composition"]
  }

  /** The categories of the table in key order. */
  lemma KeyOrderCategories()
    ensures Keys(AllMetricKeys(), CategoryOfKey) ==
      ["cardiovascular", "cardiovascular", "recovery", "sleep", "sleep",
       "activity", "activity", "body_composition", "body_composition"]
  {
    var r := Keys(AllMetricKeys(), CategoryOfKey);
    TableCategories();
    assert r == [r[0], r[1], r[2], r[3], r[4], r[5], r[6], r[7], r[8]];
  }

  lemma TableCategories()
    ensures CategoryOfKey("resting_hr") == "cardiovascular"
    ensures CategoryOfKey("vo2_max") == "cardiovascular"
    ensures CategoryOfKey("hrv") == "recovery"
    ensures CategoryOfKey("deep_sleep") == "sleep"
    ensures CategoryOfKey("sleep_duration") == "sleep"
    ensures CategoryOfKey("active_calories") == "activity"
    ensures CategoryOfKey("exercise_minutes") == "activity"
    ensures CategoryOfKey("bmi") == "body_composition"
    ensures CategoryOfKey("body_fat") == "body_composition"
  {
  }

  /** The category list is the table's categories taken in key order, duplicates dropped. */
  lemma CategoriesAreFirstSeen()
    ensures Categories() == FirstSeen(Keys(AllMetricKeys(), CategoryOfKey))
  {
    KeyOrderCategories();
    assert Distinct(Categories());
    PairedFirstSeen("cardiovascular", "recovery", "sleep", "activity", "body_composition");
  }

  /** Five distinct keys, each listed twice in a row except the second, collapse to the five keys. */
  lemma PairedFirstSeen<K(!new)>(a: K, b: K, c: K, d: K, e: K)
    requires Distinct([a, b, c, d, e])
    ensures FirstSeen([a, a, b, c, c, d, d, e, e]) == [a, b, c, d, e]
  {
    var s, t := [a, a, b, c, c, d, d, e, e], [a, b, c, d, e];
    assert t[0] != t[1] && t[0] != t[2] && t[0] != t[3] && t[0] != t[4];
    assert t[1] != t[2] && t[1] != t[3] && t[1] != t[4];
    assert t[2] != t[3] && t[2] != t[4] && t[3] != t[4];
    var seenAfter := [1, 1, 2, 3, 3, 4, 4, 5, 5];
    for n := 0 to |s|
      invariant FirstSeen(s[..n]) == t[..if n == 0 then 0 else seenAfter[n - 1]]
    {
      assert s[..n] + [s[n]] == s[..n + 1];
      FirstSeenSnoc(s[..n], s[n]);
    }
    assert s[..|s|] == s;
  }

  /** The label of a category; an unlabelled category is its own label. */
  function CategoryLabel(category: string): (r: string)
    ensures category in CategoryLabels ==> r == CategoryLabels[category]
    ensures category !in CategoryLabels ==> r == category
    ensures r != "" || category == ""
  {
    if category in CategoryLabels && CategoryLabels[category] != "" then CategoryLabels[category] else category
  }

  /** The label of a metric key; an unknown key is its own label. */
  function MetricLabel(key: string): (r: string)
    ensures key in MetricTable ==> r == MetricTable[key].labelText
    ensures key !in MetricTable ==> r == key
    ensures r != "" || key == ""
  {
    if key in MetricTable && MetricTable[key].labelText != "" then MetricTable[key].labelText else key
  }

  function Abs(x: real): real {
    if x < 0.0 then -x else x
  }

  function Min(x: real, y: real): real {
    if x <= y then x else y
  }

  /** `a / b * 2` lies in [0, 1] when `a` is at most half of `b`. */
  lemma HalfRatio(a: real, b: real)
    requires 0.0 <= a <= b / 2.0 && 0.0 < b
    ensures 0.0 <= a / b * 2.0 <= 1.0
  {
    var q := a / b;
    assert q * b == a;
  }

  /** Scaling a positive number by a factor in (0, 1] keeps it in (0, itself], and a factor of at least 0.7 keeps at least 70% of it. */
  lemma Scale(f: real, x: real)
    requires 0.0 < f <= 1.0 && 0.0 < x
    ensures 0.0 < f * x <= x
    ensures f >= 0.7 ==> f * x >= 0.7 * x
  {
  }

  /** `-x * f` for a factor in [0.7, 1] lies between `-x` and `-0.7 * x`, and is `-x` for the factor 1. */
  lemma NegatedScale(f: real, x: real)
    requires 0.7 <= f <= 1.0 && 0.0 < x
    ensures -x <= -x * f <= -0.7 * x
    ensures f == 1.0 ==> -x * f == -x
  {
    Scale(f, x);
    assert -x * f == -(f * x);
  }

  /**
   * The score of a value inside the optimal range: `-maxImpact` at the
   * midpoint, rising linearly to `-0.7 * maxImpact` at either end.
   */
  function InRangeScore(c: MetricConfig, value: real): (r: real)
    requires WellFormed(c) && c.low <= value <= c.high
    ensures -c.maxImpact <= r <= -0.7 * c.maxImpact
    ensures value == (c.low + c.high) / 2.0 ==> r == -c.maxImpact
  {
    var mid := (c.low + c.high) / 2.0;
    var distFromMid := Abs(value - mid) / (c.high - c.low) * 2.0;
    HalfRatio(Abs(value - mid), c.high - c.low);
    var factor := 1.0 - distFromMid * 0.3;
    NegatedScale(factor, c.maxImpact);
    -c.maxImpact * factor
  }

  /** The penalty for a value on the wrong side of the range: `maxImpact * min(2 * relative distance, 1)`. */
  function Penalty(maxImpact: real, relativeDistance: real): (r: real)
    requires 0.0 < maxImpact && 0.0 < relativeDistance
    ensures 0.0 < r <= maxImpact
  {
    Scale(Min(relativeDistance * 2.0, 1.0), maxImpact);
    maxImpact * Min(relativeDistance * 2.0, 1.0)
  }

  /**
   * The signed number of years a value moves the estimate under one
   * configuration (negative is younger).
   */
  function ScoreAgainst(c: MetricConfig, value: real): (r: real)
    requires WellFormed(c)
    ensures -c.maxImpact <= r <= c.maxImpact
    ensures c.low <= value <= c.high ==> -c.maxImpact <= r <= -0.7 * c.maxImpact
    ensures value == (c.low + c.high) / 2.0 ==> r == -c.maxImpact
    ensures c.lowerIsBetter && value < c.low ==> r == -c.maxImpact
    ensures !c.lowerIsBetter && value > c.high ==> r == -c.maxImpact * 0.5
    ensures c.lowerIsBetter && value > c.high ==> 0.0 < r <= c.maxImpact
    ensures !c.lowerIsBetter && value < c.low ==> 0.0 < r <= c.maxImpact
  {
    if c.low <= value <= c.high then InRangeScore(c, value)
    else if c.lowerIsBetter then
      if value < c.low then -c.maxImpact
      else Penalty(c.maxImpact, PositiveRatio(value - c.high, c.high))
    else
      if value > c.high then -c.maxImpact * 0.5
      else Penalty(c.maxImpact, PositiveRatio(c.low - value, c.low))
  }

  /** `a / b`, which is positive for positive `a` and `b`. */
  function PositiveRatio(a: real, b: real): (q: real)
    requires 0.0 < a && 0.0 < b
    ensures 0.0 < q
  {
    a / b
  }

  /**
   * `computeMetricImpact`: an unknown key moves nothing; a known key is
   * scored against its table entry and never moves the estimate by more
   * than that entry's `maxImpact`.
   */
  function ComputeMetricImpact(key: string, value: real): (r: real)
    ensures key !in MetricTable ==> r == 0.0
    ensures key in MetricTable ==> -MetricTable[key].maxImpact <= r <= MetricTable[key].maxImpact
    ensures key in MetricTable ==> r == ScoreAgainst(MetricTable[key], value)
  {
    if key in MetricTable then
      TableWellFormed();
      ScoreAgainst(MetricTable[key], value)
    else 0.0
  }

  /** A scored reading as listed under its category. */
  datatype MetricScore = MetricScore(
    key: string,
    value: real,
    unit: string,
    impact: real,
    isFresh: bool,
    isOverride: bool)

  /** A category, its impact and its readings in input order. */
  datatype CategoryScore = CategoryScore(category: string, impact: real, metrics: seq<MetricScore>)

  datatype BioAgeResult = BioAgeResult(
    bioAge: real,
    chronologicalAge: real,
    paceOfAging: real,
    categories: seq<CategoryScore>,
    totalImpact: real)

  /** A reading is fresh when it was recorded less than `StaleHours` hours before `now` (both in milliseconds). */
  function IsFresh(recordedAt: int, now: int): (r: bool)
    ensures r <==> now - recordedAt < StaleHours * MillisPerHour
  {
    (now - recordedAt) as real / MillisPerHour as real < StaleHours as real
  }

  /** The reading's key has an entry in the metric table. */
  predicate IsKnown(m: HealthMetric) {
    m.metricKey in MetricTable
  }

  /** The readings with a known key, in input order. */
  function Known(ms: seq<HealthMetric>): (r: seq<HealthMetric>)
    ensures |r| <= |ms|
    ensures forall m :: m in r <==> m in ms && IsKnown(m)
  {
    if ms == [] then []
    else
      var front, m := ms[..|ms| - 1], ms[|ms| - 1];
      assert forall x :: x in ms <==> x in front || x == m by {
        assert ms == front + [m];
      }
      if IsKnown(m) then Known(front) + [m] else Known(front)
  }

  /** The category a reading counts under. */
  function ReadingCategory(m: HealthMetric): string {
    CategoryOfKey(m.metricKey)
  }

  /** The unrounded impact of a reading. */
  function ReadingImpact(m: HealthMetric): real {
    ComputeMetricImpact(m.metricKey, m.value)
  }

  /** How a known reading is listed: the unit from the table, the impact rounded to 0.1, and `isOverride` defaulting to false. */
  function Scored(m: HealthMetric, now: int): (r: MetricScore)
    requires IsKnown(m)
    ensures r.key == m.metricKey && r.value == m.value
    ensures IsTenth(r.impact) && -0.05 < r.impact - ReadingImpact(m) <= 0.05
    ensures r.isFresh <==> now - m.recordedAt < StaleHours * MillisPerHour
    ensures r.unit == MetricTable[m.metricKey].unit
    ensures r.isOverride <==> m.isOverride == Some(true)
  {
    MetricScore(m.metricKey, m.value, MetricTable[m.metricKey].unit, Round1(ReadingImpact(m)),
                IsFresh(m.recordedAt, now), m.isOverride.GetOr(false))
  }

  /** A known reading as the first loop adds it: its category, its unrounded impact and its listing. */
  datatype Entry = Entry(category: string, impact: real, score: MetricScore)

  function EntryOf(m: HealthMetric, now: int): Entry
    requires IsKnown(m)
  {
    Entry(ReadingCategory(m), ReadingImpact(m), Scored(m, now))
  }

  /** The entries of the known readings, in input order; readings with an unknown key are skipped. */
  function Entries(ms: seq<HealthMetric>, now: int): seq<Entry> {
    if ms == [] then []
    else
      var es, m := Entries(ms[..|ms| - 1], now), ms[|ms| - 1];
      if IsKnown(m) then es + [EntryOf(m, now)] else es
  }

  function EntryCategory(e: Entry): string {
    e.category
  }

  function EntryImpact(e: Entry): real {
    e.impact
  }

  function EntryScore(e: Entry): MetricScore {
    e.score
  }

  function ImpactOf(c: CategoryScore): real {
    c.impact
  }

  /** A category after one more of its readings: the listed reading last, its unrounded impact added. */
  function AddTo(cs: CategoryScore, e: Entry): CategoryScore {
    CategoryScore(cs.category, cs.impact + e.impact, cs.metrics + [e.score])
  }

  /** A keyed object of categories: its entries and the order in which its keys were created. */
  datatype Tally = Tally(entries: map<string, CategoryScore>, order: seq<string>)

  /** The key order lists every key of the object exactly once. */
  ghost predicate ValidTally(t: Tally) {
    Distinct(t.order) && forall c :: c in t.entries <==> c in t.order
  }

  /**
   * One pass of the first loop for a known reading: create its category (impact 0,
   * no readings) at the end of the key order when it is new, then list the reading
   * there and add its unrounded impact.
   */
  function Add(t: Tally, e: Entry): (r: Tally)
    requires ValidTally(t)
    ensures ValidTally(r)
    ensures r.order == if e.category in t.order then t.order else t.order + [e.category]
  {
    var c := e.category;
    var t1 := if c in t.entries then t else Tally(t.entries[c := CategoryScore(c, 0.0, [])], t.order + [c]);
    Tally(t1.entries[c := AddTo(t1.entries[c], e)], t1.order)
  }

  /** The keyed object after adding `es` one by one to an empty object. */
  function Build(es: seq<Entry>): (t: Tally)
    ensures ValidTally(t)
  {
    if es == [] then Tally(map[], []) else Add(Build(es[..|es| - 1]), es[|es| - 1])
  }

  /** The keyed object after the first loop: categories in order of creation, impacts unrounded. */
  function Grouped(ms: seq<HealthMetric>, now: int): (t: Tally)
    ensures ValidTally(t)
  {
    Build(Entries(ms, now))
  }

  /** The entries in key order, as `Object.values` lists them. */
  function Values(t: Tally): (r: seq<CategoryScore>)
    requires ValidTally(t)
    ensures |r| == |t.order|
    ensures forall k :: 0 <= k < |r| ==> r[k] == t.entries[t.order[k]]
  {
    seq(|t.order|, k requires 0 <= k < |t.order| => t.entries[t.order[k]])
  }

  /** A category with its impact rounded to 0.1 (the second loop). */
  function Rounded(c: CategoryScore): CategoryScore {
    c.(impact := Round1(c.impact))
  }

  /** Every category rounded, in the same order. */
  function RoundAll(g: seq<CategoryScore>): (r: seq<CategoryScore>)
    ensures |r| == |g|
    ensures forall k :: 0 <= k < |g| ==> r[k] == Rounded(g[k])
  {
    if g == [] then [] else RoundAll(g[..|g| - 1]) + [Rounded(g[|g| - 1])]
  }

  /** The sum of the category impacts (the `reduce` over the categories). */
  function SumImpacts(cats: seq<CategoryScore>): real {
    Sum(cats, ImpactOf)
  }

  /**
   * The figures `calculateBioAge` derives from its rounded categories: the total impact,
   * the biological age and the pace of aging (1.0 when no reading was passed at all).
   */
  function Summary(chronologicalAge: real, categories: seq<CategoryScore>, anyMetrics: bool): (r: BioAgeResult)
    requires anyMetrics ==> chronologicalAge != 0.0
    ensures r.chronologicalAge == chronologicalAge && r.categories == categories
    ensures IsTenth(r.bioAge) && IsTenth(r.totalImpact) && IsHundredth(r.paceOfAging)
    ensures !anyMetrics ==> r.paceOfAging == 1.0
  {
    var totalImpact := SumImpacts(categories);
    BioAgeResult(
      Round1(chronologicalAge + totalImpact),
      chronologicalAge,
      if anyMetrics then Round2(1.0 + totalImpact / chronologicalAge) else 1.0,
      categories,
      Round1(totalImpact))
  }

  /** What `calculateBioAge` returns. */
  function BioAgeOf(chronologicalAge: real, metrics: seq<HealthMetric>, now: int): (r: BioAgeResult)
    requires |metrics| > 0 ==> chronologicalAge != 0.0
    ensures r.chronologicalAge == chronologicalAge
  {
    Summary(chronologicalAge, RoundAll(Values(Grouped(metrics, now))), |metrics| > 0)
  }

  /** The entries after one more reading. */
  lemma EntriesSnoc(ms: seq<HealthMetric>, m: HealthMetric, now: int)
    ensures Entries(ms + [m], now) == if IsKnown(m) then Entries(ms, now) + [EntryOf(m, now)] else Entries(ms, now)
    ensures Known(ms + [m]) == if IsKnown(m) then Known(ms) + [m] else Known(ms)
  {
    assert (ms + [m])[..|ms|] == ms;
  }

  /** The keyed object after one more entry. */
  lemma BuildSnoc(es: seq<Entry>, e: Entry)
    ensures Build(es + [e]) == Add(Build(es), e)
  {
    assert (es + [e])[..|es|] == es;
  }

  /** The keyed object after one more reading. */
  lemma GroupedStep(ms: seq<HealthMetric>, i: nat, now: int)
    requires i < |ms|
    ensures Grouped(ms[..i + 1], now) ==
      if IsKnown(ms[i]) then Add(Grouped(ms[..i], now), EntryOf(ms[i], now)) else Grouped(ms[..i], now)
  {
    assert ms[..i + 1] == ms[..i] + [ms[i]];
    EntriesSnoc(ms[..i], ms[i], now);
    if IsKnown(ms[i]) {
      BuildSnoc(Entries(ms[..i], now), EntryOf(ms[i], now));
    }
  }

  /**
   * One pass of the first loop for a reading with a known key: score it, create its
   * category at the end of the key order when it is new, list it there and add its
   * unrounded impact.
   */
  method AddReading(categoryMap: map<string, CategoryScore>, order: seq<string>, metric: HealthMetric, now: int)
    returns (categoryMap': map<string, CategoryScore>, order': seq<string>)
    requires ValidTally(Tally(categoryMap, order)) && IsKnown(metric)
    ensures Tally(categoryMap', order') == Add(Tally(categoryMap, order), EntryOf(metric, now))
  {
    categoryMap', order' := categoryMap, order;
    var config := MetricTable[metric.metricKey];
    var impact := ComputeMetricImpact(metric.metricKey, metric.value);
    var isFresh := IsFresh(metric.recordedAt, now);
    if config.category !in categoryMap' {
      categoryMap' := categoryMap'[config.category := CategoryScore(config.category, 0.0, [])];
      order' := order' + [config.category];
    }
    ghost var created := Tally(categoryMap', order');
    var cat := categoryMap'[config.category];
    var score := MetricScore(metric.metricKey, metric.value, config.unit, Round1(impact), isFresh, metric.isOverride.GetOr(false));
    ghost var e := Entry(config.category, impact, score);
    assert e == EntryOf(metric, now);
    cat := cat.(metrics := cat.metrics + [score]);
    cat := cat.(impact := cat.impact + impact);
    assert cat == AddTo(created.entries[config.category], e);
    categoryMap' := categoryMap'[config.category := cat];
  }

  /**
   * The first loop of `calculateBioAge`: each reading with a known key is scored and
   * added to its category in a keyed object; `order` is that object's key order.
   */
  method GroupReadings(metrics: seq<HealthMetric>, now: int) returns (categoryMap: map<string, CategoryScore>, order: seq<string>)
    ensures Tally(categoryMap, order) == Grouped(metrics, now)
  {
    categoryMap, order := map[], [];
    for i := 0 to |metrics|
      invariant Tally(categoryMap, order) == Grouped(metrics[..i], now)
    {
      var metric := metrics[i];
      GroupedStep(metrics, i, now);
      if metric.metricKey in MetricTable {
        categoryMap, order := AddReading(categoryMap, order, metric, now);
      }
    }
    assert metrics[..|metrics|] == metrics;
  }

  /**
   * The second loop of `calculateBioAge`: round every category's impact to 0.1 in place,
   * then list the categories in key order.
   */
  method RoundCategories(categoryMap: map<string, CategoryScore>, order: seq<string>) returns (categories: seq<CategoryScore>)
    requires ValidTally(Tally(categoryMap, order))
    ensures categories == RoundAll(Values(Tally(categoryMap, order)))
  {
    var rounded := categoryMap;
    for j := 0 to |order|
      invariant forall c :: c in rounded <==> c in order
      invariant forall k :: 0 <= k < j ==> rounded[order[k]] == Rounded(categoryMap[order[k]])
      invariant forall k :: j <= k < |order| ==> rounded[order[k]] == categoryMap[order[k]]
    {
      var cat := rounded[order[j]];
      rounded := rounded[order[j] := cat.(impact := Round1(cat.impact))];
    }
    categories := seq(|order|, k requires 0 <= k < |order| => rounded[order[k]]);
  }

  /**
   * `calculateBioAge`: group the known readings by category, round each category's
   * impact, and derive the totals.
   */
  method CalculateBioAge(chronologicalAge: real, metrics: seq<HealthMetric>, now: int) returns (result: BioAgeResult)
    requires |metrics| > 0 ==> chronologicalAge != 0.0
    ensures result == BioAgeOf(chronologicalAge, metrics, now)
  {
    var categoryMap, order := GroupReadings(metrics, now);
    var categories := RoundCategories(categoryMap, order);
    result := Summary(chronologicalAge, categories, |metrics| > 0);
  }

  // ---------------------------------------------------------------------------
  // Properties of the grouping and of the result
  // ---------------------------------------------------------------------------

  /** `Entries` pairs the known readings one for one with what the first loop adds for them. */
  lemma {:induction false} EntriesOfKnown(ms: seq<HealthMetric>, now: int)
    ensures |Entries(ms, now)| == |Known(ms)|
    ensures forall i :: 0 <= i < |Known(ms)| ==> IsKnown(Known(ms)[i]) && Entries(ms, now)[i] == EntryOf(Known(ms)[i], now)
  {
    if ms != [] {
      var front, m := ms[..|ms| - 1], ms[|ms| - 1];
      assert ms == front + [m];
      EntriesSnoc(front, m, now);
      EntriesOfKnown(front, now);
    }
  }

  /** The categories appear in the order of their first entry, each once. */
  lemma {:induction false} BuildOrder(es: seq<Entry>)
    ensures Build(es).order == FirstSeen(Keys(es, EntryCategory))
  {
    if es != [] {
      var front, e := es[..|es| - 1], es[|es| - 1];
      assert es == front + [e];
      BuildOrder(front);
      KeysSnoc(front, e, EntryCategory);
      FirstSeenSnoc(Keys(front, EntryCategory), e.category);
    }
  }

  /**
   * Category `c` of `t` lists exactly the entries of `es` in category `c`, in order, and
   * its unrounded impact is the sum of their impacts; a category absent from `t` has no
   * entry in `es`.
   */
  predicate ListsEntries(t: Tally, es: seq<Entry>, c: string) {
    if c in t.entries then
      && t.entries[c].category == c
      && t.entries[c].metrics != []
      && t.entries[c].metrics == Keys(Select(es, EntryCategory, c), EntryScore)
      && t.entries[c].impact == Sum(Select(es, EntryCategory, c), EntryImpact)
    else
      Select(es, EntryCategory, c) == []
  }

  /** Adding one entry keeps every category listing its own entries. */
  lemma AddLists(es: seq<Entry>, e: Entry, c: string)
    requires ListsEntries(Build(es), es, c)
    ensures ListsEntries(Build(es + [e]), es + [e], c)
  {
    BuildSnoc(es, e);
    SelectSnoc(es, e, EntryCategory, c);
    if c == e.category {
      SumSnoc(Select(es, EntryCategory, c), e, EntryImpact);
      KeysSnoc(Select(es, EntryCategory, c), e, EntryScore);
    }
  }

  /** Each category lists exactly its own entries, in order, none dropped or merged, and its unrounded impact is their sum. */
  lemma {:induction false} BuildEntries(es: seq<Entry>)
    ensures forall c :: ListsEntries(Build(es), es, c)
  {
    if es != [] {
      var front, e := es[..|es| - 1], es[|es| - 1];
      assert es == front + [e];
      BuildEntries(front);
      forall c ensures ListsEntries(Build(es), es, c) {
        AddLists(front, e, c);
      }
    }
  }

  /** Replacing an entry replaces it in `Values`, at the position of its key. */
  lemma ValuesUpdate(t: Tally, c: string, cs: CategoryScore)
    requires ValidTally(t) && c in t.entries
    ensures ValidTally(Tally(t.entries[c := cs], t.order))
    ensures Values(Tally(t.entries[c := cs], t.order)) == Values(t)[IndexOf(t.order, c) := cs]
  {
    var k := IndexOf(t.order, c);
    var u := Tally(t.entries[c := cs], t.order);
    var v, w := Values(u), Values(t)[k := cs];
    forall j | 0 <= j < |t.order| ensures v[j] == w[j] {
      if j != k {
        assert t.order[j] != c;
      }
    }
    assert v == w;
  }

  /** A new key's entry comes last in `Values`. */
  lemma ValuesNew(t: Tally, c: string, cs: CategoryScore)
    requires ValidTally(t) && c !in t.entries
    ensures ValidTally(Tally(t.entries[c := cs], t.order + [c]))
    ensures Values(Tally(t.entries[c := cs], t.order + [c])) == Values(t) + [cs]
  {
    var u := Tally(t.entries[c := cs], t.order + [c]);
    assert forall j :: 0 <= j < |t.order| ==> t.order[j] != c;
    assert Values(u) == Values(t) + [cs];
  }

  /** Adding an entry adds its impact to the sum over the categories. */
  lemma AddTotal(t: Tally, e: Entry)
    requires ValidTally(t)
    ensures SumImpacts(Values(Add(t, e))) == SumImpacts(Values(t)) + e.impact
  {
    var c, empty := e.category, CategoryScore(e.category, 0.0, []);
    var t1 := if c in t.entries then t else Tally(t.entries[c := empty], t.order + [c]);
    if c !in t.entries {
      ValuesNew(t, c, empty);
      SumSnoc(Values(t), empty, ImpactOf);
    }
    assert SumImpacts(Values(t1)) == SumImpacts(Values(t));
    var cs := AddTo(t1.entries[c], e);
    ValuesUpdate(t1, c, cs);
    SumUpdate(Values(t1), IndexOf(t1.order, c), cs, ImpactOf);
  }

  /** Before rounding, the categories' impacts add up to the impacts of all entries. */
  lemma {:induction false} BuildTotal(es: seq<Entry>)
    ensures SumImpacts(Values(Build(es))) == Sum(es, EntryImpact)
  {
    if es != [] {
      var front, e := es[..|es| - 1], es[|es| - 1];
      assert es == front + [e];
      BuildTotal(front);
      AddTotal(Build(front), e);
      SumSnoc(front, e, EntryImpact);
    }
  }

  /**
   * `calculateBioAge` lists every category of a known reading once, in order of first
   * appearance; each lists exactly its known readings in input order, and its impact is
   * their unrounded impacts added up and then rounded to 0.1.
   */
  lemma CategoriesListed(chronologicalAge: real, metrics: seq<HealthMetric>, now: int)
    requires |metrics| > 0 ==> chronologicalAge != 0.0
    ensures var r, es := BioAgeOf(chronologicalAge, metrics, now), Entries(metrics, now);
            var cs := FirstSeen(Keys(es, EntryCategory));
            && |r.categories| == |cs|
            && forall k :: 0 <= k < |cs| ==>
                 && r.categories[k].category == cs[k]
                 && r.categories[k].metrics != []
                 && r.categories[k].metrics == Keys(Select(es, EntryCategory, cs[k]), EntryScore)
                 && r.categories[k].impact == Round1(Sum(Select(es, EntryCategory, cs[k]), EntryImpact))
  {
    var es := Entries(metrics, now);
    var t := Build(es);
    var cats := BioAgeOf(chronologicalAge, metrics, now).categories;
    assert cats == RoundAll(Values(t));
    BuildOrder(es);
    BuildEntries(es);
    var cs := FirstSeen(Keys(es, EntryCategory));
    forall k | 0 <= k < |cs|
      ensures && cats[k].category == cs[k]
              && cats[k].metrics != []
              && cats[k].metrics == Keys(Select(es, EntryCategory, cs[k]), EntryScore)
              && cats[k].impact == Round1(Sum(Select(es, EntryCategory, cs[k]), EntryImpact))
    {
      var c := t.order[k];
      assert c in t.entries && ListsEntries(t, es, c);
      assert cats[k] == Rounded(t.entries[c]);
    }
  }

  /** Rounding the categories one by one moves their sum by at most 0.05 each, and leaves a sum of tenths. */
  lemma {:induction false} RoundAllDrift(g: seq<CategoryScore>)
    ensures IsTenth(SumImpacts(RoundAll(g)))
    ensures Abs(SumImpacts(RoundAll(g)) - SumImpacts(g)) <= 0.05 * |g| as real
  {
    if g == [] {
      assert SumImpacts(RoundAll(g)) == 0.0;
    } else {
      var n := |g| - 1;
      RoundAllDrift(g[..n]);
      assert RoundAll(g)[..n] == RoundAll(g[..n]);
      TenthSum(SumImpacts(RoundAll(g[..n])), Round1(g[n].impact));
    }
  }

  /** The figures derived from categories whose impacts add up to a whole number of tenths. */
  lemma SummaryFigures(chronologicalAge: real, categories: seq<CategoryScore>, anyMetrics: bool)
    requires anyMetrics ==> chronologicalAge != 0.0
    requires IsTenth(SumImpacts(categories))
    ensures var r := Summary(chronologicalAge, categories, anyMetrics);
            && r.chronologicalAge == chronologicalAge
            && r.categories == categories
            && r.totalImpact == SumImpacts(categories)
            && IsTenth(r.bioAge)
            && Abs(r.bioAge - (chronologicalAge + r.totalImpact)) <= 0.05
            && (IsTenth(chronologicalAge) ==> r.bioAge == chronologicalAge + r.totalImpact)
            && (anyMetrics ==> Abs(r.paceOfAging - (1.0 + r.totalImpact / chronologicalAge)) <= 0.005)
            && (!anyMetrics ==> r.paceOfAging == 1.0)
            && r.bioAge == Round1(chronologicalAge + r.totalImpact)
            && (anyMetrics ==> r.paceOfAging == Round2(1.0 + r.totalImpact / chronologicalAge))
  {
    var total := SumImpacts(categories);
    TenthIsFixed(total);
    if IsTenth(chronologicalAge) {
      TenthSum(chronologicalAge, total);
      TenthIsFixed(chronologicalAge + total);
    }
  }

  /**
   * The reported totals: the total impact is the sum of the rounded category impacts,
   * within 0.05 per category of the sum of the unrounded impacts of the known readings;
   * the biological age is within 0.05 of the chronological age plus the total (exactly
   * that sum when the age is a whole number of tenths, as a whole number of years is);
   * the pace of aging is 1 + total / age to within 0.005, and 1.0 when no reading was passed.
   * `ExactFigures` states the two rounded figures exactly.
   */
  lemma Totals(chronologicalAge: real, metrics: seq<HealthMetric>, now: int)
    requires |metrics| > 0 ==> chronologicalAge != 0.0
    ensures var r := BioAgeOf(chronologicalAge, metrics, now);
            && r.chronologicalAge == chronologicalAge
            && IsTenth(r.totalImpact)
            && r.totalImpact == SumImpacts(r.categories)
            && Abs(r.totalImpact - Sum(Entries(metrics, now), EntryImpact)) <= 0.05 * |r.categories| as real
            && IsTenth(r.bioAge)
            && Abs(r.bioAge - (chronologicalAge + r.totalImpact)) <= 0.05
            && (IsTenth(chronologicalAge) ==> r.bioAge == chronologicalAge + r.totalImpact)
            && (|metrics| > 0 ==> Abs(r.paceOfAging - (1.0 + r.totalImpact / chronologicalAge)) <= 0.005)
            && (|metrics| == 0 ==> r.paceOfAging == 1.0)
  {
    var es := Entries(metrics, now);
    var v := Values(Build(es));
    assert BioAgeOf(chronologicalAge, metrics, now) == Summary(chronologicalAge, RoundAll(v), |metrics| > 0);
    RoundAllDrift(v);
    BuildTotal(es);
    SummaryFigures(chronologicalAge, RoundAll(v), |metrics| > 0);
    var r := BioAgeOf(chronologicalAge, metrics, now);
    assert r.totalImpact == SumImpacts(RoundAll(v)) && |r.categories| == |v|;
    var x, y := SumImpacts(RoundAll(v)), SumImpacts(v);
    assert Abs(x - y) <= 0.05 * |v| as real;
  }

  /**
   * The biological age is the chronological age plus the total impact rounded to 0.1,
   * and the pace is 1 + total / age rounded to 0.01, halves rounded up as `Math.round` does.
   */
  lemma ExactFigures(chronologicalAge: real, metrics: seq<HealthMetric>, now: int)
    requires |metrics| > 0 ==> chronologicalAge != 0.0
    ensures var r := BioAgeOf(chronologicalAge, metrics, now);
            && r.bioAge == Round1(chronologicalAge + r.totalImpact)
            && (|metrics| > 0 ==> r.paceOfAging == Round2(1.0 + r.totalImpact / chronologicalAge))
  {
    var v := Values(Grouped(metrics, now));
    RoundAllDrift(v);
    TenthIsFixed(SumImpacts(RoundAll(v)));
  }

  /** A half-way pace rounds up: age 40 with a total impact of -0.2 gives pace 1, not 0.99. */
  lemma HalfwayPaceRoundsUp()
    ensures 1.0 + -0.2 / 40.0 == 0.995
    ensures Round2(0.995) == 1.0
  {
    assert 0.995 * 100.0 + 0.5 == 100.0;
  }

  /** The figures for an empty list of categories. */
  lemma SummaryOfNone(chronologicalAge: real, anyMetrics: bool)
    requires anyMetrics ==> chronologicalAge != 0.0
    ensures Summary(chronologicalAge, [], anyMetrics) == BioAgeResult(Round1(chronologicalAge), chronologicalAge, 1.0, [], 0.0)
  {
    assert SumImpacts([]) == 0.0;
    TenthIsFixed(0.0);
    if anyMetrics {
      assert 1.0 + 0.0 / chronologicalAge == 1.0;
      Round2One();
    }
  }

  /** No known reading, no entry. */
  lemma NoEntries(ms: seq<HealthMetric>, now: int)
    requires Known(ms) == []
    ensures Entries(ms, now) == []
  {
    EntriesOfKnown(ms, now);
  }

  /** With no known reading there are no categories, the total is 0 and the pace is 1. */
  lemma NoKnownReadings(chronologicalAge: real, metrics: seq<HealthMetric>, now: int)
    requires |metrics| > 0 ==> chronologicalAge != 0.0
    requires Known(metrics) == []
    ensures BioAgeOf(chronologicalAge, metrics, now) == BioAgeResult(Round1(chronologicalAge), chronologicalAge, 1.0, [], 0.0)
  {
    NoEntries(metrics, now);
    assert Values(Build([])) == [];
    assert BioAgeOf(chronologicalAge, metrics, now) == Summary(chronologicalAge, [], |metrics| > 0);
    SummaryOfNone(chronologicalAge, |metrics| > 0);
  }

  /** Dropping the readings with unknown keys leaves the entries alone. */
  lemma {:induction false} EntriesIgnoreUnknown(ms: seq<HealthMetric>, now: int)
    ensures Entries(Known(ms), now) == Entries(ms, now)
  {
    if ms != [] {
      var front, m := ms[..|ms| - 1], ms[|ms| - 1];
      assert ms == front + [m];
      EntriesSnoc(front, m, now);
      EntriesIgnoreUnknown(front, now);
      if IsKnown(m) {
        EntriesSnoc(Known(front), m, now);
      }
    }
  }

  /** Readings whose key has no table entry change nothing in the result. */
  lemma UnknownReadingsIgnored(chronologicalAge: real, metrics: seq<HealthMetric>, now: int)
    requires |metrics| > 0 ==> chronologicalAge != 0.0
    ensures BioAgeOf(chronologicalAge, metrics, now) == BioAgeOf(chronologicalAge, Known(metrics), now)
  {
    EntriesIgnoreUnknown(metrics, now);
    if Known(metrics) == [] {
      NoKnownReadings(chronologicalAge, metrics, now);
      assert Known(Known(metrics)) == [];
      NoKnownReadings(chronologicalAge, Known(metrics), now);
    } else {
      assert |Known(metrics)| > 0 && |metrics| > 0;
    }
  }
}
