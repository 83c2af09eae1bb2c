/**
 * The client-side HealthKit sync: how `syncHealthData` turns the samples the
 * native module returns into at most six `HealthKitMetric`s, one per metric key.
 *
 * The native calls are not modelled; what each call answered is an input
 * (`Answers`). Sleep samples arrive with their night key (the `YYYY-MM-DD`
 * prefix of the start time) and their length in hours already computed.
 */
module HealthKit {
  import opened Wrappers
  import opened Rounding
  import opened Grouping

  /** One metric the client uploads. */
  datatype HealthKitMetric = HealthKitMetric(category: string, metricKey: string, value: real, unit: string)

  /** One sleep-analysis sample: the night it belongs to, its stage name, and its length in hours. */
  datatype SleepSample = SleepSample(nightKey: string, value: string, hours: real)

  /** The per-night totals `{ inBed, asleep }` of the night map. */
  datatype Night = Night(inBed: real, asleep: real)

  /**
   * What each HealthKit call answered: `None` when the call was rejected (the
   * error is caught and the metric skipped) or resolved to nothing, otherwise
   * the sample values in the order HealthKit returned them.
   * `walkingSpeedAvailable` is whether the module has `getWalkingSpeedSamples` at all.
   */
  datatype Answers = Answers(
    restingHr: Option<seq<real>>,
    hrv: Option<seq<real>>,
    vo2Max: Option<seq<real>>,
    sleep: Option<seq<SleepSample>>,
    walkingSpeedAvailable: bool,
    walkingSpeed: Option<seq<real>>)

  /** How a sleep sample is counted. */
  datatype Stage = InBedStage | AsleepStage | Uncounted

  function StageOf(s: SleepSample): Stage {
    if s.value == "INBED" then InBedStage
    else if s.value == "ASLEEP" || s.value == "CORE" || s.value == "DEEP" || s.value == "REM" then AsleepStage
    else Uncounted
  }

  function NightKeyOf(s: SleepSample): string {
    s.nightKey
  }

  /** The hours of the samples of night `k` among `ss` that count towards `stage`. */
  function StageTotal(ss: seq<SleepSample>, k: string, stage: Stage): real {
    if ss == [] then 0.0
    else
      var s := ss[|ss| - 1];
      StageTotal(ss[..|ss| - 1], k, stage) + if s.nightKey == k && StageOf(s) == stage then s.hours else 0.0
  }

  /** The totals of night `k`: its in-bed hours and its hours in any sleep stage. */
  function NightOf(ss: seq<SleepSample>, k: string): Night {
    Night(StageTotal(ss, k, InBedStage), StageTotal(ss, k, AsleepStage))
  }

  /** The nights in the order the night map first meets them. */
  function NightOrder(ss: seq<SleepSample>): seq<string> {
    FirstSeen(Keys(ss, NightKeyOf))
  }

  /** `Object.values(nightMap)`: the totals of every night, in first-seen order. */
  function NightList(ss: seq<SleepSample>): (r: seq<Night>)
    ensures |r| == |NightOrder(ss)|
    ensures forall i :: 0 <= i < |r| ==> r[i] == NightOf(ss, NightOrder(ss)[i])
  {
    var order := NightOrder(ss);
    seq(|order|, i requires 0 <= i < |order| => NightOf(ss, order[i]))
  }

  /** A night none of whose samples has been seen has no time. */
  lemma {:induction false} StageTotalNew(ss: seq<SleepSample>, k: string, stage: Stage)
    requires k !in Keys(ss, NightKeyOf)
    ensures StageTotal(ss, k, stage) == 0.0
  {
    if ss != [] {
      var front := ss[..|ss| - 1];
      KeysSnoc(front, ss[|ss| - 1], NightKeyOf);
      assert ss == front + [ss[|ss| - 1]];
      StageTotalNew(front, k, stage);
    }
  }

  /** A night none of whose samples has been seen yet starts at zero. */
  lemma NightOfNew(ss: seq<SleepSample>, k: string)
    requires k !in Keys(ss, NightKeyOf)
    ensures NightOf(ss, k) == Night(0.0, 0.0)
  {
    StageTotalNew(ss, k, InBedStage);
    StageTotalNew(ss, k, AsleepStage);
  }

  /** One more sample adds its hours to its own night, to the total its stage counts towards. */
  lemma NightOfSnoc(ss: seq<SleepSample>, s: SleepSample, k: string)
    ensures NightOf(ss + [s], k) == NightAfter(NightOf(ss, k), s, k)
  {
    assert (ss + [s])[..|ss|] == ss;
  }

  /** The totals of night `k` once sample `s` has been added. */
  function NightAfter(n: Night, s: SleepSample, k: string): Night {
    if s.nightKey != k then n
    else match StageOf(s)
      case InBedStage => n.(inBed := n.inBed + s.hours)
      case AsleepStage => n.(asleep := n.asleep + s.hours)
      case Uncounted => n
  }

  /** Every night in the map holds the totals of its samples among `ss`. */
  ghost predicate NightsOf(nightMap: map<string, Night>, ss: seq<SleepSample>) {
    forall k :: k in nightMap ==> nightMap[k] == NightOf(ss, k)
  }

  /** Creating the entry of a night not seen before keeps the map right. */
  lemma NightsOfNew(nightMap: map<string, Night>, ss: seq<SleepSample>, k: string)
    requires NightsOf(nightMap, ss)
    requires k !in Keys(ss, NightKeyOf)
    ensures NightsOf(nightMap[k := Night(0.0, 0.0)], ss)
  {
    NightOfNew(ss, k);
  }

  /** Adding a sample to its night's entry keeps the map right. */
  lemma NightsOfSnoc(nightMap: map<string, Night>, ss: seq<SleepSample>, s: SleepSample)
    requires NightsOf(nightMap, ss)
    requires s.nightKey in nightMap
    ensures NightsOf(nightMap[s.nightKey := NightAfter(nightMap[s.nightKey], s, s.nightKey)], ss + [s])
  {
    forall k ensures NightOf(ss + [s], k) == NightAfter(NightOf(ss, k), s, k) {
      NightOfSnoc(ss, s, k);
    }
  }

  /** The stage test of the night-map loop: in-bed time, time in a sleep stage, or neither. */
  method AddSample(night: Night, s: SleepSample) returns (updated: Night)
    ensures updated == NightAfter(night, s, s.nightKey)
  {
    updated := night;
    if s.value == "INBED" {
      updated := updated.(inBed := updated.inBed + s.hours);
    } else if s.value == "ASLEEP" || s.value == "CORE" || s.value == "DEEP" || s.value == "REM" {
      updated := updated.(asleep := updated.asleep + s.hours);
    }
  }

  /** The night-map loop of the sleep section. */
  method AccumulateNights(samples: seq<SleepSample>) returns (nightMap: map<string, Night>, order: seq<string>)
    ensures order == NightOrder(samples)
    ensures forall k :: k in nightMap <==> k in order
    ensures NightsOf(nightMap, samples)
  {
    nightMap, order := map[], [];
    for i := 0 to |samples|
      invariant order == NightOrder(samples[..i])
      invariant forall k :: k in nightMap <==> k in order
      invariant NightsOf(nightMap, samples[..i])
    {
      var s := samples[i];
      var nightKey := s.nightKey;
      ghost var prefix := samples[..i];
      assert samples[..i + 1] == prefix + [s];
      KeysSnoc(prefix, s, NightKeyOf);
      FirstSeenSnoc(Keys(prefix, NightKeyOf), nightKey);
      assert nightKey in nightMap <==> nightKey in Keys(prefix, NightKeyOf);
      if nightKey !in nightMap {
        NightsOfNew(nightMap, prefix, nightKey);
        nightMap := nightMap[nightKey := Night(0.0, 0.0)];
        order := order + [nightKey];
      }
      NightsOfSnoc(nightMap, prefix, s);
      var night := AddSample(nightMap[nightKey], s);
      nightMap := nightMap[nightKey := night];
    }
    assert samples[..|samples|] == samples;
  }

  /** A night that kept any time at all. */
  predicate HasSleep(n: Night) {
    n.inBed > 0.0 || n.asleep > 0.0
  }

  /** A night with both in-bed and asleep time. */
  predicate HasBoth(n: Night) {
    n.inBed > 0.0 && n.asleep > 0.0
  }

  /** `n.asleep || n.inBed`: the asleep hours, or the in-bed hours when none were asleep. */
  function SleepHours(n: Night): real {
    if n.asleep != 0.0 then n.asleep else n.inBed
  }

  /** `n.asleep / n.inBed * 100`; only ever applied to nights with in-bed time. */
  function Efficiency(n: Night): real {
    if n.inBed == 0.0 then 0.0 else n.asleep / n.inBed * 100.0
  }

  function Identity(x: real): real {
    x
  }

  /** `reduce((s, x) => s + w(x), 0) / s.length`. */
  function Average<T>(s: seq<T>, w: T -> real): real
    requires |s| > 0
  {
    Sum(s, w) / |s| as real
  }

  /** The metric of a section that averages its samples, when there are any. */
  function AveragePart(samples: Option<seq<real>>, category: string, key: string, unit: string, round: real -> real): seq<HealthKitMetric> {
    if samples.Some? && |samples.value| > 0 then [HealthKitMetric(category, key, round(Average(samples.value, Identity)), unit)]
    else []
  }

  /** The VO2 max section, which reports the first sample instead of an average. */
  function Vo2MaxPart(samples: Option<seq<real>>): seq<HealthKitMetric> {
    if samples.Some? && |samples.value| > 0 then [HealthKitMetric("fitness", "vo2_max", Round1(samples.value[0]), "ml/kg/min")]
    else []
  }

  /** The sleep section: duration over the nights with any time, efficiency over those with both kinds. */
  function SleepPart(samples: Option<seq<SleepSample>>): seq<HealthKitMetric> {
    if samples.None? || |samples.value| == 0 then [] else SleepMetrics(NightList(samples.value))
  }

  /** The sleep metrics computed from the night totals. */
  function SleepMetrics(all: seq<Night>): seq<HealthKitMetric> {
      var nights := Filter(all, HasSleep);
      if |nights| == 0 then []
      else
        var both := Filter(nights, HasBoth);
        [HealthKitMetric("sleep", "sleep_duration", Round1(Average(nights, SleepHours)), "hrs")] +
        if |both| == 0 then [] else [HealthKitMetric("sleep", "sleep_efficiency", Round1(Average(both, Efficiency)), "%")]
  }

  /** The walking-speed section, which runs only when the module has the call. */
  function WalkingSpeedPart(a: Answers): seq<HealthKitMetric> {
    if a.walkingSpeedAvailable then AveragePart(a.walkingSpeed, "mobility", "walking_speed", "m/s", Round2) else []
  }

  /** What `syncHealthData` returns, as a specification. */
  function Synced(moduleLoaded: bool, initialized: bool, a: Answers): (r: seq<HealthKitMetric>)
    ensures !moduleLoaded || !initialized ==> r == []
    ensures |r| <= 6
  {
    if !moduleLoaded || !initialized then []
    else
      AveragePart(a.restingHr, "autonomic", "resting_hr", "bpm", Round1) +
      AveragePart(a.hrv, "autonomic", "hrv", "ms", Round1) +
      Vo2MaxPart(a.vo2Max) +
      SleepPart(a.sleep) +
      WalkingSpeedPart(a)
  }

  /** The sleep section of `syncHealthData`. */
  method SleepSection(samples: Option<seq<SleepSample>>) returns (part: seq<HealthKitMetric>)
    ensures part == SleepPart(samples)
  {
    part := [];
    if samples.Some? && |samples.value| > 0 {
      var nightMap, order := AccumulateNights(samples.value);
      var all := seq(|order|, i requires 0 <= i < |order| => nightMap[order[i]]);
      assert all == NightList(samples.value);
      part := SleepFigures(all);
    }
  }

  /** The averaging half of the sleep section, over `Object.values(nightMap)`. */
  method SleepFigures(all: seq<Night>) returns (part: seq<HealthKitMetric>)
    ensures part == SleepMetrics(all)
  {
    part := [];
    var nights := Filter(all, HasSleep);
    if |nights| > 0 {
      var avgSleep := Average(nights, SleepHours);
      part := part + [HealthKitMetric("sleep", "sleep_duration", Round1(avgSleep), "hrs")];
      var nightsWithBoth := Filter(nights, HasBoth);
      if |nightsWithBoth| > 0 {
        var avgEff := Average(nightsWithBoth, Efficiency);
        part := part + [HealthKitMetric("sleep", "sleep_efficiency", Round1(avgEff), "%")];
      }
    }
  }

  /**
   * `syncHealthData`, given whether the module loaded, whether initialisation
   * succeeded, and what each call answered. `stampSync` is whether the last sync
   * time is written.
   */
  method SyncHealthData(moduleLoaded: bool, initialized: bool, a: Answers) returns (metrics: seq<HealthKitMetric>, stampSync: bool)
    ensures metrics == Synced(moduleLoaded, initialized, a)
    ensures !moduleLoaded || !initialized ==> metrics == []
    ensures stampSync <==> |metrics| > 0
  {
    if !moduleLoaded || !initialized {
      return [], false;
    }
    metrics := [];
    if a.restingHr.Some? && |a.restingHr.value| > 0 {
      var avg := Average(a.restingHr.value, Identity);
      metrics := metrics + [HealthKitMetric("autonomic", "resting_hr", Round1(avg), "bpm")];
    }
    assert metrics == AveragePart(a.restingHr, "autonomic", "resting_hr", "bpm", Round1);
    ghost var upToHrv := metrics;
    if a.hrv.Some? && |a.hrv.value| > 0 {
      var avgHrv := Average(a.hrv.value, Identity);
      metrics := metrics + [HealthKitMetric("autonomic", "hrv", Round1(avgHrv), "ms")];
    }
    assert metrics == upToHrv + AveragePart(a.hrv, "autonomic", "hrv", "ms", Round1);
    ghost var upToVo2 := metrics;
    if a.vo2Max.Some? && |a.vo2Max.value| > 0 {
      metrics := metrics + [HealthKitMetric("fitness", "vo2_max", Round1(a.vo2Max.value[0]), "ml/kg/min")];
    }
    assert metrics == upToVo2 + Vo2MaxPart(a.vo2Max);
    var sleepPart := SleepSection(a.sleep);
    metrics := metrics + sleepPart;
    ghost var upToWalking := metrics;
    if a.walkingSpeedAvailable && a.walkingSpeed.Some? && |a.walkingSpeed.value| > 0 {
      var avg := Average(a.walkingSpeed.value, Identity);
      metrics := metrics + [HealthKitMetric("mobility", "walking_speed", Round2(avg), "m/s")];
    }
    assert metrics == upToWalking + WalkingSpeedPart(a);
    stampSync := |metrics| > 0;
  }

  // Properties of the sync result.

  function MetricKeyOf(m: HealthKitMetric): string {
    m.metricKey
  }

  /** A section answer with at least one sample. */
  predicate Answered<T>(samples: Option<seq<T>>) {
    samples.Some? && |samples.value| > 0
  }

  /** The metrics of `ms` reported under `key`. */
  function Under(ms: seq<HealthKitMetric>, key: string): seq<HealthKitMetric> {
    if ms == [] then [] else (if ms[0].metricKey == key then [ms[0]] else []) + Under(ms[1..], key)
  }

  lemma UnderSingle(m: HealthKitMetric, key: string)
    ensures Under([m], key) == if m.metricKey == key then [m] else []
  {
    assert [m][1..] == [];
  }

  lemma {:induction false} UnderConcat(xs: seq<HealthKitMetric>, ys: seq<HealthKitMetric>, key: string)
    ensures Under(xs + ys, key) == Under(xs, key) + Under(ys, key)
  {
    if xs == [] {
      assert xs + ys == ys;
    } else {
      assert (xs + ys)[1..] == xs[1..] + ys;
      UnderConcat(xs[1..], ys, key);
    }
  }

  /** A section reports nothing under another section's key. */
  lemma AverageUnderOther(samples: Option<seq<real>>, category: string, k: string, unit: string, round: real -> real, key: string)
    requires key != k
    ensures Under(AveragePart(samples, category, k, unit, round), key) == []
  {
    if Answered(samples) {
      UnderSingle(AveragePart(samples, category, k, unit, round)[0], key);
    }
  }

  lemma AverageUnderOwn(samples: Option<seq<real>>, category: string, k: string, unit: string, round: real -> real)
    ensures Under(AveragePart(samples, category, k, unit, round), k) == AveragePart(samples, category, k, unit, round)
  {
    if Answered(samples) {
      UnderSingle(AveragePart(samples, category, k, unit, round)[0], k);
    }
  }

  lemma Vo2MaxUnder(samples: Option<seq<real>>, key: string)
    ensures Under(Vo2MaxPart(samples), key) == if key == "vo2_max" then Vo2MaxPart(samples) else []
  {
    if Answered(samples) {
      UnderSingle(Vo2MaxPart(samples)[0], key);
    }
  }

  lemma SleepUnderOther(samples: Option<seq<SleepSample>>, key: string)
    requires key != "sleep_duration" && key != "sleep_efficiency"
    ensures Under(SleepPart(samples), key) == []
  {
    if Answered(samples) {
      SleepMetricsUnder(NightList(samples.value), key);
    }
  }

  lemma WalkingSpeedUnder(a: Answers, key: string)
    ensures Under(WalkingSpeedPart(a), key) == if key == "walking_speed" then WalkingSpeedPart(a) else []
  {
    if key == "walking_speed" {
      AverageUnderOwn(a.walkingSpeed, "mobility", "walking_speed", "m/s", Round2);
    } else {
      AverageUnderOther(a.walkingSpeed, "mobility", "walking_speed", "m/s", Round2, key);
    }
  }

  /** Sleep efficiency is reported over the nights with both kinds of time, whether or not they are filtered twice. */
  lemma SleepMetricsUnder(all: seq<Night>, key: string)
    ensures Under(SleepMetrics(all), key) ==
              if key == "sleep_duration" && Filter(all, HasSleep) != [] then
                [HealthKitMetric("sleep", key, Round1(Average(Filter(all, HasSleep), SleepHours)), "hrs")]
              else if key == "sleep_efficiency" && Filter(all, HasBoth) != [] then
                [HealthKitMetric("sleep", key, Round1(Average(Filter(all, HasBoth), Efficiency)), "%")]
              else []
  {
    FilterImplied(all, HasSleep, HasBoth);
    var nights := Filter(all, HasSleep);
    if |nights| > 0 {
      var both := Filter(nights, HasBoth);
      var d := HealthKitMetric("sleep", "sleep_duration", Round1(Average(nights, SleepHours)), "hrs");
      UnderSingle(d, key);
      if |both| > 0 {
        var e := HealthKitMetric("sleep", "sleep_efficiency", Round1(Average(both, Efficiency)), "%");
        UnderConcat([d], [e], key);
        UnderSingle(e, key);
      } else {
        assert SleepMetrics(all) == [d];
      }
    } else {
      assert both0: Filter(all, HasBoth) == [] by {
        assert Filter(nights, HasBoth) == [];
      }
    }
  }

  /** The parts of the sync result, one per section. */
  lemma SyncedParts(a: Answers, key: string)
    ensures Under(Synced(true, true, a), key) ==
              Under(AveragePart(a.restingHr, "autonomic", "resting_hr", "bpm", Round1), key) +
              Under(AveragePart(a.hrv, "autonomic", "hrv", "ms", Round1), key) +
              Under(Vo2MaxPart(a.vo2Max), key) +
              Under(SleepPart(a.sleep), key) +
              Under(WalkingSpeedPart(a), key)
  {
    var p1 := AveragePart(a.restingHr, "autonomic", "resting_hr", "bpm", Round1);
    var p2 := AveragePart(a.hrv, "autonomic", "hrv", "ms", Round1);
    var p3 := Vo2MaxPart(a.vo2Max);
    var p4 := SleepPart(a.sleep);
    var p5 := WalkingSpeedPart(a);
    UnderConcat(p1 + p2 + p3 + p4, p5, key);
    UnderConcat(p1 + p2 + p3, p4, key);
    UnderConcat(p1 + p2, p3, key);
    UnderConcat(p1, p2, key);
  }

  /** Resting heart rate is reported once, as the rounded mean of its samples, exactly when there are samples. */
  lemma RestingHrReported(a: Answers)
    ensures Under(Synced(true, true, a), "resting_hr") ==
              if Answered(a.restingHr) then [HealthKitMetric("autonomic", "resting_hr", Round1(Average(a.restingHr.value, Identity)), "bpm")] else []
  {
    var key := "resting_hr";
    SyncedParts(a, key);
    AverageUnderOwn(a.restingHr, "autonomic", "resting_hr", "bpm", Round1);
    AverageUnderOther(a.hrv, "autonomic", "hrv", "ms", Round1, key);
    Vo2MaxUnder(a.vo2Max, key);
    SleepUnderOther(a.sleep, key);
    WalkingSpeedUnder(a, key);
  }

  /** HRV is reported once, as the rounded mean of its samples, exactly when there are samples. */
  lemma HrvReported(a: Answers)
    ensures Under(Synced(true, true, a), "hrv") ==
              if Answered(a.hrv) then [HealthKitMetric("autonomic", "hrv", Round1(Average(a.hrv.value, Identity)), "ms")] else []
  {
    var key := "hrv";
    SyncedParts(a, key);
    AverageUnderOther(a.restingHr, "autonomic", "resting_hr", "bpm", Round1, key);
    AverageUnderOwn(a.hrv, "autonomic", "hrv", "ms", Round1);
    Vo2MaxUnder(a.vo2Max, key);
    SleepUnderOther(a.sleep, key);
    WalkingSpeedUnder(a, key);
  }

  /** VO2 max is reported once, as its first sample rounded, exactly when there are samples. */
  lemma Vo2MaxReported(a: Answers)
    ensures Under(Synced(true, true, a), "vo2_max") ==
              if Answered(a.vo2Max) then [HealthKitMetric("fitness", "vo2_max", Round1(a.vo2Max.value[0]), "ml/kg/min")] else []
  {
    var key := "vo2_max";
    SyncedParts(a, key);
    AverageUnderOther(a.restingHr, "autonomic", "resting_hr", "bpm", Round1, key);
    AverageUnderOther(a.hrv, "autonomic", "hrv", "ms", Round1, key);
    Vo2MaxUnder(a.vo2Max, key);
    SleepUnderOther(a.sleep, key);
    WalkingSpeedUnder(a, key);
  }

  /** Sleep duration is reported once, as the rounded mean over the nights that kept any time, exactly when there are such nights. */
  lemma SleepDurationReported(a: Answers)
    ensures Under(Synced(true, true, a), "sleep_duration") ==
              if Answered(a.sleep) && Filter(NightList(a.sleep.value), HasSleep) != [] then
                [HealthKitMetric("sleep", "sleep_duration", Round1(Average(Filter(NightList(a.sleep.value), HasSleep), SleepHours)), "hrs")]
              else []
  {
    var key := "sleep_duration";
    SyncedParts(a, key);
    AverageUnderOther(a.restingHr, "autonomic", "resting_hr", "bpm", Round1, key);
    AverageUnderOther(a.hrv, "autonomic", "hrv", "ms", Round1, key);
    Vo2MaxUnder(a.vo2Max, key);
    if Answered(a.sleep) {
      SleepMetricsUnder(NightList(a.sleep.value), key);
    }
    WalkingSpeedUnder(a, key);
  }

  /** Sleep efficiency is reported once, as the rounded mean over the nights with both kinds of time, exactly when there are such nights. */
  lemma SleepEfficiencyReported(a: Answers)
    ensures Under(Synced(true, true, a), "sleep_efficiency") ==
              if Answered(a.sleep) && Filter(NightList(a.sleep.value), HasBoth) != [] then
                [HealthKitMetric("sleep", "sleep_efficiency", Round1(Average(Filter(NightList(a.sleep.value), HasBoth), Efficiency)), "%")]
              else []
  {
    var key := "sleep_efficiency";
    SyncedParts(a, key);
    AverageUnderOther(a.restingHr, "autonomic", "resting_hr", "bpm", Round1, key);
    AverageUnderOther(a.hrv, "autonomic", "hrv", "ms", Round1, key);
    Vo2MaxUnder(a.vo2Max, key);
    if Answered(a.sleep) {
      SleepMetricsUnder(NightList(a.sleep.value), key);
    }
    WalkingSpeedUnder(a, key);
  }

  /** Walking speed is reported once, as the mean rounded to hundredths, exactly when the call exists and has samples. */
  lemma WalkingSpeedReported(a: Answers)
    ensures Under(Synced(true, true, a), "walking_speed") ==
              if a.walkingSpeedAvailable && Answered(a.walkingSpeed) then
                [HealthKitMetric("mobility", "walking_speed", Round2(Average(a.walkingSpeed.value, Identity)), "m/s")]
              else []
  {
    var key := "walking_speed";
    SyncedParts(a, key);
    AverageUnderOther(a.restingHr, "autonomic", "resting_hr", "bpm", Round1, key);
    AverageUnderOther(a.hrv, "autonomic", "hrv", "ms", Round1, key);
    Vo2MaxUnder(a.vo2Max, key);
    SleepUnderOther(a.sleep, key);
    WalkingSpeedUnder(a, key);
  }

  /** No other key is ever reported. */
  lemma OnlySyncKeys(moduleLoaded: bool, initialized: bool, a: Answers, key: string)
    requires key != "resting_hr" && key != "hrv" && key != "vo2_max"
    requires key != "sleep_duration" && key != "sleep_efficiency" && key != "walking_speed"
    ensures Under(Synced(moduleLoaded, initialized, a), key) == []
  {
    if moduleLoaded && initialized {
      SyncedParts(a, key);
      AverageUnderOther(a.restingHr, "autonomic", "resting_hr", "bpm", Round1, key);
      AverageUnderOther(a.hrv, "autonomic", "hrv", "ms", Round1, key);
      Vo2MaxUnder(a.vo2Max, key);
      SleepUnderOther(a.sleep, key);
      WalkingSpeedUnder(a, key);
    }
  }

  /** The position of each key in the order the sections run. */
  function Rank(key: string): nat {
    if key == "resting_hr" then 0
    else if key == "hrv" then 1
    else if key == "vo2_max" then 2
    else if key == "sleep_duration" then 3
    else if key == "sleep_efficiency" then 4
    else if key == "walking_speed" then 5
    else 6
  }

  /** The keys of `ms` come in strictly increasing rank, each between `lo` and `hi`. */
  predicate RankedWithin(ms: seq<HealthKitMetric>, lo: nat, hi: nat) {
    (forall i :: 0 <= i < |ms| ==> lo <= Rank(ms[i].metricKey) < hi) &&
    (forall i, j :: 0 <= i < j < |ms| ==> Rank(ms[i].metricKey) < Rank(ms[j].metricKey))
  }

  lemma RankedConcat(xs: seq<HealthKitMetric>, ys: seq<HealthKitMetric>, lo: nat, mid: nat, hi: nat)
    requires lo <= mid <= hi
    requires RankedWithin(xs, lo, mid) && RankedWithin(ys, mid, hi)
    ensures RankedWithin(xs + ys, lo, hi)
  {
    var zs := xs + ys;
    forall i | 0 <= i < |zs| ensures lo <= Rank(zs[i].metricKey) < hi {
      if i < |xs| {
        assert zs[i] == xs[i] && lo <= Rank(xs[i].metricKey) < mid;
      } else {
        assert zs[i] == ys[i - |xs|] && mid <= Rank(ys[i - |xs|].metricKey) < hi;
      }
    }
    forall i, j | 0 <= i < j < |zs| ensures Rank(zs[i].metricKey) < Rank(zs[j].metricKey) {
      if j < |xs| {
        assert zs[i] == xs[i] && zs[j] == xs[j];
      } else if i < |xs| {
        assert zs[i] == xs[i] && zs[j] == ys[j - |xs|];
      } else {
        assert zs[i] == ys[i - |xs|] && zs[j] == ys[j - |xs|];
      }
    }
  }

  lemma SleepMetricsRanked(all: seq<Night>)
    ensures RankedWithin(SleepMetrics(all), 3, 5)
  {
    var nights := Filter(all, HasSleep);
    if |nights| > 0 {
      var both := Filter(nights, HasBoth);
      var d := HealthKitMetric("sleep", "sleep_duration", Round1(Average(nights, SleepHours)), "hrs");
      assert Rank(d.metricKey) == 3;
      if |both| > 0 {
        var e := HealthKitMetric("sleep", "sleep_efficiency", Round1(Average(both, Efficiency)), "%");
        assert Rank(e.metricKey) == 4;
        assert SleepMetrics(all) == [d, e];
      } else {
        assert SleepMetrics(all) == [d];
      }
    }
  }

  lemma SectionsRanked(a: Answers)
    ensures RankedWithin(AveragePart(a.restingHr, "autonomic", "resting_hr", "bpm", Round1), 0, 1)
    ensures RankedWithin(AveragePart(a.hrv, "autonomic", "hrv", "ms", Round1), 1, 2)
    ensures RankedWithin(Vo2MaxPart(a.vo2Max), 2, 3)
    ensures RankedWithin(SleepPart(a.sleep), 3, 5)
    ensures RankedWithin(WalkingSpeedPart(a), 5, 6)
  {
    if Answered(a.sleep) {
      SleepMetricsRanked(NightList(a.sleep.value));
    }
  }

  /** Keys of strictly increasing rank are distinct, and there are at most as many as ranks. */
  lemma {:induction false} RankedDistinct(ms: seq<HealthKitMetric>, lo: nat, hi: nat)
    requires lo <= hi
    requires RankedWithin(ms, lo, hi)
    ensures Distinct(Keys(ms, MetricKeyOf))
    ensures |ms| <= hi - lo
  {
    var ks := Keys(ms, MetricKeyOf);
    forall i, j | 0 <= i < j < |ks| ensures ks[i] != ks[j] {
      assert Rank(ms[i].metricKey) < Rank(ms[j].metricKey);
    }
    if ms != [] {
      var first := Rank(ms[0].metricKey);
      var rest := ms[1..];
      assert RankedWithin(rest, first + 1, hi) by {
        forall i | 0 <= i < |rest| ensures first + 1 <= Rank(rest[i].metricKey) < hi {
          assert rest[i] == ms[i + 1];
        }
        forall i, j | 0 <= i < j < |rest| ensures Rank(rest[i].metricKey) < Rank(rest[j].metricKey) {
          assert rest[i] == ms[i + 1] && rest[j] == ms[j + 1];
        }
      }
      RankedDistinct(rest, first + 1, hi);
    }
  }

  /** The pushes of the sections come in section order. */
  lemma SyncedRanked(a: Answers)
    ensures RankedWithin(Synced(true, true, a), 0, 6)
  {
    var p1 := AveragePart(a.restingHr, "autonomic", "resting_hr", "bpm", Round1);
    var p2 := AveragePart(a.hrv, "autonomic", "hrv", "ms", Round1);
    var p3 := Vo2MaxPart(a.vo2Max);
    var p4 := SleepPart(a.sleep);
    var p5 := WalkingSpeedPart(a);
    SectionsRanked(a);
    RankedConcat(p1, p2, 0, 1, 2);
    RankedConcat(p1 + p2, p3, 0, 2, 3);
    RankedConcat(p1 + p2 + p3, p4, 0, 3, 5);
    RankedConcat(p1 + p2 + p3 + p4, p5, 0, 5, 6);
  }

  /** The metrics come in the fixed section order, so no key is reported twice and there are at most six. */
  lemma SyncedOrder(moduleLoaded: bool, initialized: bool, a: Answers)
    ensures RankedWithin(Synced(moduleLoaded, initialized, a), 0, 6)
    ensures Distinct(Keys(Synced(moduleLoaded, initialized, a), MetricKeyOf))
    ensures |Synced(moduleLoaded, initialized, a)| <= 6
  {
    if moduleLoaded && initialized {
      SyncedRanked(a);
    }
    RankedDistinct(Synced(moduleLoaded, initialized, a), 0, 6);
  }

  // Sleep, in terms of the raw samples.

  /** With positive sample lengths, a night has time in a stage exactly when it has a sample of that stage. */
  lemma {:induction false} StageTime(ss: seq<SleepSample>, k: string, stage: Stage)
    requires forall s :: s in ss ==> s.hours > 0.0
    ensures StageTotal(ss, k, stage) >= 0.0
    ensures StageTotal(ss, k, stage) > 0.0 <==> exists s :: s in ss && s.nightKey == k && StageOf(s) == stage
  {
    if ss != [] {
      var front, last := ss[..|ss| - 1], ss[|ss| - 1];
      assert ss == front + [last];
      assert forall x :: x in ss <==> x in front || x == last;
      StageTime(front, k, stage);
    }
  }

  /** With positive sample lengths, a night has in-bed (asleep) time exactly when it has an in-bed (sleep-stage) sample. */
  lemma NightTimes(ss: seq<SleepSample>, k: string)
    requires forall s :: s in ss ==> s.hours > 0.0
    ensures NightOf(ss, k).inBed >= 0.0 && NightOf(ss, k).asleep >= 0.0
    ensures NightOf(ss, k).inBed > 0.0 <==> exists s :: s in ss && s.nightKey == k && StageOf(s) == InBedStage
    ensures NightOf(ss, k).asleep > 0.0 <==> exists s :: s in ss && s.nightKey == k && StageOf(s) == AsleepStage
  {
    StageTime(ss, k, InBedStage);
    StageTime(ss, k, AsleepStage);
  }

  /** A night that kept time has a counted sample. */
  lemma CountedSampleOf(ss: seq<SleepSample>, n: Night)
    requires forall s :: s in ss ==> s.hours > 0.0
    requires n in NightList(ss) && HasSleep(n)
    ensures exists s :: s in ss && StageOf(s) != Uncounted
  {
    var i :| 0 <= i < |NightList(ss)| && NightList(ss)[i] == n;
    NightTimes(ss, NightOrder(ss)[i]);
  }

  /** A night that has both kinds of time has an in-bed and a sleep-stage sample. */
  lemma BothSamplesOf(ss: seq<SleepSample>, n: Night)
    requires forall s :: s in ss ==> s.hours > 0.0
    requires n in NightList(ss) && HasBoth(n)
    ensures exists s, t :: s in ss && t in ss && s.nightKey == t.nightKey && StageOf(s) == InBedStage && StageOf(t) == AsleepStage
  {
    var i :| 0 <= i < |NightList(ss)| && NightList(ss)[i] == n;
    NightTimes(ss, NightOrder(ss)[i]);
  }

  /** A sample of positive length gives its night time in its own stage. */
  lemma SampleTime(ss: seq<SleepSample>, s: SleepSample)
    requires forall x :: x in ss ==> x.hours > 0.0
    requires s in ss
    ensures StageTotal(ss, s.nightKey, StageOf(s)) > 0.0
  {
    StageTime(ss, s.nightKey, StageOf(s));
  }

  /** The night of a sample is among the nights. */
  lemma NightOfSample(ss: seq<SleepSample>, s: SleepSample)
    requires s in ss
    ensures NightOf(ss, s.nightKey) in NightList(ss)
  {
    assert s.nightKey in Keys(ss, NightKeyOf) by {
      var j :| 0 <= j < |ss| && ss[j] == s;
      assert Keys(ss, NightKeyOf)[j] == s.nightKey;
    }
    NightListed(ss, s.nightKey);
  }

  /** A night of the night map, located by its key. */
  lemma NightListed(ss: seq<SleepSample>, k: string)
    requires k in Keys(ss, NightKeyOf)
    ensures NightOf(ss, k) in NightList(ss)
  {
    var order := NightOrder(ss);
    var i := IndexOf(order, k);
    assert NightList(ss)[i] == NightOf(ss, k);
  }

  /** The night of a counted sample keeps time. */
  lemma CountedNightKept(ss: seq<SleepSample>, s: SleepSample)
    requires forall x :: x in ss ==> x.hours > 0.0
    requires s in ss && StageOf(s) != Uncounted
    ensures NightOf(ss, s.nightKey) in Filter(NightList(ss), HasSleep)
  {
    NightOfSample(ss, s);
    SampleTime(ss, s);
  }

  /** The night of an in-bed sample and a sleep-stage sample has both kinds of time. */
  lemma BothNightKept(ss: seq<SleepSample>, s: SleepSample, t: SleepSample)
    requires forall x :: x in ss ==> x.hours > 0.0
    requires s in ss && t in ss && s.nightKey == t.nightKey && StageOf(s) == InBedStage && StageOf(t) == AsleepStage
    ensures NightOf(ss, s.nightKey) in Filter(NightList(ss), HasBoth)
  {
    NightOfSample(ss, s);
    SampleTime(ss, s);
    SampleTime(ss, t);
  }

  /** With positive sample lengths, sleep duration is reported exactly when some sample is in bed or in a sleep stage. */
  lemma SleepDurationWhen(ss: seq<SleepSample>)
    requires forall s :: s in ss ==> s.hours > 0.0
    ensures Filter(NightList(ss), HasSleep) != [] <==> exists s :: s in ss && StageOf(s) != Uncounted
  {
    var nights := Filter(NightList(ss), HasSleep);
    if nights != [] {
      assert nights[0] in nights;
      CountedSampleOf(ss, nights[0]);
    }
    if exists s :: s in ss && StageOf(s) != Uncounted {
      var s :| s in ss && StageOf(s) != Uncounted;
      CountedNightKept(ss, s);
    }
  }

  /** With positive sample lengths, sleep efficiency is reported exactly when some night has both an in-bed and a sleep-stage sample. */
  lemma SleepEfficiencyWhen(ss: seq<SleepSample>)
    requires forall s :: s in ss ==> s.hours > 0.0
    ensures Filter(NightList(ss), HasBoth) != [] <==>
              exists s, t :: s in ss && t in ss && s.nightKey == t.nightKey && StageOf(s) == InBedStage && StageOf(t) == AsleepStage
  {
    var both := Filter(NightList(ss), HasBoth);
    if both != [] {
      assert both[0] in both;
      BothSamplesOf(ss, both[0]);
    }
    if exists s, t :: s in ss && t in ss && s.nightKey == t.nightKey && StageOf(s) == InBedStage && StageOf(t) == AsleepStage {
      var s, t :| s in ss && t in ss && s.nightKey == t.nightKey && StageOf(s) == InBedStage && StageOf(t) == AsleepStage;
      BothNightKept(ss, s, t);
    }
  }

  // Bounds on the reported figures.

  /** A mean lies between the least and the greatest value averaged. */
  lemma AverageBounds<T>(s: seq<T>, w: T -> real, lo: real, hi: real)
    requires |s| > 0
    requires forall x :: x in s ==> lo <= w(x) <= hi
    ensures lo <= Average(s, w) <= hi
  {
    SumBounds(s, w, lo, hi);
    var n := |s| as real;
    assert Average(s, w) * n == Sum(s, w);
  }

  /** A reported mean is within half a rounding step of a value between the least and greatest sample. */
  lemma ReportedMeanWithin(samples: seq<real>, lo: real, hi: real)
    requires |samples| > 0
    requires forall x :: x in samples ==> lo <= x <= hi
    ensures lo - 0.05 < Round1(Average(samples, Identity)) <= hi + 0.05
    ensures lo - 0.005 < Round2(Average(samples, Identity)) <= hi + 0.005
  {
    AverageBounds(samples, Identity, lo, hi);
  }

  /** The efficiency of a night that sleeps no longer than it is in bed is above 0% and at most 100%. */
  lemma NightEfficiency(n: Night)
    requires HasBoth(n) && n.asleep <= n.inBed
    ensures 0.0 < Efficiency(n) <= 100.0
  {
    assert n.asleep / n.inBed <= 1.0;
  }

  /** A figure of at most 100 rounds to at most 100 tenths. */
  lemma RoundedAtMostHundred(x: real)
    requires x <= 100.0
    ensures Round1(x) <= 100.0
  {
    assert Round1(x) <= 100.05;
    assert IsTenth(Round1(x));
  }

  /** When no night is asleep for longer than it is in bed, the reported efficiency is at most 100%. */
  lemma EfficiencyAtMostHundred(all: seq<Night>)
    requires Filter(all, HasBoth) != []
    requires forall n :: n in all ==> n.asleep <= n.inBed
    ensures 0.0 <= Round1(Average(Filter(all, HasBoth), Efficiency)) <= 100.0
  {
    var both := Filter(all, HasBoth);
    forall n | n in both ensures 0.0 < Efficiency(n) <= 100.0 {
      NightEfficiency(n);
    }
    AverageBounds(both, Efficiency, 0.0, 100.0);
    RoundedAtMostHundred(Average(both, Efficiency));
  }
}
