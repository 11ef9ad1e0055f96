/** MetricsCalculator (backend/services/metrics.py): carbon savings against a
    baseline schedule, cost ratios, renewable shares, performance figures and
    the per-datacenter distribution. Every ratio is guarded against a zero
    denominator. Values are exact: the presentation rounding is not modelled. */
module Metrics {
  import opened Wrappers
  import opened Schedules
  import opened Dicts

  /** EPA-style equivalence divisors: gCO2 per tree-year, per mile driven,
      per smartphone charge and per LED-bulb hour. */
  const GramsPerTreeYear: real := 21000.0
  const GramsPerMile: real := 404.0
  const GramsPerPhoneCharge: real := 8.22
  const GramsPerLedHour: real := 5.0

  /** The share above which a datacenter counts as green. */
  const GreenThreshold: real := 50.0

  datatype CarbonMetrics = CarbonMetrics(
    totalCarbonOptimized: real,
    totalCarbonBaseline: real,
    carbonSaved: real,
    percentReduction: real,
    carbonPerTask: real,
    treesEquivalent: real,
    milesDrivenSaved: real,
    smartphoneCharges: real,
    hoursLedBulb: real)

  function CarbonMetricsOf(optimized: Schedule, baseline: Schedule): (m: CarbonMetrics)
    ensures m.totalCarbonOptimized == TotalCarbon(optimized) && m.totalCarbonBaseline == TotalCarbon(baseline)
    ensures m.carbonSaved + m.totalCarbonOptimized == m.totalCarbonBaseline
    ensures m.totalCarbonBaseline > 0.0 ==> m.percentReduction * m.totalCarbonBaseline == m.carbonSaved * 100.0
    ensures m.totalCarbonBaseline <= 0.0 ==> m.percentReduction == 0.0
    ensures optimized.assignments != [] ==> m.carbonPerTask * |optimized.assignments| as real == m.totalCarbonOptimized
    ensures optimized.assignments == [] ==> m.carbonPerTask == 0.0
    ensures m.treesEquivalent * GramsPerTreeYear == m.carbonSaved
    ensures m.milesDrivenSaved * GramsPerMile == m.carbonSaved
    ensures m.smartphoneCharges * GramsPerPhoneCharge == m.carbonSaved
    ensures m.hoursLedBulb * GramsPerLedHour == m.carbonSaved
  {
    var opt := TotalCarbon(optimized);
    var base := TotalCarbon(baseline);
    var saved := base - opt;
    var n := |optimized.assignments|;
    CarbonMetrics(
      opt, base, saved,
      if base > 0.0 then saved / base * 100.0 else 0.0,
      if n > 0 then opt / n as real else 0.0,
      saved / GramsPerTreeYear, saved / GramsPerMile, saved / GramsPerPhoneCharge, saved / GramsPerLedHour)
  }

  /** When the optimized total is between 0 and a positive baseline total, the
      reduction is a percentage in [0, 100]: 0 when nothing was saved, 100
      when the optimized schedule emits nothing. */
  lemma PercentReductionInRange(optimized: Schedule, baseline: Schedule)
    requires 0.0 <= TotalCarbon(optimized) <= TotalCarbon(baseline) && TotalCarbon(baseline) > 0.0
    ensures var m := CarbonMetricsOf(optimized, baseline);
            && 0.0 <= m.percentReduction <= 100.0
            && (TotalCarbon(optimized) == TotalCarbon(baseline) ==> m.percentReduction == 0.0)
            && (TotalCarbon(optimized) == 0.0 ==> m.percentReduction == 100.0)
  {
    var m := CarbonMetricsOf(optimized, baseline);
    PercentOfWhole(m.carbonSaved, m.totalCarbonBaseline);
  }

  lemma PercentOfWhole(part: real, whole: real)
    requires whole > 0.0 && 0.0 <= part <= whole
    ensures 0.0 <= part / whole * 100.0 <= 100.0
  {
    assert part / whole <= 1.0;
  }

  datatype CostMetrics = CostMetrics(totalCost: real, costPerTask: real, costPerCarbon: real)

  function CostMetricsOf(s: Schedule): (m: CostMetrics)
    ensures m.totalCost == TotalCost(s)
    ensures s.assignments != [] ==> m.costPerTask * |s.assignments| as real == m.totalCost
    ensures s.assignments == [] ==> m.costPerTask == 0.0
    ensures TotalCarbon(s) > 0.0 ==> m.costPerCarbon * TotalCarbon(s) == m.totalCost
    ensures TotalCarbon(s) <= 0.0 ==> m.costPerCarbon == 0.0
  {
    var cost := TotalCost(s);
    var n := |s.assignments|;
    var carbon := TotalCarbon(s);
    CostMetrics(cost, if n > 0 then cost / n as real else 0.0, if carbon > 0.0 then cost / carbon else 0.0)
  }

  /** `sum(1 for r in renewable_values if r > 50)`. */
  function GreenCount(s: seq<Assignment>): nat {
    if s == [] then 0
    else GreenCount(s[..|s| - 1]) + (if s[|s| - 1].renewablePercentage > GreenThreshold then 1 else 0)
  }

  /** The positions of the assignments on green datacenters. */
  ghost function GreenPositions(s: seq<Assignment>): set<nat> {
    set i: nat | i < |s| && s[i].renewablePercentage > GreenThreshold
  }

  /** The count is the number of assignments whose share is strictly above 50. */
  lemma {:induction false} GreenCountCountsGreen(s: seq<Assignment>)
    ensures GreenCount(s) == |GreenPositions(s)|
    ensures GreenCount(s) <= |s|
  {
    if s != [] {
      var init := s[..|s| - 1];
      GreenCountCountsGreen(init);
      var n := |s| - 1;
      if s[n].renewablePercentage > GreenThreshold {
        assert GreenPositions(s) == GreenPositions(init) + {n};
        assert n !in GreenPositions(init);
      } else {
        assert GreenPositions(s) == GreenPositions(init);
      }
    }
  }

  /** The empty case returns only three keys; min and max are then absent. */
  datatype RenewableMetrics = RenewableMetrics(
    avgRenewable: real,
    minRenewable: Option<real>,
    maxRenewable: Option<real>,
    tasksOnGreenDc: nat,
    greenPercentage: real)

  function RenewableMetricsOf(s: Schedule): (m: RenewableMetrics)
    ensures s.assignments == [] ==> m == RenewableMetrics(0.0, None, None, 0, 0.0)
    ensures s.assignments != [] ==>
              && m.minRenewable.Some? && m.maxRenewable.Some?
              && m.minRenewable.value <= m.avgRenewable <= m.maxRenewable.value
              && m.avgRenewable == Mean(s.assignments, Renewable)
              && m.minRenewable == Some(MinOf(s.assignments, Renewable))
              && m.maxRenewable == Some(MaxOf(s.assignments, Renewable))
              && (forall a :: a in s.assignments ==>
                    m.minRenewable.value <= a.renewablePercentage <= m.maxRenewable.value)
              && (exists a :: a in s.assignments && m.minRenewable.value == a.renewablePercentage)
              && (exists a :: a in s.assignments && m.maxRenewable.value == a.renewablePercentage)
              && m.tasksOnGreenDc == |GreenPositions(s.assignments)| <= |s.assignments|
              && IsPercentOf(m.greenPercentage, m.tasksOnGreenDc, |s.assignments|)
  {
    var xs := s.assignments;
    if xs == [] then RenewableMetrics(0.0, None, None, 0, 0.0)
    else
      GreenCountCountsGreen(xs);
      MeanBetweenMinAndMax(xs, Renewable);
      var green := GreenCount(xs);
      var pct := Percent(green, |xs|);
      RenewableMetrics(Mean(xs, Renewable), Some(MinOf(xs, Renewable)), Some(MaxOf(xs, Renewable)), green, pct)
  }

  /** `p` is `part` out of `whole` as a percentage in [0, 100]. */
  predicate IsPercentOf(p: real, part: nat, whole: nat) {
    0.0 <= p <= 100.0 && p * whole as real == part as real * 100.0
  }

  /** `part / whole * 100` for a count out of a positive total. */
  function Percent(part: nat, whole: nat): (p: real)
    requires 0 < whole && part <= whole
    ensures IsPercentOf(p, part, whole)
  {
    PercentOfWhole(part as real, whole as real);
    part as real / whole as real * 100.0
  }

  /** The empty case has no total-duration key. Durations are in hours. */
  datatype PerformanceMetrics = PerformanceMetrics(
    tasksScheduled: nat,
    avgDuration: real,
    totalDuration: Option<real>,
    executionTimeMs: real)

  function PerformanceMetricsOf(s: Schedule): (m: PerformanceMetrics)
    ensures m.tasksScheduled == |s.assignments| && m.executionTimeMs == s.executionTimeMs
    ensures s.assignments == [] ==> m.avgDuration == 0.0 && m.totalDuration == None
    ensures s.assignments != [] ==>
              && m.totalDuration == Some(Sum(s.assignments, Duration))
              && m.avgDuration * |s.assignments| as real == m.totalDuration.value
  {
    if s.assignments == [] then PerformanceMetrics(0, 0.0, None, s.executionTimeMs)
    else
      PerformanceMetrics(|s.assignments|, Mean(s.assignments, Duration),
                         Some(Sum(s.assignments, Duration)), s.executionTimeMs)
  }

  /** Per-datacenter totals of the distribution. */
  datatype DcTotals = DcTotals(count: nat, totalCarbon: real, totalCost: real)

  /** One key of the distribution dictionary; the list keeps the dictionary's
      insertion order (first appearance in the schedule). */
  datatype DcEntry = DcEntry(id: string, totals: DcTotals)

  /** The keys of the distribution, in insertion order. */
  function Ids(d: seq<DcEntry>): (ids: seq<string>)
    ensures |ids| == |d| && forall i :: 0 <= i < |d| ==> ids[i] == d[i].id
  {
    seq(|d|, i requires 0 <= i < |d| => d[i].id)
  }

  /** Where `id` sits in the entries, or |d| when it is not there. */
  function Find(d: seq<DcEntry>, id: string): (j: nat)
    ensures j <= |d|
    ensures j < |d| ==> d[j].id == id
    ensures forall i :: 0 <= i < j ==> d[i].id != id
  {
    FirstIndex(Ids(d), id)
  }

  function AddAssignment(t: DcTotals, a: Assignment): DcTotals {
    DcTotals(t.count + 1, t.totalCarbon + a.carbonEmissions, t.totalCost + a.cost)
  }

  /** One iteration of the loop: a new key starts at zero, then the
      assignment is added to its datacenter's entry. */
  function Tally(d: seq<DcEntry>, a: Assignment): seq<DcEntry> {
    var j := Find(d, a.datacenterId);
    var d' := if j == |d| then d + [DcEntry(a.datacenterId, DcTotals(0, 0.0, 0.0))] else d;
    d'[j := DcEntry(a.datacenterId, AddAssignment(d'[j].totals, a))]
  }

  /** The distribution after the loop: no more entries than assignments, and
      no entry without an assignment. */
  function DistributionOf(s: seq<Assignment>): (d: seq<DcEntry>)
    ensures |d| <= |s|
    ensures forall j :: 0 <= j < |d| ==> d[j].totals.count >= 1
  {
    if s == [] then [] else Tally(DistributionOf(s[..|s| - 1]), s[|s| - 1])
  }

  /** `calculate_datacenter_distribution`. */
  method DatacenterDistribution(s: Schedule) returns (dist: seq<DcEntry>)
    ensures dist == DistributionOf(s.assignments)
  {
    dist := [];
    for k := 0 to |s.assignments|
      invariant dist == DistributionOf(s.assignments[..k])
    {
      var a := s.assignments[k];
      var j := Find(dist, a.datacenterId);
      if j == |dist| {
        dist := dist + [DcEntry(a.datacenterId, DcTotals(0, 0.0, 0.0))];
      }
      dist := dist[j := DcEntry(a.datacenterId, AddAssignment(dist[j].totals, a))];
      assert s.assignments[..k + 1][..k] == s.assignments[..k];
    }
    assert s.assignments[..|s.assignments|] == s.assignments;
  }

  /** What the entry of datacenter `id` should hold. */
  function TotalsOn(s: seq<Assignment>, id: string): DcTotals {
    var on := OnDatacenter(s, id);
    DcTotals(|on|, Sum(on, Emissions), Sum(on, Cost))
  }

  /** The assignments placed on datacenter `id`, in order. */
  function OnDatacenter(s: seq<Assignment>, id: string): (r: seq<Assignment>)
    ensures |r| <= |s|
  {
    if s == [] then []
    else OnDatacenter(s[..|s| - 1], id) + (if s[|s| - 1].datacenterId == id then [s[|s| - 1]] else [])
  }

  /** `id` is a key of the distribution. */
  ghost predicate HasKey(d: seq<DcEntry>, id: string) {
    exists j :: 0 <= j < |d| && d[j].id == id
  }

  /** Some assignment of `s` is on datacenter `id`. */
  ghost predicate Mentions(s: seq<Assignment>, id: string) {
    exists k :: 0 <= k < |s| && s[k].datacenterId == id
  }

  predicate DistinctIds(d: seq<DcEntry>) {
    forall i, j :: 0 <= i < j < |d| ==> d[i].id != d[j].id
  }

  /** Each datacenter of the schedule has exactly one entry, and no other
      datacenter has one. */
  lemma {:induction false} DistributionKeys(s: seq<Assignment>)
    ensures DistinctIds(DistributionOf(s))
    ensures forall id :: HasKey(DistributionOf(s), id) <==> Mentions(s, id)
  {
    if s != [] {
      var init, a := s[..|s| - 1], s[|s| - 1];
      DistributionKeys(init);
      var d0 := DistributionOf(init);
      var d := DistributionOf(s);
      var j := Find(d0, a.datacenterId);
      assert d[j].id == a.datacenterId;
      forall id ensures HasKey(d, id) <==> Mentions(s, id) {
        if Mentions(s, id) {
          var k :| 0 <= k < |s| && s[k].datacenterId == id;
          if k < |init| {
            assert init[k].datacenterId == id;
            assert Mentions(init, id);
            var j0 :| 0 <= j0 < |d0| && d0[j0].id == id;
            assert d[j0].id == id;
          }
        }
        if HasKey(d, id) {
          var j1 :| 0 <= j1 < |d| && d[j1].id == id;
          if id != a.datacenterId {
            assert j1 < |d0| && d0[j1].id == id;
            assert HasKey(d0, id);
            var k :| 0 <= k < |init| && init[k].datacenterId == id;
            assert s[k].datacenterId == id;
          } else {
            assert s[|s| - 1].datacenterId == id;
          }
        }
      }
    }
  }

  /** The last assignment adds itself to its datacenter's totals. */
  lemma TotalsOnSnoc(s: seq<Assignment>)
    requires s != []
    ensures var a := s[|s| - 1];
            TotalsOn(s, a.datacenterId) == AddAssignment(TotalsOn(s[..|s| - 1], a.datacenterId), a)
  {
    var init, a := s[..|s| - 1], s[|s| - 1];
    var on := OnDatacenter(init, a.datacenterId);
    assert OnDatacenter(s, a.datacenterId) == on + [a];
    assert [a][..0] == [];
    SumAppend(on, [a], Emissions);
    SumAppend(on, [a], Cost);
    assert Sum([a], Emissions) == a.carbonEmissions;
    assert Sum([a], Cost) == a.cost;
  }

  /** The entry the last assignment is tallied into holds the totals of its
      datacenter over the whole schedule. */
  lemma TallyUpdatesOwnEntry(s: seq<Assignment>)
    requires s != []
    requires forall e :: e in DistributionOf(s[..|s| - 1]) ==> e.totals == TotalsOn(s[..|s| - 1], e.id)
    ensures var a := s[|s| - 1];
            var j := Find(DistributionOf(s[..|s| - 1]), a.datacenterId);
            j < |DistributionOf(s)| && DistributionOf(s)[j] == DcEntry(a.datacenterId, TotalsOn(s, a.datacenterId))
  {
    var init, a := s[..|s| - 1], s[|s| - 1];
    var id := a.datacenterId;
    var d0 := DistributionOf(init);
    var j := Find(d0, id);
    var before: DcTotals;
    if j == |d0| {
      DistributionKeys(init);
      assert !HasKey(d0, id);
      NothingOnUnmentioned(init, id);
      before := DcTotals(0, 0.0, 0.0);
    } else {
      assert d0[j] in d0;
      before := d0[j].totals;
    }
    assert before == TotalsOn(init, id);
    assert DistributionOf(s)[j] == DcEntry(id, AddAssignment(before, a));
    TotalsOnSnoc(s);
  }

  /** The entry of a datacenter holds the number, the emissions and the cost
      of the assignments placed on it. */
  lemma {:induction false} DistributionTotals(s: seq<Assignment>)
    ensures forall e :: e in DistributionOf(s) ==> e.totals == TotalsOn(s, e.id)
  {
    if s != [] {
      var init, a := s[..|s| - 1], s[|s| - 1];
      DistributionTotals(init);
      DistributionKeys(s);
      TallyUpdatesOwnEntry(s);
      var d0 := DistributionOf(init);
      var d := DistributionOf(s);
      var j := Find(d0, a.datacenterId);
      forall e | e in d ensures e.totals == TotalsOn(s, e.id) {
        var j1 :| 0 <= j1 < |d| && d[j1] == e;
        if e.id == a.datacenterId {
          assert j1 == j;
        } else {
          assert j1 < |d0| && d[j1] == d0[j1];
          assert d0[j1] in d0;
          assert OnDatacenter(s, e.id) == OnDatacenter(init, e.id);
        }
      }
    }
  }

  lemma {:induction false} NothingOnUnmentioned(s: seq<Assignment>, id: string)
    requires !Mentions(s, id)
    ensures OnDatacenter(s, id) == []
  {
    if s != [] {
      var init := s[..|s| - 1];
      assert !Mentions(init, id) by {
        forall k | 0 <= k < |init| ensures init[k].datacenterId != id {
          assert s[k] == init[k];
        }
      }
      NothingOnUnmentioned(init, id);
      assert s[|s| - 1].datacenterId != id;
    }
  }

  /** Sums over the distribution's entries. */
  function CountOf(d: seq<DcEntry>): nat {
    if d == [] then 0 else CountOf(d[..|d| - 1]) + d[|d| - 1].totals.count
  }

  function CarbonOf(d: seq<DcEntry>): real {
    if d == [] then 0.0 else CarbonOf(d[..|d| - 1]) + d[|d| - 1].totals.totalCarbon
  }

  lemma {:induction false} SumsAfterUpdate(d: seq<DcEntry>, j: nat, e: DcEntry)
    requires j < |d|
    ensures CountOf(d[j := e]) == CountOf(d) - d[j].totals.count + e.totals.count
    ensures CarbonOf(d[j := e]) == CarbonOf(d) - d[j].totals.totalCarbon + e.totals.totalCarbon
  {
    var n := |d| - 1;
    if j < n {
      SumsAfterUpdate(d[..n], j, e);
      assert d[j := e][..n] == d[..n][j := e];
    } else {
      assert d[j := e][..n] == d[..n];
    }
  }

  /** The counts add up to the number of assignments and the per-datacenter
      emissions add up to the schedule's total carbon. */
  lemma {:induction false} DistributionAddsUp(s: seq<Assignment>)
    ensures CountOf(DistributionOf(s)) == |s|
    ensures CarbonOf(DistributionOf(s)) == Sum(s, Emissions)
  {
    if s != [] {
      var init, a := s[..|s| - 1], s[|s| - 1];
      DistributionAddsUp(init);
      var d0 := DistributionOf(init);
      var j := Find(d0, a.datacenterId);
      var d' := if j == |d0| then d0 + [DcEntry(a.datacenterId, DcTotals(0, 0.0, 0.0))] else d0;
      if j == |d0| {
        assert d'[..|d'| - 1] == d0;
      }
      SumsAfterUpdate(d', j, DcEntry(a.datacenterId, AddAssignment(d'[j].totals, a)));
    }
  }

  datatype AllMetrics = AllMetrics(
    carbon: CarbonMetrics,
    cost: CostMetrics,
    renewable: RenewableMetrics,
    performance: PerformanceMetrics,
    distribution: seq<DcEntry>)

  /** `calculate_all_metrics`. Its sections agree: the distribution's counts
      add up to the tasks scheduled, and its emissions to the optimized total. */
  function AllMetricsOf(optimized: Schedule, baseline: Schedule): (m: AllMetrics)
    ensures CountOf(m.distribution) == m.performance.tasksScheduled
    ensures CarbonOf(m.distribution) == m.carbon.totalCarbonOptimized
  {
    DistributionAddsUp(optimized.assignments);
    AllMetrics(CarbonMetricsOf(optimized, baseline), CostMetricsOf(optimized), RenewableMetricsOf(optimized),
               PerformanceMetricsOf(optimized), DistributionOf(optimized.assignments))
  }

  /** The baseline enters the carbon section only. */
  lemma BaselineOnlyInCarbon(optimized: Schedule, b1: Schedule, b2: Schedule)
    ensures AllMetricsOf(optimized, b1).(carbon := CarbonMetricsOf(optimized, b2)) == AllMetricsOf(optimized, b2)
  {
  }
}
