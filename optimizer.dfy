/** The optimizer service (backend/services/optimizer.py): runs the algorithm
    a caller names on fresh copies of the default datacenters, always runs an
    FCFS baseline beside it, and compares several algorithms on the same
    workloads. The carbon client's current data and 24-hour forecast, the run
    times and the presentation rounding are parameters. */
module Optimizer {
  import opened Wrappers
  import opened Workloads
  import opened Datacenters
  import opened Readings
  import opened Schedules
  import opened Placement
  import opened Greedy
  import opened Baseline
  import opened DynamicProgramming
  import opened Metrics
  import opened Dicts

  datatype Algorithm = GreedyAlgorithm | DpAlgorithm | FcfsAlgorithm

  /** The keys of `ALGORITHMS`, in their order, which is also the default
      list of a comparison. */
  const KnownNames: seq<string> := ["greedy", "dp", "fcfs"]

  /** The horizon, in hourly slots, the service gives DP. */
  const HorizonSlots: int := 24

  function Name(a: Algorithm): string {
    match a
    case GreedyAlgorithm => "greedy"
    case DpAlgorithm => "dp"
    case FcfsAlgorithm => "fcfs"
  }

  /** `ALGORITHMS.get(name)`. */
  function Registered(name: string): (r: Option<Algorithm>)
    ensures r.Some? <==> name in KnownNames
    ensures r.Some? ==> Name(r.value) == name
  {
    if name == "greedy" then Some(GreedyAlgorithm)
    else if name == "dp" then Some(DpAlgorithm)
    else if name == "fcfs" then Some(FcfsAlgorithm)
    else None
  }

  /** `ALGORITHMS.get(name, greedy_schedule)`: a known name runs its own
      algorithm, any other name ('round_robin' among them) runs greedy. */
  function Dispatch(name: string): (a: Algorithm)
    ensures name in KnownNames ==> Name(a) == name
    ensures name !in KnownNames ==> a == GreedyAlgorithm
  {
    Registered(name).GetOr(GreedyAlgorithm)
  }

  // ----- _get_fresh_datacenters -----

  /** Only a non-empty id list filters; `None` and `[]` select every site. */
  predicate Filters(ids: Option<seq<string>>) {
    ids.Some? && ids.value != []
  }

  predicate Chosen(ids: Option<seq<string>>, v: DcView) {
    !Filters(ids) || v.id in ids.value
  }

  /** `[dc for dc in self.datacenters if dc.id in datacenter_ids]`. */
  function Selected(dcs: seq<DcView>, ids: Option<seq<string>>): (r: seq<DcView>)
    ensures |r| <= |dcs|
  {
    if dcs == [] then []
    else Selected(dcs[..|dcs| - 1], ids) + (if Chosen(ids, dcs[|dcs| - 1]) then [dcs[|dcs| - 1]] else [])
  }

  /** `reset_capacity` on a value. */
  function Reset(v: DcView): DcView {
    v.(availableCpu := v.totalCpu, availableMemory := v.totalMemory)
  }

  /** Every site of `vs` reset, in the same order. */
  function ResetEach(vs: seq<DcView>): (r: seq<DcView>)
    ensures |r| == |vs|
    ensures forall i :: 0 <= i < |r| ==> r[i] == Reset(vs[i])
  {
    seq(|vs|, i requires 0 <= i < |vs| => Reset(vs[i]))
  }

  /** The selected sites, copied and reset: the same sites, in the same
      order, each at full capacity. */
  function FreshViews(dcs: seq<DcView>, ids: Option<seq<string>>): (r: seq<DcView>)
    ensures |r| == |Selected(dcs, ids)|
    ensures forall i :: 0 <= i < |r| ==>
              SameSite(r[i], Selected(dcs, ids)[i])
              && r[i].availableCpu == r[i].totalCpu && r[i].availableMemory == r[i].totalMemory
  {
    ResetEach(Selected(dcs, ids))
  }

  /** The positions of the selected sites in the list. */
  function ChosenPositions(dcs: seq<DcView>, ids: Option<seq<string>>): seq<nat> {
    if dcs == [] then []
    else ChosenPositions(dcs[..|dcs| - 1], ids) + (if Chosen(ids, dcs[|dcs| - 1]) then [|dcs| - 1] else [])
  }

  lemma {:induction false} SelectionAtPositions(dcs: seq<DcView>, ids: Option<seq<string>>)
    ensures |ChosenPositions(dcs, ids)| == |Selected(dcs, ids)|
    ensures forall j :: 0 <= j < |Selected(dcs, ids)| ==>
              ChosenPositions(dcs, ids)[j] < |dcs| && Selected(dcs, ids)[j] == dcs[ChosenPositions(dcs, ids)[j]]
  {
    if dcs != [] {
      var n := |dcs| - 1;
      var init := dcs[..n];
      SelectionAtPositions(init, ids);
      var p := ChosenPositions(init, ids);
      forall j | 0 <= j < |Selected(init, ids)|
        ensures Selected(dcs, ids)[j] == dcs[ChosenPositions(dcs, ids)[j]]
      {
        assert init[p[j]] == dcs[p[j]];
      }
    }
  }

  lemma {:induction false} PositionsIncrease(dcs: seq<DcView>, ids: Option<seq<string>>)
    ensures forall j :: 0 <= j < |ChosenPositions(dcs, ids)| ==> ChosenPositions(dcs, ids)[j] < |dcs|
    ensures forall j, l :: 0 <= j < l < |ChosenPositions(dcs, ids)| ==> ChosenPositions(dcs, ids)[j] < ChosenPositions(dcs, ids)[l]
  {
    if dcs != [] {
      PositionsIncrease(dcs[..|dcs| - 1], ids);
    }
  }

  lemma {:induction false} PositionsComplete(dcs: seq<DcView>, ids: Option<seq<string>>)
    ensures forall i :: 0 <= i < |dcs| && Chosen(ids, dcs[i]) ==> i in ChosenPositions(dcs, ids)
  {
    if dcs != [] {
      var n := |dcs| - 1;
      var init := dcs[..n];
      PositionsComplete(init, ids);
      forall i | 0 <= i < |dcs| && Chosen(ids, dcs[i]) ensures i in ChosenPositions(dcs, ids) {
        if i < n {
          assert init[i] == dcs[i];
        }
      }
    }
  }

  lemma {:induction false} SelectedAreChosen(dcs: seq<DcView>, ids: Option<seq<string>>)
    ensures forall v :: v in Selected(dcs, ids) ==> Chosen(ids, v)
  {
    if dcs != [] {
      SelectedAreChosen(dcs[..|dcs| - 1], ids);
    }
  }

  /** The selection keeps list order and drops nothing it should keep: its
      i-th site is the one at the i-th chosen position, the positions
      strictly increase, and every chosen site's position is among them. */
  lemma SelectionKeepsListOrder(dcs: seq<DcView>, ids: Option<seq<string>>)
    ensures |ChosenPositions(dcs, ids)| == |Selected(dcs, ids)|
    ensures forall j :: 0 <= j < |Selected(dcs, ids)| ==>
              ChosenPositions(dcs, ids)[j] < |dcs| && Selected(dcs, ids)[j] == dcs[ChosenPositions(dcs, ids)[j]]
    ensures forall j, l :: 0 <= j < l < |ChosenPositions(dcs, ids)| ==> ChosenPositions(dcs, ids)[j] < ChosenPositions(dcs, ids)[l]
    ensures forall i :: 0 <= i < |dcs| && Chosen(ids, dcs[i]) ==> i in ChosenPositions(dcs, ids)
    ensures forall v :: v in Selected(dcs, ids) ==> Chosen(ids, v)
  {
    SelectionAtPositions(dcs, ids);
    PositionsIncrease(dcs, ids);
    PositionsComplete(dcs, ids);
    SelectedAreChosen(dcs, ids);
  }

  /** Without a filter every site is selected, in list order. */
  lemma {:induction false} NoFilterSelectsAll(dcs: seq<DcView>, ids: Option<seq<string>>)
    requires !Filters(ids)
    ensures Selected(dcs, ids) == dcs
  {
    if dcs != [] {
      var n := |dcs| - 1;
      NoFilterSelectsAll(dcs[..n], ids);
      assert dcs[..n] + [dcs[n]] == dcs;
    }
  }

  // ----- running one algorithm -----

  /** The schedule `algo_func` returns on the given datacenter states: DP
      gets the forecast and 24 slots, the others the current data. */
  function RunAlgorithm(alg: Algorithm, ws: seq<Workload>, dcs: seq<DcView>, carbon: CarbonData,
                        fc: Forecast, now: real, elapsedMs: real): (s: Schedule)
    ensures s.algorithmUsed == Name(alg)
    ensures |s.assignments| <= |ws|
  {
    match alg
    case GreedyAlgorithm =>
      RunAssignsEachAtMostOnce(LowestIntensity, Ordering.Sort(Ordering.ByArrival, ws), dcs, carbon);
      Schedule(GreedyRun(ws, dcs, carbon).assignments, "greedy", elapsedMs)
    case DpAlgorithm =>
      DpRun(ws, dcs, fc, HorizonSlots, now, elapsedMs)
    case FcfsAlgorithm =>
      RunAssignsEachAtMostOnce(FirstFit, Ordering.Sort(Ordering.ByArrival, ws), dcs, carbon);
      Schedule(FcfsRun(ws, dcs, carbon).assignments, "fcfs", elapsedMs)
  }

  /** The order the algorithm takes the workloads in: by deadline then
      descending priority for DP, by arrival time for the others. */
  function ProcessingOrder(alg: Algorithm, ws: seq<Workload>): (order: seq<Workload>)
    ensures multiset(order) == multiset(ws)
  {
    match alg
    case DpAlgorithm => Ordering.Sort(Ordering.ByDeadlineThenPriority, ws)
    case _ => Ordering.Sort(Ordering.ByArrival, ws)
  }

  /** The positions, in processing order, of the workloads the run placed. */
  function PlacedPositions(alg: Algorithm, ws: seq<Workload>, dcs: seq<DcView>, carbon: CarbonData,
                           fc: Forecast, now: real): (p: seq<nat>)
  {
    match alg
    case GreedyAlgorithm => IndicesOfPlaced(Run(LowestIntensity, ProcessingOrder(alg, ws), dcs, carbon).placed)
    case FcfsAlgorithm => IndicesOfPlaced(Run(FirstFit, ProcessingOrder(alg, ws), dcs, carbon).placed)
    case DpAlgorithm => IndicesOfBooked(DpBooked(ProcessingOrder(alg, ws), dcs, fc, now, HorizonSlots))
  }

  function IndicesOfPlaced(placed: seq<Placed>): (r: seq<nat>)
    ensures |r| == |placed| && forall j :: 0 <= j < |placed| ==> r[j] == placed[j].index
  {
    seq(|placed|, j requires 0 <= j < |placed| => placed[j].index)
  }

  function IndicesOfBooked(booked: seq<Booked>): (r: seq<nat>)
    ensures |r| == |booked| && forall j :: 0 <= j < |booked| ==> r[j] == booked[j].index
  {
    seq(|booked|, j requires 0 <= j < |booked| => booked[j].index)
  }

  /** The j-th assignment belongs to the workload at position p[j] of
      `order`, and the positions strictly increase. */
  ghost predicate AtPositions(assignments: seq<Assignment>, p: seq<nat>, order: seq<Workload>) {
    && |p| == |assignments|
    && (forall j :: 0 <= j < |p| ==> p[j] < |order| && assignments[j].workloadId == order[p[j]].id)
    && (forall j, l :: 0 <= j < l < |p| ==> p[j] < p[l])
  }

  lemma PlacedAtPositions(st: RunState, order: seq<Workload>, dcs: seq<DcView>, carbon: CarbonData)
    requires AssignedAtMostOnce(st, order, dcs, carbon)
    ensures AtPositions(st.assignments, IndicesOfPlaced(st.placed), order)
  {
  }

  lemma BookedAtPositions(assignments: seq<Assignment>, b: seq<Booked>, order: seq<Workload>,
                          dcs: seq<DcView>, fc: Forecast, now: real, slots: nat)
    requires BookedAtMostOnce(assignments, b, order, dcs, fc, now, slots)
    ensures AtPositions(assignments, IndicesOfBooked(b), order)
  {
  }

  /** Whatever the algorithm, each workload is assigned at most once: the
      j-th assignment belongs to the workload at a position of the processing
      order (a permutation of the input), and the positions strictly
      increase. */
  lemma RunAlgorithmAssignsEachAtMostOnce(alg: Algorithm, ws: seq<Workload>, dcs: seq<DcView>, carbon: CarbonData,
                                          fc: Forecast, now: real, elapsedMs: real)
    ensures multiset(ProcessingOrder(alg, ws)) == multiset(ws)
    ensures AtPositions(RunAlgorithm(alg, ws, dcs, carbon, fc, now, elapsedMs).assignments,
                        PlacedPositions(alg, ws, dcs, carbon, fc, now), ProcessingOrder(alg, ws))
  {
    var order := ProcessingOrder(alg, ws);
    var s := RunAlgorithm(alg, ws, dcs, carbon, fc, now, elapsedMs);
    match alg
    case GreedyAlgorithm =>
      var st := Run(LowestIntensity, order, dcs, carbon);
      assert s.assignments == st.assignments;
      RunAssignsEachAtMostOnce(LowestIntensity, order, dcs, carbon);
      PlacedAtPositions(st, order, dcs, carbon);
    case FcfsAlgorithm =>
      var st := Run(FirstFit, order, dcs, carbon);
      assert s.assignments == st.assignments;
      RunAssignsEachAtMostOnce(FirstFit, order, dcs, carbon);
      PlacedAtPositions(st, order, dcs, carbon);
    case DpAlgorithm =>
      var b := DpBooked(order, dcs, fc, now, HorizonSlots);
      if ws == [] {
        assert s.assignments == [] && b == [];
      } else {
        assert s.assignments == DpLoop(order, dcs, fc, now, HorizonSlots).assignments;
        DpAssignsEachAtMostOnce(order, dcs, fc, now, HorizonSlots);
        BookedAtPositions(s.assignments, b, order, dcs, fc, now, HorizonSlots);
      }
  }

  method RunOn(alg: Algorithm, ws: seq<Workload>, dcs: seq<Datacenter>, carbon: CarbonData,
               fc: Forecast, now: real, elapsedMs: real) returns (s: Schedule)
    requires Distinct(dcs)
    ensures s == RunAlgorithm(alg, ws, Views(dcs), carbon, fc, now, elapsedMs)
  {
    match alg
    case GreedyAlgorithm =>
      s := GreedySchedule(ws, dcs, carbon, elapsedMs);
    case DpAlgorithm =>
      s := DpSchedule(ws, dcs, fc, HorizonSlots, now, elapsedMs);
    case FcfsAlgorithm =>
      s := FcfsSchedule(ws, dcs, carbon, elapsedMs);
  }

  // ----- optimize -----

  datatype Optimization = Optimization(schedule: Schedule, metrics: AllMetrics, baseline: Schedule, carbonData: CarbonData)

  /** What `optimize` returns for the sites `sites` of the service: the
      dispatched algorithm's schedule, measured by the metrics, and the
      carbon data it was given. */
  function OptimizeSpec(sites: seq<DcView>, ws: seq<Workload>, name: string, ids: Option<seq<string>>,
                        carbon: CarbonData, fc: Forecast, now: real, elapsedMs: real, baselineMs: real): (r: Optimization)
    ensures r.schedule.algorithmUsed == Name(Dispatch(name)) && r.carbonData == carbon
    ensures |r.schedule.assignments| <= |ws| && |r.baseline.assignments| <= |ws|
    ensures r.metrics.performance.tasksScheduled == |r.schedule.assignments|
    ensures r.metrics.carbon.totalCarbonBaseline == TotalCarbon(r.baseline)
  {
    var dcs := FreshViews(sites, ids);
    var schedule := RunAlgorithm(Dispatch(name), ws, dcs, carbon, fc, now, elapsedMs);
    var baseline := RunAlgorithm(FcfsAlgorithm, ws, dcs, carbon, fc, now, baselineMs);
    Optimization(schedule, AllMetricsOf(schedule, baseline), baseline, carbon)
  }

  /** The baseline is FCFS on fresh copies whatever algorithm was asked for,
      and the carbon section compares the schedule against it. */
  lemma BaselineIgnoresRequestedAlgorithm(sites: seq<DcView>, ws: seq<Workload>, n1: string, n2: string, ids: Option<seq<string>>,
                                          carbon: CarbonData, fc: Forecast, now: real, e1: real, e2: real, baselineMs: real)
    ensures OptimizeSpec(sites, ws, n1, ids, carbon, fc, now, e1, baselineMs).baseline
         == OptimizeSpec(sites, ws, n2, ids, carbon, fc, now, e2, baselineMs).baseline
    ensures OptimizeSpec(sites, ws, n1, ids, carbon, fc, now, e1, baselineMs).baseline.algorithmUsed == "fcfs"
    ensures var r := OptimizeSpec(sites, ws, n1, ids, carbon, fc, now, e1, baselineMs);
            r.metrics.carbon.carbonSaved == TotalCarbon(r.baseline) - TotalCarbon(r.schedule)
  {
  }

  /** An unknown name gives exactly what 'greedy' gives. */
  lemma UnknownNameRunsGreedy(sites: seq<DcView>, ws: seq<Workload>, name: string, ids: Option<seq<string>>,
                              carbon: CarbonData, fc: Forecast, now: real, elapsedMs: real, baselineMs: real)
    requires name !in KnownNames
    ensures OptimizeSpec(sites, ws, name, ids, carbon, fc, now, elapsedMs, baselineMs)
         == OptimizeSpec(sites, ws, "greedy", ids, carbon, fc, now, elapsedMs, baselineMs)
  {
  }

  /** Asking for 'fcfs' saves nothing against the baseline. */
  lemma FcfsSavesNothing(sites: seq<DcView>, ws: seq<Workload>, ids: Option<seq<string>>,
                         carbon: CarbonData, fc: Forecast, now: real, elapsedMs: real, baselineMs: real)
    ensures var r := OptimizeSpec(sites, ws, "fcfs", ids, carbon, fc, now, elapsedMs, baselineMs);
            r.metrics.carbon.carbonSaved == 0.0 && r.metrics.carbon.percentReduction == 0.0
  {
    var dcs := FreshViews(sites, ids);
    assert Dispatch("fcfs") == FcfsAlgorithm;
    var schedule := RunAlgorithm(FcfsAlgorithm, ws, dcs, carbon, fc, now, elapsedMs);
    var baseline := RunAlgorithm(FcfsAlgorithm, ws, dcs, carbon, fc, now, baselineMs);
    assert OptimizeSpec(sites, ws, "fcfs", ids, carbon, fc, now, elapsedMs, baselineMs).metrics.carbon
        == CarbonMetricsOf(schedule, baseline);
    assert schedule.assignments == FcfsRun(ws, dcs, carbon).assignments == baseline.assignments;
    NothingSavedOnSameAssignments(schedule, baseline);
  }

  lemma NothingSavedOnSameAssignments(s: Schedule, b: Schedule)
    requires s.assignments == b.assignments
    ensures CarbonMetricsOf(s, b).carbonSaved == 0.0 && CarbonMetricsOf(s, b).percentReduction == 0.0
  {
    var m := CarbonMetricsOf(s, b);
    assert m.carbonSaved == 0.0;
    if m.totalCarbonBaseline > 0.0 {
      assert m.percentReduction * m.totalCarbonBaseline == 0.0;
    }
  }

  // ----- compare_algorithms -----

  /** One key of a comparison's distribution: how many assignments went to
      the datacenter. */
  datatype DcCount = DcCount(id: string, count: nat)

  /** The counts of the metrics distribution, keys in the same order. */
  function CountsOf(d: seq<DcEntry>): (c: seq<DcCount>)
    ensures |c| == |d|
    ensures forall i :: 0 <= i < |d| ==> c[i] == DcCount(d[i].id, d[i].totals.count)
  {
    seq(|d|, i requires 0 <= i < |d| => DcCount(d[i].id, d[i].totals.count))
  }

  /** The keys of the counts, in insertion order. */
  function CountIds(c: seq<DcCount>): (ids: seq<string>)
    ensures |ids| == |c| && forall i :: 0 <= i < |c| ==> ids[i] == c[i].id
  {
    seq(|c|, i requires 0 <= i < |c| => c[i].id)
  }

  /** `distribution[dc] = distribution.get(dc, 0) + 1`. */
  function Bump(c: seq<DcCount>, id: string): seq<DcCount> {
    var j := FirstIndex(CountIds(c), id);
    if j == |c| then c + [DcCount(id, 1)] else c[j := DcCount(id, c[j].count + 1)]
  }

  function CountTotal(c: seq<DcCount>): nat {
    if c == [] then 0 else CountTotal(c[..|c| - 1]) + c[|c| - 1].count
  }

  /** Counting an assignment is tallying it and keeping the count. */
  lemma BumpMatchesTally(d: seq<DcEntry>, a: Assignment)
    ensures Bump(CountsOf(d), a.datacenterId) == CountsOf(Tally(d, a))
  {
    assert CountIds(CountsOf(d)) == Ids(d);
  }

  lemma {:induction false} CountTotalIsCountOf(d: seq<DcEntry>)
    ensures CountTotal(CountsOf(d)) == CountOf(d)
  {
    if d != [] {
      CountTotalIsCountOf(d[..|d| - 1]);
      assert CountsOf(d)[..|d| - 1] == CountsOf(d[..|d| - 1]);
    }
  }

  /** The distribution loop of `compare_algorithms`: one key per
      datacenter in order of first appearance, counts adding up to the
      number of assignments. */
  method CountByDatacenter(s: seq<Assignment>) returns (counts: seq<DcCount>)
    ensures counts == CountsOf(DistributionOf(s))
    ensures CountTotal(counts) == |s|
  {
    counts := [];
    for k := 0 to |s|
      invariant counts == CountsOf(DistributionOf(s[..k]))
    {
      BumpMatchesTally(DistributionOf(s[..k]), s[k]);
      assert s[..k + 1][..k] == s[..k];
      counts := Bump(counts, s[k].datacenterId);
    }
    assert s[..|s|] == s;
    CountTotalIsCountOf(DistributionOf(s));
    DistributionAddsUp(s);
  }

  /** The entry `results[name]` of a comparison; totals and run time are
      rounded by `round2`. */
  datatype AlgorithmResult = AlgorithmResult(
    schedule: Schedule,
    totalCarbon: real,
    totalCost: real,
    executionTimeMs: real,
    tasksScheduled: nat,
    distribution: seq<DcCount>)

  function ResultOf(s: Schedule, round2: real -> real): AlgorithmResult {
    AlgorithmResult(s, round2(TotalCarbon(s)), round2(TotalCost(s)), round2(s.executionTimeMs),
                    |s.assignments|, CountsOf(DistributionOf(s.assignments)))
  }

  /** The entry `compare_algorithms` builds for one schedule. */
  method Summarize(s: Schedule, round2: real -> real) returns (x: AlgorithmResult)
    ensures x == ResultOf(s, round2)
    ensures CountTotal(x.distribution) == x.tasksScheduled == |s.assignments|
  {
    var counts := CountByDatacenter(s.assignments);
    x := AlgorithmResult(s, round2(TotalCarbon(s)), round2(TotalCost(s)), round2(s.executionTimeMs),
                         |s.assignments|, counts);
  }

  /** The results dictionary as a list in insertion order. */
  datatype Named = Named(name: string, result: AlgorithmResult)

  /** The names of the results, in insertion order. */
  function Names(rs: seq<Named>): (names: seq<string>)
    ensures |names| == |rs| && forall i :: 0 <= i < |rs| ==> names[i] == rs[i].name
  {
    seq(|rs|, i requires 0 <= i < |rs| => rs[i].name)
  }

  /** Where `name` sits in the results, or |rs| when it is not there. */
  function Position(rs: seq<Named>, name: string): (j: nat)
    ensures j <= |rs|
    ensures j < |rs| ==> rs[j].name == name
    ensures forall i :: 0 <= i < j ==> rs[i].name != name
  {
    FirstIndex(Names(rs), name)
  }

  /** `results[name] = x`: a new key goes last, an existing one keeps its
      place. */
  function Put(rs: seq<Named>, name: string, x: AlgorithmResult): seq<Named> {
    var j := Position(rs, name);
    if j == |rs| then rs + [Named(name, x)] else rs[j := Named(name, x)]
  }

  /** The results after the loop has run over `names`; the k-th run takes
      `timing(k)` milliseconds. A name adds at most one key. */
  function CompareResults(names: seq<string>, dcs: seq<DcView>, ws: seq<Workload>, carbon: CarbonData,
                          fc: Forecast, now: real, timing: nat -> real, round2: real -> real): (rs: seq<Named>)
    ensures |rs| <= |names|
  {
    if names == [] then []
    else
      var k := |names| - 1;
      CompareStep(CompareResults(names[..k], dcs, ws, carbon, fc, now, timing, round2), names[k], k,
                  dcs, ws, carbon, fc, now, timing, round2)
  }

  /** One iteration of the loop, for the k-th name. */
  function CompareStep(prev: seq<Named>, name: string, k: nat, dcs: seq<DcView>, ws: seq<Workload>, carbon: CarbonData,
                       fc: Forecast, now: real, timing: nat -> real, round2: real -> real): seq<Named>
  {
    match Registered(name)
    case None => prev
    case Some(alg) => Put(prev, name, ResultOf(RunAlgorithm(alg, ws, dcs, carbon, fc, now, timing(k)), round2))
  }

  /** The loop over one more name is one more iteration. */
  lemma CompareResultsExtend(names: seq<string>, k: nat, dcs: seq<DcView>, ws: seq<Workload>, carbon: CarbonData,
                             fc: Forecast, now: real, timing: nat -> real, round2: real -> real)
    requires k < |names|
    ensures CompareResults(names[..k + 1], dcs, ws, carbon, fc, now, timing, round2)
         == CompareStep(CompareResults(names[..k], dcs, ws, carbon, fc, now, timing, round2), names[k], k,
                        dcs, ws, carbon, fc, now, timing, round2)
  {
    assert names[..k + 1][..k] == names[..k];
  }

  /** `min(results.keys(), key=total_carbon)`: the first key with the
      smallest rounded total carbon. */
  function BestIndex(rs: seq<Named>): (j: nat)
    requires rs != []
    ensures j < |rs|
    ensures forall i :: 0 <= i < |rs| ==> rs[j].result.totalCarbon <= rs[i].result.totalCarbon
    ensures forall i :: 0 <= i < j ==> rs[i].result.totalCarbon > rs[j].result.totalCarbon
  {
    if |rs| == 1 then 0
    else
      var j := BestIndex(rs[..|rs| - 1]);
      if rs[|rs| - 1].result.totalCarbon < rs[j].result.totalCarbon then |rs| - 1 else j
  }

  datatype Comparison = Comparison(results: seq<Named>, bestAlgorithm: string, workloadCount: nat, carbonData: CarbonData)

  /** Python's `min` of an empty sequence. */
  const EmptyMin: string := "min() arg is an empty sequence"

  /** What `compare_algorithms` returns, or the error it raises. */
  function CompareSpec(sites: seq<DcView>, ws: seq<Workload>, algorithms: Option<seq<string>>, ids: Option<seq<string>>,
                       carbon: CarbonData, fc: Forecast, now: real, timing: nat -> real, round2: real -> real)
    : (r: Result<Comparison, string>)
    ensures r.Err? ==> r.error == EmptyMin
    ensures r.Ok? ==> 0 < |r.value.results| <= |algorithms.GetOr(KnownNames)| && r.value.carbonData == carbon
    ensures r.Ok? ==> exists j :: 0 <= j < |r.value.results| && r.value.results[j].name == r.value.bestAlgorithm
  {
    var names := algorithms.GetOr(KnownNames);
    var rs := CompareResults(names, FreshViews(sites, ids), ws, carbon, fc, now, timing, round2);
    if rs == [] then Err(EmptyMin)
    else Ok(Comparison(rs, rs[BestIndex(rs)].name, |ws|, carbon))
  }

  /** `name` is a key of the results. */
  ghost predicate HasName(rs: seq<Named>, name: string) {
    exists j :: 0 <= j < |rs| && rs[j].name == name
  }

  predicate DistinctNames(rs: seq<Named>) {
    forall i, j :: 0 <= i < j < |rs| ==> rs[i].name != rs[j].name
  }

  /** Every entry is an honest result of a run: rounded totals of its own
      schedule, `tasks_scheduled` its size, the counts adding up to it. */
  ghost predicate Consistent(rs: seq<Named>, round2: real -> real) {
    forall j :: 0 <= j < |rs| ==>
      && rs[j].result.tasksScheduled == |rs[j].result.schedule.assignments|
      && CountTotal(rs[j].result.distribution) == rs[j].result.tasksScheduled
      && rs[j].result.totalCarbon == round2(TotalCarbon(rs[j].result.schedule))
      && rs[j].result.schedule.algorithmUsed == rs[j].name
  }

  lemma PutKeeps(rs: seq<Named>, name: string, x: AlgorithmResult, round2: real -> real)
    requires DistinctNames(rs) && Consistent(rs, round2)
    requires x.tasksScheduled == |x.schedule.assignments| && CountTotal(x.distribution) == x.tasksScheduled
    requires x.totalCarbon == round2(TotalCarbon(x.schedule)) && x.schedule.algorithmUsed == name
    ensures DistinctNames(Put(rs, name, x)) && Consistent(Put(rs, name, x), round2)
    ensures forall n :: HasName(Put(rs, name, x), n) <==> HasName(rs, n) || n == name
  {
    var r := Put(rs, name, x);
    var j := Position(rs, name);
    forall n ensures HasName(r, n) <==> HasName(rs, n) || n == name {
      if HasName(rs, n) {
        var i :| 0 <= i < |rs| && rs[i].name == n;
        assert r[i].name == n;
      }
      if n == name {
        assert r[j].name == n;
      }
      if HasName(r, n) {
        var i :| 0 <= i < |r| && r[i].name == n;
        if i < |rs| && i != j {
          assert rs[i].name == n;
        }
      }
    }
  }

  /** The keys are the requested names that `ALGORITHMS` knows, each once;
      every entry is a consistent run of its own algorithm. */
  lemma {:induction false} CompareResultKeys(names: seq<string>, dcs: seq<DcView>, ws: seq<Workload>, carbon: CarbonData,
                                             fc: Forecast, now: real, timing: nat -> real, round2: real -> real)
    ensures DistinctNames(CompareResults(names, dcs, ws, carbon, fc, now, timing, round2))
    ensures Consistent(CompareResults(names, dcs, ws, carbon, fc, now, timing, round2), round2)
    ensures forall n :: HasName(CompareResults(names, dcs, ws, carbon, fc, now, timing, round2), n)
                        <==> n in names && n in KnownNames
  {
    if names != [] {
      var k := |names| - 1;
      CompareResultKeys(names[..k], dcs, ws, carbon, fc, now, timing, round2);
      var prev := CompareResults(names[..k], dcs, ws, carbon, fc, now, timing, round2);
      assert names == names[..k] + [names[k]];
      match Registered(names[k])
      case None =>
      case Some(alg) =>
        var s := RunAlgorithm(alg, ws, dcs, carbon, fc, now, timing(k));
        var counts := CountsOf(DistributionOf(s.assignments));
        CountTotalIsCountOf(DistributionOf(s.assignments));
        DistributionAddsUp(s.assignments);
        PutKeeps(prev, names[k], ResultOf(s, round2), round2);
    }
  }

  /** A comparison fails exactly when no requested name is known; otherwise
      it counts the workloads, and its winner is a result whose rounded total
      carbon is the least, with no earlier result as low. */
  lemma CompareOutcome(sites: seq<DcView>, ws: seq<Workload>, algorithms: Option<seq<string>>, ids: Option<seq<string>>,
                       carbon: CarbonData, fc: Forecast, now: real, timing: nat -> real, round2: real -> real)
    ensures CompareSpec(sites, ws, algorithms, ids, carbon, fc, now, timing, round2).Err?
            <==> forall n :: n in algorithms.GetOr(KnownNames) ==> n !in KnownNames
    ensures CompareSpec(sites, ws, algorithms, ids, carbon, fc, now, timing, round2).Ok? ==>
              var c := CompareSpec(sites, ws, algorithms, ids, carbon, fc, now, timing, round2).value;
              && c.workloadCount == |ws|
              && c.bestAlgorithm in KnownNames
              && (exists j :: 0 <= j < |c.results| && c.results[j].name == c.bestAlgorithm
                    && (forall i :: 0 <= i < |c.results| ==> c.results[j].result.totalCarbon <= c.results[i].result.totalCarbon)
                    && (forall i :: 0 <= i < j ==> c.results[i].result.totalCarbon > c.results[j].result.totalCarbon))
  {
    var names := algorithms.GetOr(KnownNames);
    var rs := CompareResults(names, FreshViews(sites, ids), ws, carbon, fc, now, timing, round2);
    CompareResultKeys(names, FreshViews(sites, ids), ws, carbon, fc, now, timing, round2);
    if rs == [] {
      forall n | n in names ensures n !in KnownNames {
        assert !HasName(rs, n);
      }
    } else {
      var n := rs[0].name;
      assert HasName(rs, n);
      var j := BestIndex(rs);
      assert HasName(rs, rs[j].name);
    }
  }

  /** The list comprehension of `_get_fresh_datacenters`; the whole list
      when there is no filter. */
  method SelectSites(all: seq<Datacenter>, ids: Option<seq<string>>) returns (chosen: seq<Datacenter>)
    requires Distinct(all)
    ensures Views(chosen) == Selected(Views(all), ids)
    ensures Distinct(chosen)
  {
    ghost var views := Views(all);
    if !Filters(ids) {
      NoFilterSelectsAll(views, ids);
      return all;
    }
    chosen := [];
    for k := 0 to |all|
      invariant Views(chosen) == Selected(views[..k], ids)
      invariant Distinct(chosen) && forall c :: c in chosen ==> c in all[..k]
    {
      assert views[..k + 1][..k] == views[..k];
      assert all[..k + 1] == all[..k] + [all[k]];
      if all[k].id in ids.value {
        assert all[k] !in all[..k];
        assert Views(chosen + [all[k]]) == Views(chosen) + [views[k]];
        chosen := chosen + [all[k]];
      }
    }
    assert views[..|all|] == views;
  }

  /** `for dc in fresh_dcs: dc.reset_capacity()`. */
  method ResetAll(dcs: seq<Datacenter>)
    requires Distinct(dcs)
    modifies set d | d in dcs
    ensures Views(dcs) == ResetEach(old(Views(dcs)))
  {
    ghost var before := Views(dcs);
    for k := 0 to |dcs|
      invariant forall i :: 0 <= i < k ==> dcs[i].View() == Reset(before[i])
      invariant forall i :: k <= i < |dcs| ==> dcs[i].View() == before[i]
    {
      dcs[k].ResetCapacity();
    }
    assert forall i :: 0 <= i < |dcs| ==> Views(dcs)[i] == ResetEach(before)[i];
  }

  /** `copy.deepcopy(dcs)` followed by the reset loop. */
  method CopyFresh(chosen: seq<Datacenter>) returns (dcs: seq<Datacenter>)
    requires Distinct(chosen)
    ensures Views(dcs) == ResetEach(Views(chosen))
    ensures Distinct(dcs) && forall i :: 0 <= i < |dcs| ==> fresh(dcs[i])
  {
    dcs := CopyAll(chosen);
    ghost var copied := Views(dcs);
    ResetAll(dcs);
    assert Views(dcs) == ResetEach(copied);
  }

  /** The service: the default datacenter list it copies from. */
  class OptimizerService {
    const datacenters: seq<Datacenter>

    constructor ()
      ensures Views(datacenters) == DefaultSites && Distinct(datacenters)
    {
      var dcs := DefaultDatacenters();
      assert Views(dcs) == DefaultSites;
      datacenters := dcs;
    }

    /** `_get_fresh_datacenters`: fresh copies of the selected sites, in list
        order, at full capacity. */
    method FreshDatacenters(ids: Option<seq<string>>) returns (dcs: seq<Datacenter>)
      requires Distinct(datacenters)
      ensures Views(dcs) == FreshViews(Views(datacenters), ids)
      ensures Distinct(dcs) && forall i :: 0 <= i < |dcs| ==> fresh(dcs[i])
    {
      var chosen := SelectSites(datacenters, ids);
      dcs := CopyFresh(chosen);
    }

    /** One algorithm on its own fresh copies of the selected sites. */
    method RunFresh(alg: Algorithm, ws: seq<Workload>, ids: Option<seq<string>>, carbon: CarbonData,
                    fc: Forecast, now: real, elapsedMs: real) returns (s: Schedule)
      requires Distinct(datacenters)
      ensures s == RunAlgorithm(alg, ws, FreshViews(Views(datacenters), ids), carbon, fc, now, elapsedMs)
    {
      var dcs := FreshDatacenters(ids);
      s := RunOn(alg, ws, dcs, carbon, fc, now, elapsedMs);
    }

    /** `optimize`: the requested algorithm, then the FCFS baseline, each on
        fresh copies. */
    method Optimize(ws: seq<Workload>, name: string, ids: Option<seq<string>>, carbon: CarbonData,
                    fc: Forecast, now: real, elapsedMs: real, baselineMs: real) returns (r: Optimization)
      requires Distinct(datacenters)
      ensures r == OptimizeSpec(Views(datacenters), ws, name, ids, carbon, fc, now, elapsedMs, baselineMs)
    {
      var schedule := RunFresh(Dispatch(name), ws, ids, carbon, fc, now, elapsedMs);
      var baseline := RunFresh(FcfsAlgorithm, ws, ids, carbon, fc, now, baselineMs);
      r := Optimization(schedule, AllMetricsOf(schedule, baseline), baseline, carbon);
    }

    /** One iteration of that loop: a known name runs and records its entry. */
    method RunIfKnown(name: string, k: nat, ws: seq<Workload>, ids: Option<seq<string>>, carbon: CarbonData,
                      fc: Forecast, now: real, timing: nat -> real, round2: real -> real, results: seq<Named>)
      returns (results': seq<Named>)
      requires Distinct(datacenters)
      ensures results' == CompareStep(results, name, k, FreshViews(Views(datacenters), ids), ws, carbon, fc, now, timing, round2)
    {
      results' := results;
      var alg := Registered(name);
      if alg.Some? {
        var s := RunFresh(alg.value, ws, ids, carbon, fc, now, timing(k));
        var x := Summarize(s, round2);
        results' := Put(results, name, x);
      }
    }

    /** The loop of `compare_algorithms`: each requested name that
        `ALGORITHMS` knows runs on its own fresh copies and records its
        entry; other names are skipped. */
    method CollectResults(names: seq<string>, ws: seq<Workload>, ids: Option<seq<string>>, carbon: CarbonData,
                          fc: Forecast, now: real, timing: nat -> real, round2: real -> real) returns (results: seq<Named>)
      requires Distinct(datacenters)
      ensures results == CompareResults(names, FreshViews(Views(datacenters), ids), ws, carbon, fc, now, timing, round2)
    {
      ghost var sites := FreshViews(Views(datacenters), ids);
      results := [];
      for k := 0 to |names|
        invariant results == CompareResults(names[..k], sites, ws, carbon, fc, now, timing, round2)
      {
        CompareResultsExtend(names, k, sites, ws, carbon, fc, now, timing, round2);
        results := RunIfKnown(names[k], k, ws, ids, carbon, fc, now, timing, round2, results);
      }
      assert names[..|names|] == names;
    }

    /** `compare_algorithms`: the loop, then the winner by least rounded
        total carbon; no results at all is the error `min` raises. */
    method Compare(ws: seq<Workload>, algorithms: Option<seq<string>>, ids: Option<seq<string>>, carbon: CarbonData,
                   fc: Forecast, now: real, timing: nat -> real, round2: real -> real) returns (r: Result<Comparison, string>)
      requires Distinct(datacenters)
      ensures r == CompareSpec(Views(datacenters), ws, algorithms, ids, carbon, fc, now, timing, round2)
    {
      var names := algorithms.GetOr(KnownNames);
      var results := CollectResults(names, ws, ids, carbon, fc, now, timing, round2);
      if results == [] {
        return Err(EmptyMin);
      }
      r := Ok(Comparison(results, results[BestIndex(results)].name, |ws|, carbon));
    }
  }
}
