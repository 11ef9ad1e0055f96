/** The placement loop that greedy.py and baseline.py share: take the
    workloads in order, choose a datacenter that can accommodate the
    workload, record an assignment charged at the datacenter's current
    intensity, and allocate. The two differ only in how they choose. */
module Placement {
  import opened Wrappers
  import opened Workloads
  import opened Datacenters
  import opened Readings
  import opened Schedules
  import opened Ordering

  /** Greedy ranks by current intensity; FCFS takes the first that fits. */
  datatype Policy = LowestIntensity | FirstFit

  /** The greedy sort key of a datacenter without carbon data. */
  const UnknownRank: real := 999.0

  /** Greedy's sort key: the current intensity, or 999 without data. */
  function Rank(carbon: CarbonData, id: string): real {
    if id in carbon then carbon[id].intensity else UnknownRank
  }

  /** Among the first `n` datacenters, the one a stable sort by `Rank` of
      those that fit would put first: the lowest rank, and among equal ranks
      the earliest in the list. */
  function LowestAmong(dcs: seq<DcView>, n: nat, w: Workload, carbon: CarbonData): (r: Option<nat>)
    requires n <= |dcs|
    ensures r.None? <==> forall j :: 0 <= j < n ==> !Fits(dcs[j], w.cpu, w.memory)
    ensures r.Some? ==> r.value < n && Fits(dcs[r.value], w.cpu, w.memory)
    ensures r.Some? ==> forall j :: 0 <= j < n && Fits(dcs[j], w.cpu, w.memory) ==>
                          Rank(carbon, dcs[r.value].id) <= Rank(carbon, dcs[j].id)
    ensures r.Some? ==> forall j :: 0 <= j < r.value && Fits(dcs[j], w.cpu, w.memory) ==>
                          Rank(carbon, dcs[r.value].id) < Rank(carbon, dcs[j].id)
  {
    if n == 0 then None
    else
      var prev := LowestAmong(dcs, n - 1, w, carbon);
      if !Fits(dcs[n - 1], w.cpu, w.memory) then prev
      else if prev.None? then Some(n - 1)
      else if Rank(carbon, dcs[n - 1].id) < Rank(carbon, dcs[prev.value].id) then Some(n - 1)
      else prev
  }

  /** Among the first `n` datacenters, the first in list order that fits. */
  function FirstAmong(dcs: seq<DcView>, n: nat, w: Workload): (r: Option<nat>)
    requires n <= |dcs|
    ensures r.None? <==> forall j :: 0 <= j < n ==> !Fits(dcs[j], w.cpu, w.memory)
    ensures r.Some? ==> r.value < n && Fits(dcs[r.value], w.cpu, w.memory)
    ensures r.Some? ==> forall j :: 0 <= j < r.value ==> !Fits(dcs[j], w.cpu, w.memory)
  {
    if n == 0 then None
    else
      var prev := FirstAmong(dcs, n - 1, w);
      if prev.Some? then prev
      else if Fits(dcs[n - 1], w.cpu, w.memory) then Some(n - 1)
      else None
  }

  function Pick(policy: Policy, dcs: seq<DcView>, w: Workload, carbon: CarbonData): (r: Option<nat>)
    ensures r.Some? ==> r.value < |dcs| && Fits(dcs[r.value], w.cpu, w.memory)
    ensures r.None? <==> forall j :: 0 <= j < |dcs| ==> !Fits(dcs[j], w.cpu, w.memory)
  {
    match policy
    case LowestIntensity => LowestAmong(dcs, |dcs|, w, carbon)
    case FirstFit => FirstAmong(dcs, |dcs|, w)
  }

  /** The assignment both algorithms record: emissions are the energy
      estimate times the current intensity (200 when the datacenter has no
      data), renewable share 30 without data, cost per core-hour, and the job
      runs from its arrival for its duration. */
  function Charge(w: Workload, dc: DcView, carbon: CarbonData): (a: Assignment)
    ensures a.workloadId == w.id && a.datacenterId == dc.id
    ensures a.carbonIntensity == (if dc.id in carbon then carbon[dc.id].intensity else 200.0)
    ensures a.renewablePercentage == (if dc.id in carbon then carbon[dc.id].renewable else 30.0)
    ensures a.carbonEmissions == EnergyKwh(w) * a.carbonIntensity
    ensures a.cost == w.cpu * w.duration * dc.costPerCoreHour
    ensures a.startTime == w.arrivalTime && a.endTime - a.startTime == w.duration
  {
    var reading := ReadingOr(carbon, dc.id);
    Assignment(w.id, dc.id, w.arrivalTime, w.arrivalTime + w.duration,
               EnergyKwh(w) * reading.intensity, w.cpu * w.duration * dc.costPerCoreHour,
               reading.intensity, reading.renewable)
  }

  lemma ChargeDependsOnSiteOnly(w: Workload, a: DcView, b: DcView, carbon: CarbonData)
    requires SameSite(a, b)
    ensures Charge(w, a, carbon) == Charge(w, b, carbon)
  {
  }

  /** Workload `index` (its position in processing order) went to datacenter `dc`. */
  datatype Placed = Placed(index: nat, dc: nat)

  /** Assignments so far, where each went, and the datacenters' state. */
  datatype RunState = RunState(assignments: seq<Assignment>, placed: seq<Placed>, dcs: seq<DcView>)

  /** Same site: everything but the available capacity agrees. */
  predicate SameSite(a: DcView, b: DcView) {
    a.id == b.id && a.totalCpu == b.totalCpu && a.totalMemory == b.totalMemory
    && a.costPerCoreHour == b.costPerCoreHour
  }

  /** One iteration of the loop, for workload `w` at position `k`. */
  function Step(policy: Policy, st: RunState, w: Workload, k: nat, carbon: CarbonData): RunState {
    match Pick(policy, st.dcs, w, carbon)
    case None => st
    case Some(i) =>
      RunState(st.assignments + [Charge(w, st.dcs[i], carbon)],
               st.placed + [Placed(k, i)],
               st.dcs[i := AllocateView(st.dcs[i], w.cpu, w.memory).1])
  }

  /** The whole loop over `ws`, which is already in processing order. */
  function Run(policy: Policy, ws: seq<Workload>, dcs0: seq<DcView>, carbon: CarbonData): (st: RunState)
    ensures |st.dcs| == |dcs0|
    ensures forall i :: 0 <= i < |dcs0| ==> SameSite(st.dcs[i], dcs0[i])
  {
    if ws == [] then RunState([], [], dcs0)
    else Step(policy, Run(policy, ws[..|ws| - 1], dcs0, carbon), ws[|ws| - 1], |ws| - 1, carbon)
  }

  /** Running one more workload is one more step. */
  lemma RunExtend(policy: Policy, ws: seq<Workload>, k: nat, dcs0: seq<DcView>, carbon: CarbonData)
    requires k < |ws|
    ensures Run(policy, ws[..k + 1], dcs0, carbon) == Step(policy, Run(policy, ws[..k], dcs0, carbon), ws[k], k, carbon)
  {
    assert ws[..k + 1][..k] == ws[..k];
  }

  /** Each workload is assigned at most once: the positions of the placed
      workloads strictly increase, every assignment is the charge of its own
      workload on its own datacenter, and there are never more assignments
      than workloads. */
  ghost predicate AssignedAtMostOnce(st: RunState, ws: seq<Workload>, dcs0: seq<DcView>, carbon: CarbonData) {
    && |st.placed| == |st.assignments| <= |ws|
    && (forall j :: 0 <= j < |st.placed| ==> st.placed[j].index < |ws| && st.placed[j].dc < |dcs0|)
    && (forall j, l :: 0 <= j < l < |st.placed| ==> st.placed[j].index < st.placed[l].index)
    && (forall j :: 0 <= j < |st.placed| ==>
          st.assignments[j] == Charge(ws[st.placed[j].index], dcs0[st.placed[j].dc], carbon))
  }

  lemma {:induction false} RunAssignsEachAtMostOnce(policy: Policy, ws: seq<Workload>, dcs0: seq<DcView>, carbon: CarbonData)
    ensures AssignedAtMostOnce(Run(policy, ws, dcs0, carbon), ws, dcs0, carbon)
  {
    if ws != [] {
      var k := |ws| - 1;
      var ws' := ws[..k];
      RunAssignsEachAtMostOnce(policy, ws', dcs0, carbon);
      var prev := Run(policy, ws', dcs0, carbon);
      var st := Run(policy, ws, dcs0, carbon);
      assert st == Step(policy, prev, ws[k], k, carbon);
      StepKeepsAssignedAtMostOnce(policy, prev, ws, dcs0, carbon);
    }
  }

  lemma StepKeepsAssignedAtMostOnce(policy: Policy, prev: RunState, ws: seq<Workload>, dcs0: seq<DcView>, carbon: CarbonData)
    requires ws != []
    requires |prev.dcs| == |dcs0| && forall i :: 0 <= i < |dcs0| ==> SameSite(prev.dcs[i], dcs0[i])
    requires AssignedAtMostOnce(prev, ws[..|ws| - 1], dcs0, carbon)
    ensures AssignedAtMostOnce(Step(policy, prev, ws[|ws| - 1], |ws| - 1, carbon), ws, dcs0, carbon)
  {
    var k := |ws| - 1;
    var w := ws[k];
    var st := Step(policy, prev, w, k, carbon);
    match Pick(policy, prev.dcs, w, carbon)
    case None =>
      assert st == prev;
    case Some(i) =>
      assert st.placed == prev.placed + [Placed(k, i)];
      ChargeDependsOnSiteOnly(w, prev.dcs[i], dcs0[i], carbon);
      assert st.assignments == prev.assignments + [Charge(w, dcs0[i], carbon)];
      forall j | 0 <= j < |st.placed|
        ensures st.assignments[j] == Charge(ws[st.placed[j].index], dcs0[st.placed[j].dc], carbon)
      {
        if j < |prev.placed| {
          assert ws[prev.placed[j].index] == ws[..k][prev.placed[j].index];
        }
      }
  }

  /** Total cpu of the placed workloads that went to datacenter `i`. */
  function PlacedCpu(ws: seq<Workload>, placed: seq<Placed>, i: nat): real {
    if placed == [] then 0.0
    else
      var p := placed[|placed| - 1];
      PlacedCpu(ws, placed[..|placed| - 1], i) + (if p.dc == i && p.index < |ws| then ws[p.index].cpu else 0.0)
  }

  /** Total memory of the placed workloads that went to datacenter `i`. */
  function PlacedMemory(ws: seq<Workload>, placed: seq<Placed>, i: nat): real {
    if placed == [] then 0.0
    else
      var p := placed[|placed| - 1];
      PlacedMemory(ws, placed[..|placed| - 1], i) + (if p.dc == i && p.index < |ws| then ws[p.index].memory else 0.0)
  }

  lemma {:induction false} PlacedOfLongerPrefix(ws: seq<Workload>, k: nat, placed: seq<Placed>, i: nat)
    requires k <= |ws|
    requires forall j :: 0 <= j < |placed| ==> placed[j].index < k
    ensures PlacedCpu(ws[..k], placed, i) == PlacedCpu(ws, placed, i)
    ensures PlacedMemory(ws[..k], placed, i) == PlacedMemory(ws, placed, i)
  {
    if placed != [] {
      PlacedOfLongerPrefix(ws, k, placed[..|placed| - 1], i);
    }
  }

  /** Capacity is a ledger that never goes negative: what is left of each
      datacenter is its initial availability minus the cpu and memory placed
      on it, so the placed totals never exceed what was available. */
  lemma {:induction false} RunRespectsCapacity(policy: Policy, ws: seq<Workload>, dcs0: seq<DcView>, carbon: CarbonData)
    requires forall i :: 0 <= i < |dcs0| ==> dcs0[i].availableCpu >= 0.0 && dcs0[i].availableMemory >= 0.0
    ensures var st := Run(policy, ws, dcs0, carbon);
      forall i :: 0 <= i < |dcs0| ==>
        && st.dcs[i].availableCpu == dcs0[i].availableCpu - PlacedCpu(ws, st.placed, i) >= 0.0
        && st.dcs[i].availableMemory == dcs0[i].availableMemory - PlacedMemory(ws, st.placed, i) >= 0.0
        && PlacedCpu(ws, st.placed, i) <= dcs0[i].availableCpu
        && PlacedMemory(ws, st.placed, i) <= dcs0[i].availableMemory
  {
    var st := Run(policy, ws, dcs0, carbon);
    if ws != [] {
      var k := |ws| - 1;
      var ws' := ws[..k];
      RunRespectsCapacity(policy, ws', dcs0, carbon);
      RunAssignsEachAtMostOnce(policy, ws', dcs0, carbon);
      var prev := Run(policy, ws', dcs0, carbon);
      forall i | 0 <= i < |dcs0|
        ensures PlacedCpu(ws', prev.placed, i) == PlacedCpu(ws, prev.placed, i)
        ensures PlacedMemory(ws', prev.placed, i) == PlacedMemory(ws, prev.placed, i)
      {
        PlacedOfLongerPrefix(ws, k, prev.placed, i);
      }
      match Pick(policy, prev.dcs, ws[k], carbon)
      case None =>
      case Some(p) =>
        assert st.placed == prev.placed + [Placed(k, p)];
        assert st.placed[..|st.placed| - 1] == prev.placed;
    }
  }

  /** Carbon data plays no part in first-fit choices: two runs over
      different carbon data place the same workloads on the same
      datacenters and leave the same capacities. */
  lemma {:induction false} FirstFitIgnoresCarbon(ws: seq<Workload>, dcs0: seq<DcView>, c1: CarbonData, c2: CarbonData)
    ensures Run(FirstFit, ws, dcs0, c1).placed == Run(FirstFit, ws, dcs0, c2).placed
    ensures Run(FirstFit, ws, dcs0, c1).dcs == Run(FirstFit, ws, dcs0, c2).dcs
  {
    if ws != [] {
      FirstFitIgnoresCarbon(ws[..|ws| - 1], dcs0, c1, c2);
    }
  }

  function TotalCpu(ws: seq<Workload>): real {
    if ws == [] then 0.0 else TotalCpu(ws[..|ws| - 1]) + ws[|ws| - 1].cpu
  }

  function TotalMemory(ws: seq<Workload>): real {
    if ws == [] then 0.0 else TotalMemory(ws[..|ws| - 1]) + ws[|ws| - 1].memory
  }

  /** When the first datacenter alone has room for every workload, first fit
      places every workload there, in order. */
  lemma {:induction false} FirstFitSchedulesAll(ws: seq<Workload>, dcs0: seq<DcView>, carbon: CarbonData)
    requires |dcs0| > 0
    requires forall w :: w in ws ==> w.cpu >= 0.0 && w.memory >= 0.0
    requires TotalCpu(ws) <= dcs0[0].availableCpu && TotalMemory(ws) <= dcs0[0].availableMemory
    ensures var st := Run(FirstFit, ws, dcs0, carbon);
      && |st.assignments| == |st.placed| == |ws|
      && (forall j :: 0 <= j < |ws| ==> st.placed[j] == Placed(j, 0))
      && st.dcs[0].availableCpu == dcs0[0].availableCpu - TotalCpu(ws)
      && st.dcs[0].availableMemory == dcs0[0].availableMemory - TotalMemory(ws)
  {
    if ws != [] {
      var ws' := ws[..|ws| - 1];
      var w := ws[|ws| - 1];
      assert forall x :: x in ws' ==> x in ws;
      FirstFitSchedulesAll(ws', dcs0, carbon);
      RunAssignsEachAtMostOnce(FirstFit, ws', dcs0, carbon);
      var prev := Run(FirstFit, ws', dcs0, carbon);
      assert Fits(prev.dcs[0], w.cpu, w.memory);
      assert Pick(FirstFit, prev.dcs, w, carbon) == Some(0);
    }
  }

  /** Total duration of the placed workloads. */
  function PlacedWork(ws: seq<Workload>, placed: seq<Placed>): real {
    if placed == [] then 0.0
    else
      var p := placed[|placed| - 1];
      PlacedWork(ws, placed[..|placed| - 1]) + (if p.index < |ws| then ws[p.index].duration else 0.0)
  }

  lemma {:induction false} DurationsMatch(xs: seq<Assignment>, placed: seq<Placed>, ws: seq<Workload>)
    requires |xs| == |placed|
    requires forall j :: 0 <= j < |placed| ==>
               placed[j].index < |ws| && Measured(xs[j], Duration) == ws[placed[j].index].duration
    ensures Sum(xs, Duration) == PlacedWork(ws, placed)
  {
    if xs != [] {
      DurationsMatch(xs[..|xs| - 1], placed[..|placed| - 1], ws);
    }
  }

  /** The hours of the assignments add up to the durations of the workloads
      that were placed (the performance total of metrics.py). */
  lemma RunDurationIsPlacedWork(policy: Policy, ws: seq<Workload>, dcs0: seq<DcView>, carbon: CarbonData)
    ensures Sum(Run(policy, ws, dcs0, carbon).assignments, Duration) == PlacedWork(ws, Run(policy, ws, dcs0, carbon).placed)
  {
    var st := Run(policy, ws, dcs0, carbon);
    RunAssignsEachAtMostOnce(policy, ws, dcs0, carbon);
    forall j | 0 <= j < |st.placed|
      ensures st.placed[j].index < |ws| && Measured(st.assignments[j], Duration) == ws[st.placed[j].index].duration
    {
      assert st.assignments[j] == Charge(ws[st.placed[j].index], dcs0[st.placed[j].dc], carbon);
    }
    DurationsMatch(st.assignments, st.placed, ws);
  }

  /** Both algorithms charge 4 cores for 2 hours at 100 gCO2/kWh as 80 g. */
  lemma ChargeOfFourCoresForTwoHours(w: Workload, dc: DcView, carbon: CarbonData)
    requires w.cpu == 4.0 && w.duration == 2.0
    requires dc.id in carbon && carbon[dc.id].intensity == 100.0
    ensures Charge(w, dc, carbon).carbonEmissions == 80.0
  {
    EnergyOfFourCoresForTwoHours(w);
  }

  /** Inserting a workload adds its cpu and memory to the totals. */
  lemma {:induction false} InsertAddsToTotals(o: Order, s: seq<Workload>, w: Workload)
    ensures TotalCpu(Insert(o, s, w)) == TotalCpu(s) + w.cpu
    ensures TotalMemory(Insert(o, s, w)) == TotalMemory(s) + w.memory
    decreases |s|
  {
    if s == [] || KeyLe(Key(o, s[|s| - 1]), Key(o, w)) {
      assert (s + [w])[..|s|] == s;
    } else {
      var init, last := s[..|s| - 1], s[|s| - 1];
      InsertAddsToTotals(o, init, w);
      var r := Insert(o, init, w) + [last];
      assert r[..|r| - 1] == Insert(o, init, w);
    }
  }

  /** Sorting keeps the total cpu and memory of the workloads. */
  lemma {:induction false} SortKeepsTotals(o: Order, ws: seq<Workload>)
    ensures TotalCpu(Sort(o, ws)) == TotalCpu(ws)
    ensures TotalMemory(Sort(o, ws)) == TotalMemory(ws)
  {
    if ws != [] {
      SortKeepsTotals(o, ws[..|ws| - 1]);
      InsertAddsToTotals(o, Sort(o, ws[..|ws| - 1]), ws[|ws| - 1]);
    }
  }

  /** A first site that fits and ranks lowest is the lowest-rank choice. */
  lemma LowestIsFirstWhenFirstRanksLowest(dcs: seq<DcView>, w: Workload, carbon: CarbonData)
    requires |dcs| > 0 && Fits(dcs[0], w.cpu, w.memory)
    requires forall i :: 0 <= i < |dcs| ==> Rank(carbon, dcs[0].id) <= Rank(carbon, dcs[i].id)
    ensures Pick(LowestIntensity, dcs, w, carbon) == Some(0)
  {
    var r := LowestAmong(dcs, |dcs|, w, carbon);
    assert r.Some?;
  }

  /** When the first datacenter can take every workload and no datacenter
      ranks below it, the lowest-rank choice is always the first site, so
      greedy makes exactly the run first fit makes. */
  lemma {:induction false} CleanestFirstSiteMakesGreedyFirstFit(ws: seq<Workload>, dcs0: seq<DcView>, carbon: CarbonData)
    requires |dcs0| > 0
    requires forall w :: w in ws ==> w.cpu >= 0.0 && w.memory >= 0.0
    requires TotalCpu(ws) <= dcs0[0].availableCpu && TotalMemory(ws) <= dcs0[0].availableMemory
    requires forall i :: 0 <= i < |dcs0| ==> Rank(carbon, dcs0[0].id) <= Rank(carbon, dcs0[i].id)
    ensures Run(LowestIntensity, ws, dcs0, carbon) == Run(FirstFit, ws, dcs0, carbon)
  {
    if ws != [] {
      var ws' := ws[..|ws| - 1];
      var w := ws[|ws| - 1];
      assert forall x :: x in ws' ==> x in ws;
      assert Run(FirstFit, ws', dcs0, carbon) == Run(LowestIntensity, ws', dcs0, carbon) by {
        CleanestFirstSiteMakesGreedyFirstFit(ws', dcs0, carbon);
      }
      var prev := Run(FirstFit, ws', dcs0, carbon);
      assert Fits(prev.dcs[0], w.cpu, w.memory) by {
        FirstFitSchedulesAll(ws', dcs0, carbon);
      }
      assert forall i :: 0 <= i < |prev.dcs| ==> Rank(carbon, prev.dcs[0].id) <= Rank(carbon, prev.dcs[i].id) by {
        assert forall i :: 0 <= i < |prev.dcs| ==> SameSite(prev.dcs[i], dcs0[i]);
      }
      LowestAndFirstFitStepAlike(prev, w, |ws| - 1, carbon);
    }
  }

  /** With the first site fitting and ranking lowest, one greedy step is one
      first-fit step. */
  lemma LowestAndFirstFitStepAlike(st: RunState, w: Workload, k: nat, carbon: CarbonData)
    requires |st.dcs| > 0 && Fits(st.dcs[0], w.cpu, w.memory)
    requires forall i :: 0 <= i < |st.dcs| ==> Rank(carbon, st.dcs[0].id) <= Rank(carbon, st.dcs[i].id)
    ensures Step(LowestIntensity, st, w, k, carbon) == Step(FirstFit, st, w, k, carbon)
  {
    LowestIsFirstWhenFirstRanksLowest(st.dcs, w, carbon);
    assert Pick(FirstFit, st.dcs, w, carbon) == Some(0);
  }
}
