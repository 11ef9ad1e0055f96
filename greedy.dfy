/** greedy_schedule (backend/algorithms/greedy.py): workloads by arrival
    time; each goes to the accommodating datacenter with the lowest current
    intensity, a datacenter without carbon data ranking as 999 but being
    charged at 200. */
module Greedy {
  import opened Wrappers
  import opened Workloads
  import opened Ordering
  import opened Datacenters
  import opened Readings
  import opened Schedules
  import opened Placement
  import opened Baseline

  /** The assignments greedy_schedule makes, as a function of its inputs. */
  function GreedyRun(workloads: seq<Workload>, dcs: seq<DcView>, carbon: CarbonData): RunState {
    Run(LowestIntensity, Sort(ByArrival, workloads), dcs, carbon)
  }

  /** The accommodating datacenters, stably sorted by rank: the first of
      them, or none when no datacenter can accommodate the workload. */
  method SelectLowest(dcs: seq<Datacenter>, w: Workload, carbon: CarbonData) returns (selected: Option<nat>)
    ensures selected == LowestAmong(Views(dcs), |dcs|, w, carbon)
  {
    selected := None;
    for i := 0 to |dcs|
      invariant selected == LowestAmong(Views(dcs), i, w, carbon)
    {
      if dcs[i].CanAccommodate(w.cpu, w.memory)
         && (selected.None? || Rank(carbon, dcs[i].id) < Rank(carbon, dcs[selected.value].id))
      {
        selected := Some(i);
      }
    }
  }

  /** One iteration of the loop: place `w` (at position `k`) or skip it. */
  method PlaceLowest(dcs: seq<Datacenter>, w: Workload, ghost k: nat, carbon: CarbonData,
                     assignments: seq<Assignment>, ghost st: RunState)
    returns (assignments': seq<Assignment>)
    requires Distinct(dcs) && Views(dcs) == st.dcs && assignments == st.assignments
    modifies set d | d in dcs
    ensures Views(dcs) == Step(LowestIntensity, st, w, k, carbon).dcs
    ensures assignments' == Step(LowestIntensity, st, w, k, carbon).assignments
  {
    var selected := SelectLowest(dcs, w, carbon);
    if selected.None? {
      return assignments;
    }
    var i := selected.value;
    assignments' := assignments + [Charge(w, dcs[i].View(), carbon)];
    var _ := AllocateAt(dcs, i, w.cpu, w.memory);
  }

  /** The caller's datacenters are deep-copied first (no `modifies`: they are
      left as they were); the measured running time is the input `elapsedMs`. */
  method GreedySchedule(workloads: seq<Workload>, datacenters: seq<Datacenter>, carbon: CarbonData, elapsedMs: real)
    returns (s: Schedule)
    requires Distinct(datacenters)
    ensures s == Schedule(GreedyRun(workloads, Views(datacenters), carbon).assignments, "greedy", elapsedMs)
  {
    var dcs := CopyAll(datacenters);
    ghost var initial := Views(datacenters);
    var sorted := Sort(ByArrival, workloads);
    var assignments: seq<Assignment> := [];
    ghost var st := RunState([], [], initial);
    assert forall d :: d in dcs ==> fresh(d);
    for k := 0 to |sorted|
      invariant Distinct(dcs) && forall d :: d in dcs ==> fresh(d)
      invariant st == Run(LowestIntensity, sorted[..k], initial, carbon)
      invariant Views(dcs) == st.dcs
      invariant assignments == st.assignments
    {
      ghost var next := Step(LowestIntensity, st, sorted[k], k, carbon);
      RunExtend(LowestIntensity, sorted, k, initial, carbon);
      assignments := PlaceLowest(dcs, sorted[k], k, carbon, assignments, st);
      st := next;
    }
    assert sorted[..|sorted|] == sorted;
    assert GreedyRun(workloads, initial, carbon) == Run(LowestIntensity, sorted, initial, carbon);
    s := Schedule(assignments, "greedy", elapsedMs);
  }

  /** When the first datacenter can take all the workloads and no datacenter
      ranks below it (the test fixture's cleanest site comes first), greedy
      places every workload exactly where FCFS does, so its total carbon is
      no more than FCFS's. */
  lemma GreedyMatchesFcfsWhenFirstSiteIsCleanest(workloads: seq<Workload>, dcs: seq<DcView>, carbon: CarbonData,
                                                 greedyMs: real, fcfsMs: real)
    requires |dcs| > 0
    requires forall w :: w in workloads ==> w.cpu >= 0.0 && w.memory >= 0.0
    requires TotalCpu(workloads) <= dcs[0].availableCpu && TotalMemory(workloads) <= dcs[0].availableMemory
    requires forall i :: 0 <= i < |dcs| ==> Rank(carbon, dcs[0].id) <= Rank(carbon, dcs[i].id)
    ensures GreedyRun(workloads, dcs, carbon).placed == FcfsRun(workloads, dcs, carbon).placed
    ensures TotalCarbon(Schedule(GreedyRun(workloads, dcs, carbon).assignments, "greedy", greedyMs))
         <= TotalCarbon(Schedule(FcfsRun(workloads, dcs, carbon).assignments, "fcfs", fcfsMs))
  {
    var sorted := Sort(ByArrival, workloads);
    SortKeepsTotals(ByArrival, workloads);
    forall w | w in sorted ensures w.cpu >= 0.0 && w.memory >= 0.0 {
      assert w in multiset(sorted);
    }
    CleanestFirstSiteMakesGreedyFirstFit(sorted, dcs, carbon);
  }
}
