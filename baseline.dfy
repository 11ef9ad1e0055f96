/** fcfs_schedule (backend/algorithms/baseline.py): workloads by arrival
    time; each goes to the first datacenter in list order that can
    accommodate it, without looking at carbon data. */
module Baseline {
  import opened Wrappers
  import opened Workloads
  import opened Ordering
  import opened Datacenters
  import opened Readings
  import opened Schedules
  import opened Placement

  /** The assignments fcfs_schedule makes, as a function of its inputs. */
  function FcfsRun(workloads: seq<Workload>, dcs: seq<DcView>, carbon: CarbonData): RunState {
    Run(FirstFit, Sort(ByArrival, workloads), dcs, carbon)
  }

  /** One iteration of the outer loop: try the datacenters in list order,
      place `w` (at position `k`) on the first that can accommodate it and
      stop; if none can, skip it. */
  method PlaceFirst(dcs: seq<Datacenter>, w: Workload, ghost k: nat, carbon: CarbonData,
                    assignments: seq<Assignment>, ghost st: RunState)
    returns (assignments': seq<Assignment>)
    requires Distinct(dcs) && Views(dcs) == st.dcs && assignments == st.assignments
    modifies set d | d in dcs
    ensures Views(dcs) == Step(FirstFit, st, w, k, carbon).dcs
    ensures assignments' == Step(FirstFit, st, w, k, carbon).assignments
  {
    assignments' := assignments;
    var placedIt := false;
    var i := 0;
    while i < |dcs|
      invariant 0 <= i <= |dcs|
      invariant FirstAmong(st.dcs, i, w) == None
      invariant Views(dcs) == st.dcs && assignments' == assignments
    {
      if dcs[i].CanAccommodate(w.cpu, w.memory) {
        assert FirstAmong(st.dcs, |dcs|, w) == Some(i);
        assignments' := assignments' + [Charge(w, dcs[i].View(), carbon)];
        var _ := AllocateAt(dcs, i, w.cpu, w.memory);
        placedIt := true;
        break;
      }
      i := i + 1;
    }
    if !placedIt {
      assert FirstAmong(st.dcs, |dcs|, w) == None;
    }
  }

  /** The caller's datacenters are deep-copied first (no `modifies`: they are
      left as they were); the measured running time is the input `elapsedMs`. */
  method FcfsSchedule(workloads: seq<Workload>, datacenters: seq<Datacenter>, carbon: CarbonData, elapsedMs: real)
    returns (s: Schedule)
    requires Distinct(datacenters)
    ensures s == Schedule(FcfsRun(workloads, Views(datacenters), carbon).assignments, "fcfs", elapsedMs)
  {
    var dcs := CopyAll(datacenters);
    ghost var initial := Views(datacenters);
    var sorted := Sort(ByArrival, workloads);
    var assignments: seq<Assignment> := [];
    ghost var st := RunState([], [], initial);
    assert forall d :: d in dcs ==> fresh(d);
    for k := 0 to |sorted|
      invariant Distinct(dcs) && forall d :: d in dcs ==> fresh(d)
      invariant st == Run(FirstFit, sorted[..k], initial, carbon)
      invariant Views(dcs) == st.dcs
      invariant assignments == st.assignments
    {
      ghost var next := Step(FirstFit, st, sorted[k], k, carbon);
      RunExtend(FirstFit, sorted, k, initial, carbon);
      assignments := PlaceFirst(dcs, sorted[k], k, carbon, assignments, st);
      st := next;
    }
    assert sorted[..|sorted|] == sorted;
    assert FcfsRun(workloads, initial, carbon) == Run(FirstFit, sorted, initial, carbon);
    s := Schedule(assignments, "fcfs", elapsedMs);
  }
}
