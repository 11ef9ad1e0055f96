/** Schedules (backend/models/schedule.py): the assignments an algorithm
    produced, in processing order, and the totals and averages over them. */
module Schedules {

  datatype Assignment = Assignment(
    workloadId: string,
    datacenterId: string,
    startTime: real,
    endTime: real,
    carbonEmissions: real,
    cost: real,
    carbonIntensity: real,
    renewablePercentage: real)

  /** The run's timestamp is a wall-clock reading and is not part of the model. */
  datatype Schedule = Schedule(assignments: seq<Assignment>, algorithmUsed: string, executionTimeMs: real)

  /** The per-assignment quantities the totals and averages range over. */
  datatype Measure = Emissions | Cost | Intensity | Renewable | Duration

  function Measured(a: Assignment, m: Measure): real {
    match m
    case Emissions => a.carbonEmissions
    case Cost => a.cost
    case Intensity => a.carbonIntensity
    case Renewable => a.renewablePercentage
    case Duration => a.endTime - a.startTime
  }

  /** Python's `sum(... for a in assignments)`, added up left to right. */
  function Sum(s: seq<Assignment>, m: Measure): real {
    if s == [] then 0.0 else Sum(s[..|s| - 1], m) + Measured(s[|s| - 1], m)
  }

  /** The arithmetic mean, 0 for no assignments instead of dividing by zero. */
  function Mean(s: seq<Assignment>, m: Measure): real {
    if |s| == 0 then 0.0 else Sum(s, m) / (|s| as real)
  }

  function TotalCarbon(s: Schedule): real { Sum(s.assignments, Emissions) }
  function TotalCost(s: Schedule): real { Sum(s.assignments, Cost) }
  function AvgCarbonIntensity(s: Schedule): real { Mean(s.assignments, Intensity) }
  function AvgRenewable(s: Schedule): real { Mean(s.assignments, Renewable) }

  /** The `summary` part of `to_dict`, before presentation rounding. */
  datatype Summary = Summary(
    totalCarbon: real,
    totalCost: real,
    avgCarbonIntensity: real,
    avgRenewable: real,
    tasksScheduled: nat)

  function SummaryOf(s: Schedule): (r: Summary)
    ensures r.tasksScheduled == |s.assignments|
    ensures s.assignments == [] ==> r == Summary(0.0, 0.0, 0.0, 0.0, 0)
  {
    Summary(TotalCarbon(s), TotalCost(s), AvgCarbonIntensity(s), AvgRenewable(s), |s.assignments|)
  }

  /** Python's `min(...)` over a non-empty list of values. */
  function MinOf(s: seq<Assignment>, m: Measure): (r: real)
    requires |s| > 0
    ensures forall a :: a in s ==> r <= Measured(a, m)
    ensures exists a :: a in s && r == Measured(a, m)
  {
    if |s| == 1 then Measured(s[0], m)
    else
      var rest := MinOf(s[..|s| - 1], m);
      assert forall a :: a in s ==> a in s[..|s| - 1] || a == s[|s| - 1];
      if Measured(s[|s| - 1], m) < rest then Measured(s[|s| - 1], m) else rest
  }

  /** Python's `max(...)` over a non-empty list of values. */
  function MaxOf(s: seq<Assignment>, m: Measure): (r: real)
    requires |s| > 0
    ensures forall a :: a in s ==> Measured(a, m) <= r
    ensures exists a :: a in s && r == Measured(a, m)
  {
    if |s| == 1 then Measured(s[0], m)
    else
      var rest := MaxOf(s[..|s| - 1], m);
      assert forall a :: a in s ==> a in s[..|s| - 1] || a == s[|s| - 1];
      if Measured(s[|s| - 1], m) > rest then Measured(s[|s| - 1], m) else rest
  }

  lemma {:induction false} SumAppend(s: seq<Assignment>, t: seq<Assignment>, m: Measure)
    ensures Sum(s + t, m) == Sum(s, m) + Sum(t, m)
    decreases |t|
  {
    if t == [] {
      assert s + t == s;
    } else {
      var t' := t[..|t| - 1];
      assert (s + t)[..|s + t| - 1] == s + t';
      assert (s + t)[|s + t| - 1] == t[|t| - 1];
      SumAppend(s, t', m);
    }
  }

  /** Adding one assignment raises the total carbon by exactly its emissions,
      wherever it is added. */
  lemma TotalCarbonGrowsByEmissions(s: Schedule, i: nat, a: Assignment)
    requires i <= |s.assignments|
    ensures TotalCarbon(s.(assignments := s.assignments[..i] + [a] + s.assignments[i..]))
            == TotalCarbon(s) + a.carbonEmissions
  {
    var xs := s.assignments;
    SumAppend(xs[..i] + [a], xs[i..], Emissions);
    SumAppend(xs[..i], xs[i..], Emissions);
    assert xs[..i] + xs[i..] == xs;
  }

  lemma {:induction false} SumBounds(s: seq<Assignment>, m: Measure, lo: real, hi: real)
    requires forall a :: a in s ==> lo <= Measured(a, m) <= hi
    ensures (|s| as real) * lo <= Sum(s, m) <= (|s| as real) * hi
  {
    if s != [] {
      SumBounds(s[..|s| - 1], m, lo, hi);
    }
  }

  /** On a non-empty schedule the mean lies between the smallest and the
      largest value it averages. */
  lemma MeanBetweenMinAndMax(s: seq<Assignment>, m: Measure)
    requires |s| > 0
    ensures MinOf(s, m) <= Mean(s, m) <= MaxOf(s, m)
  {
    MeanWithin(s, m, MinOf(s, m), MaxOf(s, m));
  }

  lemma MeanWithin(s: seq<Assignment>, m: Measure, lo: real, hi: real)
    requires |s| > 0
    requires forall a :: a in s ==> lo <= Measured(a, m) <= hi
    ensures lo <= Mean(s, m) <= hi
  {
    SumBounds(s, m, lo, hi);
    QuotientBetween(Sum(s, m), |s| as real, lo, hi);
  }

  lemma QuotientBetween(total: real, n: real, lo: real, hi: real)
    requires n > 0.0 && n * lo <= total <= n * hi
    ensures lo <= total / n <= hi
  {
  }
}
