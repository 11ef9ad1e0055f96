/** The slot-grid scheduler of dynamic_programming.py. Workloads are taken by
    deadline, then by descending priority. For each one every (start slot,
    datacenter) cell of its window that still has enough cpu is scanned,
    slot-major, and the cell with the lowest forecast emission wins (strict
    `<`: the first such cell in scan order). The winning cell's cpu drops by
    the workload's cpu. Times are hours after the base time `now`. */
module DynamicProgramming {
  import opened Wrappers
  import opened Workloads
  import opened Ordering
  import opened Datacenters
  import opened Readings
  import opened Schedules

  /** Remaining cpu per datacenter id and start slot (`capacity[dc.id][t]`). */
  type Grid = map<string, seq<real>>

  /** Every datacenter in the list has a row of `slots` cells. */
  predicate GridOk(g: Grid, dcs: seq<DcView>, slots: nat) {
    forall i :: 0 <= i < |dcs| ==> dcs[i].id in g && |g[dcs[i].id]| == slots
  }

  /** Slot `t` exists in every datacenter's row. */
  predicate InGrid(g: Grid, dcs: seq<DcView>, t: nat) {
    forall i :: 0 <= i < |dcs| ==> dcs[i].id in g && t < |g[dcs[i].id]|
  }

  /** The grid as first built: a row per id, every cell at the datacenter's
      TOTAL cpu (not its available cpu); for an id listed twice the later
      entry's row is the one kept. */
  function InitGrid(dcs: seq<DcView>, slots: nat): (g: Grid)
    ensures GridOk(g, dcs, slots)
    ensures forall id :: id in g ==> |g[id]| == slots
    ensures forall i, t :: 0 <= i < |dcs| && 0 <= t < slots && (forall j :: i < j < |dcs| ==> dcs[j].id != dcs[i].id)
              ==> g[dcs[i].id][t] == dcs[i].totalCpu
  {
    if dcs == [] then map[]
    else
      var last := dcs[|dcs| - 1];
      InitGrid(dcs[..|dcs| - 1], slots)[last.id := seq(slots, _ => last.totalCpu)]
  }

  /** Only listed ids have rows, and no cell starts negative unless a total is. */
  lemma {:induction false} InitGridCells(dcs: seq<DcView>, slots: nat)
    ensures forall id :: id in InitGrid(dcs, slots) ==> exists i :: 0 <= i < |dcs| && dcs[i].id == id
    ensures (forall i :: 0 <= i < |dcs| ==> dcs[i].totalCpu >= 0.0) ==>
              forall id, t :: id in InitGrid(dcs, slots) && 0 <= t < slots ==> InitGrid(dcs, slots)[id][t] >= 0.0
  {
    if dcs != [] {
      var init := dcs[..|dcs| - 1];
      InitGridCells(init, slots);
      forall id | id in InitGrid(dcs, slots) ensures exists i :: 0 <= i < |dcs| && dcs[i].id == id {
        if id != dcs[|dcs| - 1].id {
          assert id in InitGrid(init, slots);
          var i :| 0 <= i < |init| && init[i].id == id;
          assert dcs[i].id == id;
        }
      }
    }
  }

  /** `max(1, int(duration))`: the slots a task is taken to occupy. */
  function TaskSlots(w: Workload): (d: int)
    ensures d >= 1
  {
    var n := Trunc(w.duration);
    if n < 1 then 1 else n
  }

  /** `max(1, int(hours until the deadline))`. */
  function DeadlineSlots(w: Workload, now: real): (h: int)
    ensures h >= 1
  {
    var n := Trunc(w.deadline - now);
    if n < 1 then 1 else n
  }

  function Min(a: int, b: int): int { if a <= b then a else b }

  /** The last candidate start slot. */
  function MaxStart(w: Workload, now: real, timeSlots: int): (m: nat)
    ensures timeSlots > 0 ==> m < timeSlots
    ensures m > 0 ==> m + TaskSlots(w) <= timeSlots && m + TaskSlots(w) <= DeadlineSlots(w, now)
  {
    var d := TaskSlots(w);
    var m := Min(Min(timeSlots - d, DeadlineSlots(w, now) - d), timeSlots - 1);
    if m < 0 then 0 else m
  }

  /** Cell (t, i) is in the grid and has at least the workload's cpu left;
      memory is not looked at. */
  predicate Feasible(g: Grid, dcs: seq<DcView>, w: Workload, t: nat, i: nat) {
    i < |dcs| && dcs[i].id in g && t < |g[dcs[i].id]| && g[dcs[i].id][t] >= w.cpu
  }

  /** Scan order: slot-major, then datacenter list order. */
  predicate Before(t: nat, i: nat, t': nat, i': nat) {
    t < t' || (t == t' && i < i')
  }

  /** What the scan records for a cell (`best_assignment`). */
  datatype Choice = Choice(slot: nat, dc: nat, emissions: real, intensity: real, renewable: real)

  function ChoiceAt(dcs: seq<DcView>, w: Workload, fc: Forecast, t: nat, i: nat): (c: Choice)
    requires i < |dcs|
    ensures c.slot == t && c.dc == i
    ensures c.emissions == EnergyKwh(w) * c.intensity
    ensures (dcs[i].id, t) !in fc ==> c.intensity == 200.0 && c.renewable == 30.0
  {
    var r := ForecastOr(fc, dcs[i].id, t);
    Choice(t, i, EnergyKwh(w) * r.intensity, r.intensity, r.renewable)
  }

  function Emission(dcs: seq<DcView>, w: Workload, fc: Forecast, t: nat, i: nat): real
    requires i < |dcs|
  {
    ChoiceAt(dcs, w, fc, t, i).emissions
  }

  /** `b` is the outcome of scanning every cell before (T, I): None when none
      of them is feasible, otherwise a feasible one with the least emission,
      every feasible cell before it being strictly dearer. */
  ghost predicate BestSoFar(b: Option<Choice>, g: Grid, dcs: seq<DcView>, w: Workload, fc: Forecast, T: nat, I: nat) {
    match b
    case None =>
      forall t: nat, i: nat :: Before(t, i, T, I) && Feasible(g, dcs, w, t, i) ==> false
    case Some(c) =>
      && Before(c.slot, c.dc, T, I) && Feasible(g, dcs, w, c.slot, c.dc)
      && c == ChoiceAt(dcs, w, fc, c.slot, c.dc)
      && (forall t: nat, i: nat :: Before(t, i, T, I) && Feasible(g, dcs, w, t, i) ==>
            c.emissions <= Emission(dcs, w, fc, t, i))
      && (forall t: nat, i: nat :: Before(t, i, c.slot, c.dc) && Feasible(g, dcs, w, t, i) ==>
            c.emissions < Emission(dcs, w, fc, t, i))
  }

  /** One iteration of the inner loop, at cell (t, i). */
  function Consider(g: Grid, dcs: seq<DcView>, w: Workload, fc: Forecast, t: nat, i: nat, b: Option<Choice>): Option<Choice>
    requires i < |dcs| && InGrid(g, dcs, t)
  {
    if g[dcs[i].id][t] < w.cpu then b
    else
      var c := ChoiceAt(dcs, w, fc, t, i);
      if b.None? || c.emissions < b.value.emissions then Some(c) else b
  }

  /** The datacenters dcs[..i] at slot t, starting from `b`. */
  function RowScan(g: Grid, dcs: seq<DcView>, w: Workload, fc: Forecast, t: nat, i: nat, b: Option<Choice>): Option<Choice>
    requires i <= |dcs| && InGrid(g, dcs, t)
  {
    if i == 0 then b else Consider(g, dcs, w, fc, t, i - 1, RowScan(g, dcs, w, fc, t, i - 1, b))
  }

  /** Slots 0 .. T-1, every datacenter at each. */
  function SlotScan(g: Grid, dcs: seq<DcView>, w: Workload, fc: Forecast, T: nat): Option<Choice>
    requires T == 0 || InGrid(g, dcs, T - 1)
  {
    if T == 0 then None else RowScan(g, dcs, w, fc, T - 1, |dcs|, SlotScan(g, dcs, w, fc, T - 1))
  }

  lemma ConsiderKeepsBest(g: Grid, dcs: seq<DcView>, w: Workload, fc: Forecast, t: nat, i: nat, b: Option<Choice>)
    requires i < |dcs| && InGrid(g, dcs, t)
    requires BestSoFar(b, g, dcs, w, fc, t, i)
    ensures BestSoFar(Consider(g, dcs, w, fc, t, i, b), g, dcs, w, fc, t, i + 1)
  {
    var c := ChoiceAt(dcs, w, fc, t, i);
    if g[dcs[i].id][t] >= w.cpu && (b.None? || c.emissions < b.value.emissions) {
      assert Feasible(g, dcs, w, t, i);
    }
  }

  lemma {:induction false} RowScanIsBest(g: Grid, dcs: seq<DcView>, w: Workload, fc: Forecast, t: nat, i: nat, b: Option<Choice>)
    requires i <= |dcs| && InGrid(g, dcs, t)
    requires BestSoFar(b, g, dcs, w, fc, t, 0)
    ensures BestSoFar(RowScan(g, dcs, w, fc, t, i, b), g, dcs, w, fc, t, i)
  {
    if i > 0 {
      RowScanIsBest(g, dcs, w, fc, t, i - 1, b);
      ConsiderKeepsBest(g, dcs, w, fc, t, i - 1, RowScan(g, dcs, w, fc, t, i - 1, b));
    }
  }

  /** Having scanned a whole slot is having scanned up to the next one. */
  lemma RowDone(b: Option<Choice>, g: Grid, dcs: seq<DcView>, w: Workload, fc: Forecast, t: nat)
    requires BestSoFar(b, g, dcs, w, fc, t, |dcs|)
    ensures BestSoFar(b, g, dcs, w, fc, t + 1, 0)
  {
  }

  lemma {:induction false} SlotScanIsBest(g: Grid, dcs: seq<DcView>, w: Workload, fc: Forecast, T: nat)
    requires T == 0 || InGrid(g, dcs, T - 1)
    ensures BestSoFar(SlotScan(g, dcs, w, fc, T), g, dcs, w, fc, T, 0)
  {
    if T > 0 {
      SlotScanIsBest(g, dcs, w, fc, T - 1);
      var b := SlotScan(g, dcs, w, fc, T - 1);
      assert BestSoFar(b, g, dcs, w, fc, T - 1, 0);
      RowScanIsBest(g, dcs, w, fc, T - 1, |dcs|, b);
      RowDone(RowScan(g, dcs, w, fc, T - 1, |dcs|, b), g, dcs, w, fc, T - 1);
    }
  }

  /** The outcome of the double loop over slots 0..m. */
  function BestCell(g: Grid, dcs: seq<DcView>, w: Workload, fc: Forecast, m: nat): (b: Option<Choice>)
    requires InGrid(g, dcs, m)
    ensures BestSoFar(b, g, dcs, w, fc, m + 1, 0)
  {
    SlotScanIsBest(g, dcs, w, fc, m + 1);
    SlotScan(g, dcs, w, fc, m + 1)
  }

  /** The double loop of `dp_schedule` for one workload, with its window's
      last slot `m`. */
  method CheapestCell(g: Grid, dcs: seq<DcView>, w: Workload, fc: Forecast, m: nat) returns (best: Option<Choice>)
    requires InGrid(g, dcs, m)
    ensures best == BestCell(g, dcs, w, fc, m)
  {
    best := None;
    for t := 0 to m + 1
      invariant best == SlotScan(g, dcs, w, fc, t)
    {
      ghost var before := best;
      for i := 0 to |dcs|
        invariant best == RowScan(g, dcs, w, fc, t, i, before)
      {
        ghost var prev := best;
        var id := dcs[i].id;
        if g[id][t] < w.cpu {
          assert Consider(g, dcs, w, fc, t, i, prev) == prev;
          continue;
        }
        var r := ForecastOr(fc, id, t);
        var e := EnergyKwh(w) * r.intensity;
        assert Choice(t, i, e, r.intensity, r.renewable) == ChoiceAt(dcs, w, fc, t, i);
        if best.None? || e < best.value.emissions {
          best := Some(Choice(t, i, e, r.intensity, r.renewable));
        }
        assert best == Consider(g, dcs, w, fc, t, i, prev);
      }
    }
  }

  /** The assignment made for a workload placed at cell `c` of datacenter `dc`. */
  function Booking(w: Workload, dc: DcView, c: Choice, now: real): (a: Assignment)
    ensures a.workloadId == w.id && a.datacenterId == dc.id
    ensures a.startTime == now + c.slot as real && a.endTime - a.startTime == w.duration
    ensures a.carbonEmissions == c.emissions && a.carbonIntensity == c.intensity && a.renewablePercentage == c.renewable
    ensures a.cost == w.cpu * w.duration * dc.costPerCoreHour
  {
    Assignment(w.id, dc.id, now + c.slot as real, now + c.slot as real + w.duration,
               c.emissions, w.cpu * w.duration * dc.costPerCoreHour, c.intensity, c.renewable)
  }

  /** `capacity[id][t] -= cpu`. */
  function Book(g: Grid, id: string, t: nat, cpu: real): (g': Grid)
    requires id in g && t < |g[id]|
    ensures g'.Keys == g.Keys
    ensures forall id' :: id' in g ==> |g'[id']| == |g[id']|
    ensures g'[id][t] == g[id][t] - cpu
    ensures forall id', t' :: id' in g && 0 <= t' < |g[id']| && (id', t') != (id, t) ==> g'[id'][t'] == g[id'][t']
  {
    g[id := g[id][t := g[id][t] - cpu]]
  }

  datatype DpState = DpState(assignments: seq<Assignment>, grid: Grid)

  /** One iteration of the outer loop. */
  function DpStep(st: DpState, w: Workload, dcs: seq<DcView>, fc: Forecast, now: real, slots: nat): (r: DpState)
    requires GridOk(st.grid, dcs, slots) && (slots > 0 || |dcs| == 0)
    ensures GridOk(r.grid, dcs, slots) && r.grid.Keys == st.grid.Keys
    ensures |st.assignments| <= |r.assignments| <= |st.assignments| + 1
    ensures r.assignments[..|st.assignments|] == st.assignments
  {
    var m := MaxStart(w, now, slots);
    match BestCell(st.grid, dcs, w, fc, m)
    case None => st
    case Some(c) =>
      var dc := dcs[c.dc];
      DpState(st.assignments + [Booking(w, dc, c, now)], Book(st.grid, dc.id, c.slot, w.cpu))
  }

  /** The cheapest feasible cell of the window 0..m, first in scan order
      among equally cheap ones. */
  ghost predicate Cheapest(g: Grid, dcs: seq<DcView>, w: Workload, fc: Forecast, m: nat, t: nat, i: nat) {
    && t <= m && Feasible(g, dcs, w, t, i)
    && (forall t': nat, i': nat :: t' <= m && Feasible(g, dcs, w, t', i') ==>
          Emission(dcs, w, fc, t, i) <= Emission(dcs, w, fc, t', i'))
    && (forall t': nat, i': nat :: Before(t', i', t, i) && Feasible(g, dcs, w, t', i') ==>
          Emission(dcs, w, fc, t, i) < Emission(dcs, w, fc, t', i'))
  }

  /** A workload is skipped exactly when no cell of its window has room, and
      otherwise it is booked on the cheapest cell, whose cpu alone drops. */
  lemma DpStepBooksCheapestCell(st: DpState, w: Workload, dcs: seq<DcView>, fc: Forecast, now: real, slots: nat)
    requires GridOk(st.grid, dcs, slots) && (slots > 0 || |dcs| == 0)
    ensures var r := DpStep(st, w, dcs, fc, now, slots);
            var m := MaxStart(w, now, slots);
            && (r == st <==> forall t: nat, i: nat :: t <= m ==> !Feasible(st.grid, dcs, w, t, i))
            && (r != st ==> exists t: nat, i: nat :: (Cheapest(st.grid, dcs, w, fc, m, t, i) &&
                  r == DpState(st.assignments + [Booking(w, dcs[i], ChoiceAt(dcs, w, fc, t, i), now)],
                               Book(st.grid, dcs[i].id, t, w.cpu))))
  {
    var m := MaxStart(w, now, slots);
    var b := BestCell(st.grid, dcs, w, fc, m);
    if b.Some? {
      var c := b.value;
      var r := DpStep(st, w, dcs, fc, now, slots);
      assert |r.assignments| == |st.assignments| + 1;
      assert Cheapest(st.grid, dcs, w, fc, m, c.slot, c.dc);
    } else {
      forall t: nat, i: nat | t <= m ensures !Feasible(st.grid, dcs, w, t, i) {
        assert Before(t, i, m + 1, 0);
      }
    }
  }

  /** The outer loop over workloads already in processing order. */
  function DpLoop(ws: seq<Workload>, dcs: seq<DcView>, fc: Forecast, now: real, slots: nat): (st: DpState)
    requires slots > 0 || |dcs| == 0
    ensures GridOk(st.grid, dcs, slots) && st.grid.Keys == InitGrid(dcs, slots).Keys
    ensures |st.assignments| <= |ws|
  {
    if ws == [] then DpState([], InitGrid(dcs, slots))
    else DpStep(DpLoop(ws[..|ws| - 1], dcs, fc, now, slots), ws[|ws| - 1], dcs, fc, now, slots)
  }

  lemma DpLoopExtend(ws: seq<Workload>, k: nat, dcs: seq<DcView>, fc: Forecast, now: real, slots: nat)
    requires k < |ws| && (slots > 0 || |dcs| == 0)
    ensures DpLoop(ws[..k + 1], dcs, fc, now, slots) == DpStep(DpLoop(ws[..k], dcs, fc, now, slots), ws[k], dcs, fc, now, slots)
  {
    assert ws[..k + 1][..k] == ws[..k];
  }

  /** `dp_schedule`: no workloads gives an empty schedule timed at 0;
      otherwise the workloads in (deadline, -priority) order through the loop.
      A non-positive `timeSlots` gives an empty grid. */
  function DpRun(ws: seq<Workload>, dcs: seq<DcView>, fc: Forecast, timeSlots: int, now: real, elapsedMs: real): (s: Schedule)
    requires ws == [] || timeSlots > 0 || dcs == []
    ensures s.algorithmUsed == "dp" && |s.assignments| <= |ws|
    ensures ws == [] ==> s.executionTimeMs == 0.0
  {
    if ws == [] then Schedule([], "dp", 0.0)
    else
      var slots: nat := if timeSlots > 0 then timeSlots else 0;
      Schedule(DpLoop(Sort(ByDeadlineThenPriority, ws), dcs, fc, now, slots).assignments, "dp", elapsedMs)
  }

  /** Every cell stays between 0 and its initial value (the datacenter's
      total cpu), so the cpu booked in a cell never exceeds the total. */
  ghost predicate WithinInitial(g: Grid, g0: Grid) {
    && g.Keys == g0.Keys
    && (forall id :: id in g ==> |g[id]| == |g0[id]|)
    && (forall id, t :: id in g && 0 <= t < |g[id]| ==> 0.0 <= g[id][t] <= g0[id][t])
  }

  lemma BookKeepsWithin(g: Grid, g0: Grid, id: string, t: nat, cpu: real)
    requires WithinInitial(g, g0) && id in g && t < |g[id]| && 0.0 <= cpu <= g[id][t]
    ensures WithinInitial(Book(g, id, t, cpu), g0)
  {
  }

  lemma {:induction false} DpNeverOverbooks(ws: seq<Workload>, dcs: seq<DcView>, fc: Forecast, now: real, slots: nat)
    requires slots > 0 || |dcs| == 0
    requires forall i :: 0 <= i < |dcs| ==> dcs[i].totalCpu >= 0.0
    requires forall k :: 0 <= k < |ws| ==> ws[k].cpu >= 0.0
    ensures WithinInitial(DpLoop(ws, dcs, fc, now, slots).grid, InitGrid(dcs, slots))
  {
    if ws == [] {
      InitGridCells(dcs, slots);
    } else {
      var init := ws[..|ws| - 1];
      DpNeverOverbooks(init, dcs, fc, now, slots);
      var st := DpLoop(init, dcs, fc, now, slots);
      var w := ws[|ws| - 1];
      var b := BestCell(st.grid, dcs, w, fc, MaxStart(w, now, slots));
      if b.Some? {
        var c := b.value;
        BookKeepsWithin(st.grid, InitGrid(dcs, slots), dcs[c.dc].id, c.slot, w.cpu);
      }
    }
  }

  /** `a` starts at a whole hour of the horizon after `now`. */
  predicate OnHorizon(a: Assignment, now: real, slots: nat) {
    now <= a.startTime <= now + (slots - 1) as real && (a.startTime - now).Floor as real == a.startTime - now
  }

  lemma BookingOnHorizon(w: Workload, dc: DcView, c: Choice, now: real, slots: nat)
    requires c.slot < slots
    ensures OnHorizon(Booking(w, dc, c, now), now, slots)
  {
    assert Booking(w, dc, c, now).startTime - now == c.slot as real;
  }

  lemma StepStaysOnHorizon(st: DpState, w: Workload, dcs: seq<DcView>, fc: Forecast, now: real, slots: nat)
    requires GridOk(st.grid, dcs, slots) && slots > 0
    requires forall a :: a in st.assignments ==> OnHorizon(a, now, slots)
    ensures forall a :: a in DpStep(st, w, dcs, fc, now, slots).assignments ==> OnHorizon(a, now, slots)
  {
    var r := DpStep(st, w, dcs, fc, now, slots);
    var b := BestCell(st.grid, dcs, w, fc, MaxStart(w, now, slots));
    if b.Some? {
      var c := b.value;
      assert r.assignments == st.assignments + [Booking(w, dcs[c.dc], c, now)];
      assert c.slot < slots;
      BookingOnHorizon(w, dcs[c.dc], c, now, slots);
    }
  }

  /** Every assignment starts at a whole hour of the horizon after `now`. */
  lemma {:induction false} DpStartsWithinHorizon(ws: seq<Workload>, dcs: seq<DcView>, fc: Forecast, now: real, slots: nat)
    requires slots > 0
    ensures forall a :: a in DpLoop(ws, dcs, fc, now, slots).assignments ==>
              now <= a.startTime <= now + (slots - 1) as real && (a.startTime - now).Floor as real == a.startTime - now
  {
    if ws != [] {
      var init := ws[..|ws| - 1];
      var st := DpLoop(init, dcs, fc, now, slots);
      DpStartsWithinHorizon(init, dcs, fc, now, slots);
      assert forall a :: a in st.assignments ==> OnHorizon(a, now, slots);
      StepStaysOnHorizon(st, ws[|ws| - 1], dcs, fc, now, slots);
    }
  }

  /** A booking the loop made: the workload's position in processing order
      and the cell (slot, datacenter) it went to. */
  datatype Booked = Booked(index: nat, slot: nat, dc: nat)

  /** The bookings of the loop over `ws`, in the order it made them. */
  function DpBooked(ws: seq<Workload>, dcs: seq<DcView>, fc: Forecast, now: real, slots: nat): seq<Booked>
    requires slots > 0 || |dcs| == 0
  {
    if ws == [] then []
    else
      var k := |ws| - 1;
      var prev := DpBooked(ws[..k], dcs, fc, now, slots);
      var st := DpLoop(ws[..k], dcs, fc, now, slots);
      match BestCell(st.grid, dcs, ws[k], fc, MaxStart(ws[k], now, slots))
      case None => prev
      case Some(c) => prev + [Booked(k, c.slot, c.dc)]
  }

  /** Each workload is booked at most once: the bookings' positions strictly
      increase, and the j-th assignment is the booking of its own workload on
      its own cell. */
  ghost predicate BookedAtMostOnce(bookings: seq<Assignment>, b: seq<Booked>, ws: seq<Workload>,
                                   dcs: seq<DcView>, fc: Forecast, now: real, slots: nat) {
    && |b| == |bookings|
    && (forall j :: 0 <= j < |b| ==> b[j].index < |ws| && b[j].dc < |dcs|)
    && (forall j, l :: 0 <= j < l < |b| ==> b[j].index < b[l].index)
    && (forall j :: 0 <= j < |b| ==>
          bookings[j] == Booking(ws[b[j].index], dcs[b[j].dc], ChoiceAt(dcs, ws[b[j].index], fc, b[j].slot, b[j].dc), now))
    && (forall j :: 0 <= j < |b| ==> b[j].slot <= MaxStart(ws[b[j].index], now, slots))
  }

  lemma BookedOnLongerList(bookings: seq<Assignment>, b: seq<Booked>, ws: seq<Workload>, k: nat,
                           dcs: seq<DcView>, fc: Forecast, now: real, slots: nat)
    requires k <= |ws| && BookedAtMostOnce(bookings, b, ws[..k], dcs, fc, now, slots)
    ensures BookedAtMostOnce(bookings, b, ws, dcs, fc, now, slots)
    ensures forall j :: 0 <= j < |b| ==> b[j].index < k
  {
    forall j | 0 <= j < |b| ensures ws[b[j].index] == ws[..k][b[j].index] {
    }
  }

  lemma BookedAppend(bookings: seq<Assignment>, b: seq<Booked>, ws: seq<Workload>, k: nat, c: Choice,
                     dcs: seq<DcView>, fc: Forecast, now: real, slots: nat)
    requires k < |ws| && c.dc < |dcs| && c == ChoiceAt(dcs, ws[k], fc, c.slot, c.dc)
    requires c.slot <= MaxStart(ws[k], now, slots)
    requires BookedAtMostOnce(bookings, b, ws, dcs, fc, now, slots)
    requires forall j :: 0 <= j < |b| ==> b[j].index < k
    ensures BookedAtMostOnce(bookings + [Booking(ws[k], dcs[c.dc], c, now)], b + [Booked(k, c.slot, c.dc)], ws, dcs, fc, now, slots)
  {
  }

  lemma StepKeepsBookedAtMostOnce(ws: seq<Workload>, dcs: seq<DcView>, fc: Forecast, now: real, slots: nat)
    requires ws != [] && (slots > 0 || |dcs| == 0)
    requires BookedAtMostOnce(DpLoop(ws[..|ws| - 1], dcs, fc, now, slots).assignments,
                              DpBooked(ws[..|ws| - 1], dcs, fc, now, slots), ws[..|ws| - 1], dcs, fc, now, slots)
    ensures BookedAtMostOnce(DpLoop(ws, dcs, fc, now, slots).assignments, DpBooked(ws, dcs, fc, now, slots), ws, dcs, fc, now, slots)
  {
    var k := |ws| - 1;
    var init, w := ws[..k], ws[k];
    var st := DpLoop(init, dcs, fc, now, slots);
    var prev := DpBooked(init, dcs, fc, now, slots);
    BookedOnLongerList(st.assignments, prev, ws, k, dcs, fc, now, slots);
    assert DpLoop(ws, dcs, fc, now, slots) == DpStep(st, w, dcs, fc, now, slots);
    var b := BestCell(st.grid, dcs, w, fc, MaxStart(w, now, slots));
    if b.Some? {
      var c := b.value;
      assert c.dc < |dcs| && c == ChoiceAt(dcs, w, fc, c.slot, c.dc);
      assert Before(c.slot, c.dc, MaxStart(w, now, slots) + 1, 0);
      BookedAppend(st.assignments, prev, ws, k, c, dcs, fc, now, slots);
    }
  }

  lemma {:induction false} DpAssignsEachAtMostOnce(ws: seq<Workload>, dcs: seq<DcView>, fc: Forecast, now: real, slots: nat)
    requires slots > 0 || |dcs| == 0
    ensures BookedAtMostOnce(DpLoop(ws, dcs, fc, now, slots).assignments, DpBooked(ws, dcs, fc, now, slots), ws, dcs, fc, now, slots)
  {
    if ws != [] {
      DpAssignsEachAtMostOnce(ws[..|ws| - 1], dcs, fc, now, slots);
      StepKeepsBookedAtMostOnce(ws, dcs, fc, now, slots);
    }
  }

  /** `dp_schedule` books each workload at most once, taking them in
      (deadline, -priority) order, on a cell of its window: its start slot is
      at most the workload's `MaxStart`. */
  lemma DpRunAssignsEachAtMostOnce(ws: seq<Workload>, dcs: seq<DcView>, fc: Forecast, timeSlots: int, now: real, elapsedMs: real)
    requires ws == [] || timeSlots > 0 || dcs == []
    ensures var slots: nat := if timeSlots > 0 then timeSlots else 0;
            var sorted := Sort(ByDeadlineThenPriority, ws);
            ws != [] ==> BookedAtMostOnce(DpRun(ws, dcs, fc, timeSlots, now, elapsedMs).assignments,
                                          DpBooked(sorted, dcs, fc, now, slots), sorted, dcs, fc, now, slots)
  {
    if ws != [] {
      var slots: nat := if timeSlots > 0 then timeSlots else 0;
      DpAssignsEachAtMostOnce(Sort(ByDeadlineThenPriority, ws), dcs, fc, now, slots);
    }
  }

  /** One iteration of the outer loop of `dp_schedule`. */
  method PlaceCheapest(w: Workload, dcs: seq<DcView>, fc: Forecast, now: real, slots: nat,
                       assignments: seq<Assignment>, grid: Grid)
    returns (assignments': seq<Assignment>, grid': Grid)
    requires GridOk(grid, dcs, slots) && (slots > 0 || |dcs| == 0)
    ensures DpState(assignments', grid') == DpStep(DpState(assignments, grid), w, dcs, fc, now, slots)
  {
    var best := CheapestCell(grid, dcs, w, fc, MaxStart(w, now, slots));
    assignments', grid' := assignments, grid;
    if best.Some? {
      var c := best.value;
      var dc := dcs[c.dc];
      grid' := grid[dc.id := grid[dc.id][c.slot := grid[dc.id][c.slot] - w.cpu]];
      assignments' := assignments + [Booking(w, dc, c, now)];
    }
  }

  /** `dp_schedule`. The datacenters are only read: the deep copy the source
      makes is the snapshot `Views(datacenters)`. */
  method DpSchedule(workloads: seq<Workload>, datacenters: seq<Datacenter>, fc: Forecast,
                    timeSlots: int, now: real, elapsedMs: real)
    returns (s: Schedule)
    requires workloads == [] || timeSlots > 0 || datacenters == []
    ensures s == DpRun(workloads, Views(datacenters), fc, timeSlots, now, elapsedMs)
  {
    if workloads == [] {
      return Schedule([], "dp", 0.0);
    }
    var dcs := Views(datacenters);
    var slots: nat := if timeSlots > 0 then timeSlots else 0;
    var grid := InitGrid(dcs, slots);
    var sorted := Sort(ByDeadlineThenPriority, workloads);
    var assignments: seq<Assignment> := [];
    for k := 0 to |sorted|
      invariant DpState(assignments, grid) == DpLoop(sorted[..k], dcs, fc, now, slots)
    {
      DpLoopExtend(sorted, k, dcs, fc, now, slots);
      assignments, grid := PlaceCheapest(sorted[k], dcs, fc, now, slots, assignments, grid);
    }
    assert sorted[..|sorted|] == sorted;
    assert DpRun(workloads, dcs, fc, timeSlots, now, elapsedMs)
        == Schedule(DpLoop(sorted, dcs, fc, now, slots).assignments, "dp", elapsedMs);
    s := Schedule(assignments, "dp", elapsedMs);
  }
}
