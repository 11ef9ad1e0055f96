# Carbon-aware workload scheduling, modelled in Dafny

This project models the scheduling engine of a carbon-aware workload
optimizer backend and proves properties about that model. The engine takes
compute workloads, validates them, and places them on an ordered list of UK
datacenters. It uses the datacenters' current or forecast carbon intensity to
choose, and reports the emissions, cost and renewable share of each
placement.

The model covers these parts:

- **Entities** (`workload.dfy`, `datacenter.dfy`, `schedule.dfy`, `readings.dfy`).
  - A `Workload` is a validated record with an energy estimate and a dictionary round trip.
  - A `Datacenter` is a class whose available cpu and memory are updated in place. It also has a value view, `DcView`.
  - A `Schedule` sums and averages over its assignments.
  - Carbon data is a map from datacenter id to a `Reading`; the forecast is a map from (id, hour).
- **Three schedulers.**
  - Greedy (`greedy.dfy`): lowest current intensity, where a site without data ranks as 999.
  - FCFS (`baseline.dfy`): the first datacenter in list order that fits.
  - DP (`dynamic_programming.dfy`): the cheapest (slot, datacenter) cell of a CPU grid.
  - Greedy and FCFS share one placement loop (`placement.dfy`). Each is a method over `Datacenter` objects, proved equal to a pure run over value views. All three process workloads in the order of a stable sort (`ordering.dfy`).
- **Metrics** (`metrics.dfy`): savings, per-task ratios guarded against division by zero, the green count, performance totals and the per-datacenter distribution.
- **The optimizer service** (`optimizer.dfy`): dispatch by algorithm name, fresh datacenter copies, the FCFS baseline of `optimize`, and the winner of `compare_algorithms`.
- **The upload validator** (`upload.dfy`): row validation, the JSON shape check, header detection, and the mapping of headerless CSV rows.
- **Carbon-feed post-processing** (`carbon_api.dfy`):
  - the per-datacenter minimum over regions;
  - the 50 gCO2/kWh threshold and its floor fallback;
  - forecast scaling and the synthetic default forecast;
  - the TTL cache, as a class with an explicit clock.

Inputs the source draws from the environment are parameters of the model:

- the wall clock (`now`, in hours on a real line);
- measured running times;
- fresh ids;
- the HTTP responses of the carbon API;
- the rounding function used to pick the comparison winner.

Quantities are `real`.

## Behaviour of note

- Greedy orders workloads by arrival time only. It breaks ties between equally ranked datacenters by list order.
- DP takes each workload in turn and books the cheapest free cell of its window, scanning slots first and datacenters second. It does not search over combinations or defer a booking once made. Greedy and DP read different carbon inputs (current data against the forecast), so nothing makes DP emit less than greedy.
- `compare_algorithms` defaults to greedy, dp and fcfs. It skips unknown names, and on equal rounded carbon the first name in request order wins.
- `optimize` does not reject an unknown algorithm name: it runs greedy.
- `round_robin` is accepted as a name but has no implementation, so it runs greedy too.

## Model

| member | source | states |
|---|---|---|
| Workloads.NewWorkload | backend/models/workload.py:18-33 | construction succeeds iff cpu in (0,64], memory in (0,256], duration in (0,168] and priority in [1,10], the first failing check in that order being the error; a missing arrival is `now`, a missing deadline is arrival + 24 h |
| Workloads.Trunc | backend/algorithms/dynamic_programming.py:57 | Python `int()` truncates toward zero: the result is within one of x on the side of zero |
| Workloads.EnergyKwh | backend/models/workload.py:35-40 | the energy estimate is positive for positive cpu and duration and bounded by 64 cores × 0.1 kW × 168 h for a valid workload |
| Workloads.ToDict | backend/models/workload.py:42-53 | every field is present in the dictionary, plus the energy estimate |
| Workloads.FromDict | backend/models/workload.py:55-66 | a missing cpu, memory or duration is a key error in that order; a dict with all three succeeds iff they and the priority (5 when missing) are in range, and otherwise fails with a range error; the result keeps the given quantities, id (else the fresh id), priority (else 5), arrival (else `now`) and deadline (else arrival + 24 h) |
| Workloads.MissingPriorityIsFive | backend/models/workload.py:63 | a complete, in-range dict without a priority gives a workload of priority 5 |
| Workloads.RoundTrip | backend/models/workload.py:42-66 | `from_dict(to_dict(w))` gives back exactly `w` for every valid workload |
| Workloads.DefaultPriorityIsFive | backend/models/workload.py:13 | a workload built without priority, arrival or deadline has priority 5, arrives now and is due 24 h later |
| Workloads.EnergyOfFourCoresForTwoHours | backend/models/workload.py:35-40 | 4 cores for 2 hours use 0.8 kWh |
| Ordering.Insert | backend/algorithms/greedy.py:41 | inserting behind every element with a key no greater keeps the multiset plus the new element |
| Ordering.InsertKeepsSorted | backend/algorithms/greedy.py:41 | insertion into a sorted sequence keeps it sorted |
| Ordering.Sort | backend/algorithms/dynamic_programming.py:46-49 | `sorted` returns a permutation of its input, sorted by the key (arrival time, or deadline then descending priority) |
| Ordering.WithKeyInsert | backend/algorithms/baseline.py:39 | insertion appends the new element to the elements of its key and leaves every other key's elements unchanged |
| Ordering.SortIsStable | backend/algorithms/baseline.py:39 | for every key, the workloads with that key keep their input order after the sort |
| Readings.ReadingOr | backend/algorithms/greedy.py:80-82 | a datacenter with data gets its reading; one without gets intensity 200 and renewable 30 |
| Readings.ForecastOr | backend/algorithms/dynamic_programming.py:76-77 | a (datacenter, slot) with a forecast gets it; one without gets intensity 200 and renewable 30 |
| Schedules.SummaryOf | backend/models/schedule.py:64-77 | `tasks_scheduled` is the number of assignments; an empty schedule has all totals and averages 0 instead of dividing by zero |
| Schedules.MinOf | backend/services/metrics.py:70 | `min` is a lower bound attained by some assignment |
| Schedules.MaxOf | backend/services/metrics.py:71 | `max` is an upper bound attained by some assignment |
| Schedules.SumAppend | backend/models/schedule.py:40-48 | the sums are additive over concatenation |
| Schedules.TotalCarbonGrowsByEmissions | backend/models/schedule.py:40-43 | adding an assignment anywhere raises total carbon by exactly its emissions |
| Schedules.SumBounds | backend/models/schedule.py:40-48 | n values within [lo, hi] sum to within [n·lo, n·hi] |
| Schedules.MeanBetweenMinAndMax | backend/models/schedule.py:57-62 | on a non-empty schedule the average lies between the smallest and largest value averaged |
| Schedules.MeanWithin | backend/models/schedule.py:50-62 | values within [lo, hi] average to within [lo, hi] |
| Datacenters.AllocateView | backend/models/datacenter.py:42-50 | allocation succeeds iff both cpu and memory fit; on failure nothing changes, on success exactly (cpu, memory) is subtracted, totals untouched, and 0 ≤ available ≤ total is preserved for non-negative requests |
| Datacenters.Utilization | backend/models/datacenter.py:60-66 | utilisation is undefined exactly when the total is 0, lies in [0,100] when 0 ≤ available ≤ total, is 0 when nothing is used and 100 when everything is |
| Datacenters.Datacenter.constructor | backend/models/datacenter.py:19-40 | available cpu and memory not supplied start at their totals |
| Datacenters.Datacenter.Allocate | backend/models/datacenter.py:45-50 | returns `can_accommodate`, and the new state is what `AllocateView` gives |
| Datacenters.Datacenter.Release | backend/models/datacenter.py:52-54 | capacity is given back, capped at the totals |
| Datacenters.Datacenter.ResetCapacity | backend/models/datacenter.py:56-58 | available cpu and memory return to their totals |
| Datacenters.Views | backend/models/datacenter.py:19-34 | the value view of each datacenter, in list order |
| Datacenters.AllocateAt | backend/algorithms/greedy.py:101 | allocating on one datacenter of a list changes that entry only |
| Datacenters.CopyAll | backend/algorithms/greedy.py:31 | `deepcopy` of a list of distinct objects gives fresh distinct objects with the same fields |
| Datacenters.DefaultDatacenters | backend/models/datacenter.py:107-180 | the six default sites, fresh and in the source's order, at 200 cores and 800 GB |
| Datacenters.NewSite | backend/models/datacenter.py:109-180 | one default site object with its display fields |
| Datacenters.DefaultSitesAreFree | backend/models/datacenter.py:107-180 | each default site carries its id and is at full capacity |
| Datacenters.HalfAllocatedIsFifty | backend/models/datacenter.py:60-66 | allocating half of each resource of a free datacenter gives 50 % utilisation of both |
| Placement.LowestAmong | backend/algorithms/greedy.py:47-76 | greedy's choice fits, has the least rank (999 without data) among all that fit, and no earlier fitting site has the same rank; none iff nothing fits |
| Placement.FirstAmong | backend/algorithms/baseline.py:47-48 | FCFS's choice is the first site in list order that fits; none iff nothing fits |
| Placement.Pick | backend/algorithms/greedy.py:47-51 | whatever the policy, a chosen site fits, and there is no choice exactly when no site fits |
| Placement.Charge | backend/algorithms/greedy.py:80-98 | emissions are the energy times the current intensity (200 without data), renewable 30 without data, cost cpu × duration × rate, the job runs from arrival for its duration |
| Placement.ChargeDependsOnSiteOnly | backend/algorithms/baseline.py:50-67 | the charge does not depend on the site's remaining capacity |
| Placement.Run | backend/algorithms/baseline.py:43-75 | the loop keeps every site's identity, totals and rate |
| Placement.RunExtend | backend/algorithms/greedy.py:45-101 | one more workload is one more loop iteration |
| Placement.RunAssignsEachAtMostOnce | backend/algorithms/greedy.py:45-101 | placed positions strictly increase, each assignment is its own workload's charge on its own site, and there are at most as many assignments as workloads |
| Placement.StepKeepsAssignedAtMostOnce | backend/algorithms/baseline.py:43-75 | one iteration preserves the at-most-once invariant |
| Placement.RunRespectsCapacity | backend/algorithms/greedy.py:47-101 | each site's remaining capacity is its initial one minus what was placed on it and never negative, so placed cpu and memory never exceed what was available |
| Placement.FirstFitIgnoresCarbon | backend/algorithms/baseline.py:47-48 | FCFS places the same workloads on the same sites whatever the carbon data |
| Placement.FirstFitSchedulesAll | backend/algorithms/baseline.py:43-72 | when the first site can hold everything, FCFS places every workload there, in order |
| Placement.RunDurationIsPlacedWork | backend/services/metrics.py:86-94 | the assignments' hours add up to the durations of the placed workloads |
| Placement.ChargeOfFourCoresForTwoHours | backend/algorithms/greedy.py:84-86 | 4 cores for 2 hours at 100 gCO2/kWh are charged 80 g |
| Placement.SortKeepsTotals | backend/algorithms/greedy.py:41 | sorting keeps the workloads' total cpu and memory |
| Placement.CleanestFirstSiteMakesGreedyFirstFit | backend/algorithms/greedy.py:61-76 | when the first site holds everything and ranks lowest, greedy's run is FCFS's run |
| Greedy.SelectLowest | backend/algorithms/greedy.py:47-76 | filtering the accommodating sites, stably sorting by rank and taking the first is `LowestAmong` |
| Greedy.PlaceLowest | backend/algorithms/greedy.py:45-101 | one iteration updates the datacenter objects and the assignments as one step of the greedy run |
| Greedy.GreedySchedule | backend/algorithms/greedy.py:28-109 | `greedy_schedule` returns the greedy run over the arrival-sorted workloads, labelled 'greedy', leaving the caller's datacenters unchanged |
| Greedy.GreedyMatchesFcfsWhenFirstSiteIsCleanest | backend/tests/test_algorithms.py:183-198 | when the first site holds everything and ranks lowest, greedy places as FCFS does and emits no more carbon |
| Baseline.PlaceFirst | backend/algorithms/baseline.py:43-75 | one iteration with the `assigned` flag and `break` is one step of the first-fit run |
| Baseline.FcfsSchedule | backend/algorithms/baseline.py:33-83 | `fcfs_schedule` returns the first-fit run over the arrival-sorted workloads, labelled 'fcfs', leaving the caller's datacenters unchanged |
| DynamicProgramming.InitGrid | backend/algorithms/dynamic_programming.py:40-43 | every datacenter id has a row of `time_slots` cells; each cell starts at the total cpu of the last site with that id |
| DynamicProgramming.InitGridCells | backend/algorithms/dynamic_programming.py:40-43 | grid keys are datacenter ids, and with non-negative totals every cell starts non-negative |
| DynamicProgramming.TaskSlots | backend/algorithms/dynamic_programming.py:57 | a task spans at least one slot |
| DynamicProgramming.DeadlineSlots | backend/algorithms/dynamic_programming.py:61 | the hours to the deadline count as at least one |
| DynamicProgramming.MaxStart | backend/algorithms/dynamic_programming.py:60-66 | the last start slot is inside the horizon, and when positive the workload ends within the horizon and by the deadline |
| DynamicProgramming.ChoiceAt | backend/algorithms/dynamic_programming.py:76-90 | a cell's emissions are the energy times its forecast intensity, 200/30 without forecast |
| DynamicProgramming.ConsiderKeepsBest | backend/algorithms/dynamic_programming.py:70-90 | checking one more cell keeps "least emission so far, earliest on ties" |
| DynamicProgramming.RowScanIsBest | backend/algorithms/dynamic_programming.py:70-90 | the scan over the datacenters of a slot keeps the best-so-far invariant |
| DynamicProgramming.RowDone | backend/algorithms/dynamic_programming.py:69-70 | finishing a slot's row is starting the next slot |
| DynamicProgramming.SlotScanIsBest | backend/algorithms/dynamic_programming.py:69-90 | the scan over slots yields the best cell so far |
| DynamicProgramming.BestCell | backend/algorithms/dynamic_programming.py:54-90 | the chosen cell has room, has the least emission of all cells with room in the window, and is the first such in scan order |
| DynamicProgramming.CheapestCell | backend/algorithms/dynamic_programming.py:54-90 | the double loop with `min_carbon` computes `BestCell` |
| DynamicProgramming.Booking | backend/algorithms/dynamic_programming.py:98-110 | the assignment starts `t` hours after now, lasts the duration, carries the cell's emissions, intensity and renewable, and costs cpu × duration × rate |
| DynamicProgramming.Book | backend/algorithms/dynamic_programming.py:96 | booking lowers exactly one cell by the cpu and leaves every other cell unchanged |
| DynamicProgramming.DpStep | backend/algorithms/dynamic_programming.py:53-112 | one workload adds at most one assignment and keeps the earlier ones |
| DynamicProgramming.DpStepBooksCheapestCell | backend/algorithms/dynamic_programming.py:69-112 | a workload is skipped exactly when no cell of its window has room; otherwise it is booked on the cheapest cell |
| DynamicProgramming.DpLoop | backend/algorithms/dynamic_programming.py:53-112 | the loop keeps the grid's keys and shape and makes no more assignments than there are workloads |
| DynamicProgramming.DpLoopExtend | backend/algorithms/dynamic_programming.py:53-112 | one more workload is one more iteration |
| DynamicProgramming.DpRun | backend/algorithms/dynamic_programming.py:13-120 | the schedule is labelled 'dp', has no more assignments than workloads, and is empty with time 0 for no workloads |
| DynamicProgramming.StepKeepsBookedAtMostOnce | backend/algorithms/dynamic_programming.py:53-112 | one iteration of the outer loop keeps every workload booked at most once |
| DynamicProgramming.DpAssignsEachAtMostOnce | backend/algorithms/dynamic_programming.py:53-112 | the bookings' positions in processing order strictly increase, and the j-th assignment is its own workload's booking on its own cell, whose start slot is at most the workload's latest start `MaxStart` |
| DynamicProgramming.DpRunAssignsEachAtMostOnce | backend/algorithms/dynamic_programming.py:46-112 | `dp_schedule` books each workload of the (deadline, -priority) order at most once, each on a cell of its window: a site index in range and a start slot no later than the workload's latest start `MaxStart` |
| DynamicProgramming.BookKeepsWithin | backend/algorithms/dynamic_programming.py:72-96 | booking a cell that has room keeps every cell between 0 and its initial value |
| DynamicProgramming.DpNeverOverbooks | backend/algorithms/dynamic_programming.py:72-96 | no cell ever goes negative or above its initial total cpu |
| DynamicProgramming.DpStartsWithinHorizon | backend/algorithms/dynamic_programming.py:98 | every start is a whole number of hours after now, within the horizon |
| DynamicProgramming.PlaceCheapest | backend/algorithms/dynamic_programming.py:53-112 | one outer iteration is `DpStep` |
| DynamicProgramming.DpSchedule | backend/algorithms/dynamic_programming.py:13-120 | `dp_schedule` is `DpRun` over the views of its datacenters, which it only reads |
| Metrics.CarbonMetricsOf | backend/services/metrics.py:10-39 | saved + optimized = baseline; the reduction is saved/baseline × 100, or 0 when the baseline is not positive; per-task carbon is total/count, or 0 when empty; the equivalents are saved divided by 21000, 404, 8.22 and 5 |
| Metrics.PercentReductionInRange | backend/services/metrics.py:20-21 | when the optimized total is between 0 and a positive baseline, the reduction is in [0,100] |
| Metrics.CostMetricsOf | backend/services/metrics.py:42-51 | per-task cost is total/count, or 0 when empty; cost per carbon is cost/carbon, or 0 when carbon is not positive |
| Metrics.GreenCountCountsGreen | backend/services/metrics.py:66 | the green count is the number of assignments whose renewable share is strictly above 50 |
| Metrics.RenewableMetricsOf | backend/services/metrics.py:53-74 | all zero for an empty schedule; otherwise the mean, min and max of the shares, the green count, and a green percentage in [0,100] |
| Metrics.Percent | backend/services/metrics.py:73 | a count out of a positive total is a percentage in [0,100] |
| Metrics.PerformanceMetricsOf | backend/services/metrics.py:77-96 | tasks scheduled is the count and the execution time is passed through; for an empty schedule the average is 0; otherwise the total is the sum of hours and the average is total/count |
| Dicts.FirstIndex | backend/services/metrics.py:105 | a dictionary lookup on insertion-ordered keys: the first position holding the key, or the end when there is none |
| Metrics.Find | backend/services/metrics.py:105 | the first entry with the id, or the end when there is none |
| Metrics.DistributionOf | backend/services/metrics.py:99-121 | the distribution has no more entries than assignments, and every entry counts at least one assignment |
| Metrics.DatacenterDistribution | backend/services/metrics.py:99-121 | the loop computes the distribution function |
| Metrics.OnDatacenter | backend/services/metrics.py:103-114 | the assignments on one datacenter are among the schedule's |
| Metrics.DistributionKeys | backend/services/metrics.py:103-110 | each datacenter that appears in the schedule has exactly one entry, and no other has one |
| Metrics.DistributionTotals | backend/services/metrics.py:112-114 | an entry holds the count, emissions and cost of exactly the assignments on its datacenter |
| Metrics.NothingOnUnmentioned | backend/services/metrics.py:103-114 | a datacenter that never appears has no assignments |
| Metrics.DistributionAddsUp | backend/services/metrics.py:99-121 | the counts sum to the number of assignments and the per-datacenter carbon sums to total carbon |
| Metrics.AllMetricsOf | backend/services/metrics.py:123-136 | the sections agree: the distribution's counts add up to the tasks scheduled, and its carbon to the optimized total |
| Metrics.BaselineOnlyInCarbon | backend/services/metrics.py:123-136 | changing the baseline changes only the carbon section |
| Optimizer.Registered | backend/services/optimizer.py:22-26 | a name is registered iff it is greedy, dp or fcfs, and maps to that algorithm |
| Optimizer.Dispatch | backend/services/optimizer.py:62 | a known name runs its own algorithm, any other name (round_robin included) runs greedy |
| Optimizer.Selected | backend/services/optimizer.py:35-38 | the selection is no longer than the list |
| Optimizer.ResetEach | backend/services/optimizer.py:42-43 | every site is reset, in order |
| Optimizer.FreshViews | backend/services/optimizer.py:33-45 | fresh datacenters are the selected sites, in list order, each at full capacity |
| Optimizer.SelectionKeepsListOrder | backend/services/optimizer.py:35-36 | the selection is the chosen sites at strictly increasing positions, and every chosen site is among them |
| Optimizer.NoFilterSelectsAll | backend/services/optimizer.py:35-38 | a missing or empty id list selects every site in order |
| Optimizer.RunAlgorithm | backend/services/optimizer.py:65-69 | the schedule carries the algorithm's name and no more assignments than workloads |
| Optimizer.RunAlgorithmAssignsEachAtMostOnce | backend/services/optimizer.py:65-69 | for all three algorithms the j-th assignment belongs to the workload at a strictly increasing position of the processing order, a permutation of the input |
| Optimizer.RunOn | backend/services/optimizer.py:65-69 | running on datacenter objects is `RunAlgorithm` on their views |
| Optimizer.OptimizeSpec | backend/services/optimizer.py:47-84 | `optimize` returns the dispatched algorithm's schedule and the FCFS baseline, each of at most one assignment per workload, the metrics of that schedule against that baseline, and the given carbon data |
| Optimizer.BaselineIgnoresRequestedAlgorithm | backend/services/optimizer.py:72-76 | the baseline is FCFS on fresh copies whatever algorithm was requested, and the carbon metrics compare against it |
| Optimizer.UnknownNameRunsGreedy | backend/services/optimizer.py:62 | an unknown name gives exactly what 'greedy' gives |
| Optimizer.FcfsSavesNothing | backend/services/optimizer.py:65-76 | asking for 'fcfs' saves nothing against the baseline |
| Optimizer.CountsOf | backend/services/optimizer.py:117-120 | the counts of the metrics distribution, keys in the same order |
| Optimizer.BumpMatchesTally | backend/services/optimizer.py:120 | `distribution.get(dc, 0) + 1` is the count of the metrics tally |
| Optimizer.CountTotalIsCountOf | backend/services/optimizer.py:117-120 | the counts sum as the distribution counts do |
| Optimizer.CountByDatacenter | backend/services/optimizer.py:117-120 | the loop yields one count per datacenter in order of first appearance, summing to the number of assignments |
| Optimizer.Summarize | backend/services/optimizer.py:122-129 | a result entry's distribution sums to `tasks_scheduled`, the number of assignments |
| Optimizer.Position | backend/services/optimizer.py:122 | the first result with the name, or the end when there is none |
| Optimizer.CompareResults | backend/services/optimizer.py:101-129 | the loop adds at most one key per requested name |
| Optimizer.CompareResultsExtend | backend/services/optimizer.py:103-129 | one more name is one more iteration |
| Optimizer.BestIndex | backend/services/optimizer.py:132-135 | the winner has the least rounded total carbon, and no earlier result is as low |
| Optimizer.PutKeeps | backend/services/optimizer.py:122 | recording a consistent entry keeps the keys distinct and the entries consistent, adding exactly its name |
| Optimizer.CompareResultKeys | backend/services/optimizer.py:103-129 | the keys are the requested names that are registered, each once, and each entry is a consistent run of its own algorithm |
| Optimizer.CompareSpec | backend/services/optimizer.py:86-143 | the only error is `min` of no results; a comparison holds between one and as many results as names requested, the given carbon data, and a winner that is one of its keys |
| Optimizer.CompareOutcome | backend/services/optimizer.py:86-143 | the comparison fails iff no requested name (default greedy, dp, fcfs) is registered; otherwise it counts the workloads and its winner has the least rounded carbon, first in request order |
| Optimizer.SelectSites | backend/services/optimizer.py:35-38 | the list comprehension selects `Selected` |
| Optimizer.ResetAll | backend/services/optimizer.py:42-43 | every datacenter of the list is reset |
| Optimizer.CopyFresh | backend/services/optimizer.py:41-43 | deep copy plus reset gives fresh objects at full capacity |
| Optimizer.OptimizerService.constructor | backend/services/optimizer.py:28-31 | the service starts on the default datacenters |
| Optimizer.OptimizerService.FreshDatacenters | backend/services/optimizer.py:33-45 | `_get_fresh_datacenters` returns fresh copies of the selected sites at full capacity |
| Optimizer.OptimizerService.RunFresh | backend/services/optimizer.py:56-69 | an algorithm runs on its own fresh copies |
| Optimizer.OptimizerService.Optimize | backend/services/optimizer.py:47-84 | `optimize` returns the requested schedule, the FCFS baseline and their metrics |
| Optimizer.OptimizerService.CollectResults | backend/services/optimizer.py:101-129 | the loop of `compare_algorithms` yields `CompareResults` |
| Optimizer.OptimizerService.Compare | backend/services/optimizer.py:86-143 | `compare_algorithms` returns `CompareSpec`, the error when there are no results |
| Upload.Clamp | backend/routes/upload.py:173 | the clamped priority is in [1,10] and unchanged when already there |
| Upload.Validate | backend/routes/upload.py:141-180 | a row validates iff cpu, memory and duration parse (missing counting as 0) and are in range; the workload then has the clamped priority, arrives now and is due 24 h later |
| Upload.MissingFieldIsRejected | backend/routes/upload.py:146-171 | a row missing cpu, memory or duration is rejected |
| Upload.PriorityNeverRejects | backend/routes/upload.py:160-163 | the priority never decides acceptance, and an unparseable one becomes 5 |
| Upload.ToDictRowValidates | backend/routes/upload.py:141-180 | a row built from a valid workload validates back to it, with the fresh id and arrival |
| Upload.ParseJson | backend/routes/upload.py:96-106 | a list is returned unchanged, an object's `workloads` value is returned, anything else is an error |
| Upload.WrappedListParsesAlike | backend/routes/upload.py:101-104 | `{"workloads": [...]}` parses as the bare list |
| Upload.Rows | backend/routes/upload.py:66 | an array's rows are its items; an empty string or dictionary yields no rows; a non-empty one fails at row 1, whose value is not a dictionary; a number, boolean or null is not iterable |
| Upload.Partition | backend/routes/upload.py:63-71 | when the row loop gets through, every row became a workload or an error; when it fails, it names a row between 1 and the number of rows |
| Upload.PartitionFailsOnNonObjects | backend/routes/upload.py:66-71 | the loop fails iff some row is not a dictionary, and then at the first such row |
| Upload.AccountsForValidRow | backend/routes/upload.py:66-71 | a last dictionary row that validates adds its own workload and keeps every row accounted for |
| Upload.AccountsForRejectedRow | backend/routes/upload.py:66-78 | a last dictionary row that is rejected adds its own error, numbered with its 1-based row, and keeps every row accounted for |
| Upload.PartitionAccountsForEveryRow | backend/routes/upload.py:66-78 | the j-th workload is the one the j-th validating row gives, each error is its own row's error tagged with its 1-based number, in row order, and every row is one or the other |
| Upload.ParseRows | backend/routes/upload.py:63-78 | a success holds at least one workload and accounts for every row; "no valid workloads" carries one error per row; any other failure names a row in range |
| Upload.NoValidWorkloadsMeansAllRejected | backend/routes/upload.py:73-78 | "no valid workloads" means every row was a dictionary and was rejected |
| Upload.ParseWorkloads | backend/routes/upload.py:63-78 | the loop and its check compute `ParseRows` |
| Upload.PartitionStaysFailed | backend/routes/upload.py:66-71 | once a row has failed, the whole loop has failed the same way |
| Upload.LowerAll | backend/routes/upload.py:118 | lower-casing keeps length and maps each character |
| Upload.OccursIffWindow | backend/routes/upload.py:118 | `t in s` holds iff some window of s spells t |
| Upload.HasHeader | backend/routes/upload.py:117-118 | the first row is a header iff 'cpu' or 'memory', lower-cased, is spelled at some position and ends within the first 1000 characters |
| Upload.HeaderLooksOnlyAtSample | backend/routes/upload.py:117-118 | only the first 1000 characters decide the header, and their case does not matter |
| Upload.StripStartDropsLeadingSpace | backend/routes/upload.py:132-135 | the left strip drops exactly the leading whitespace |
| Upload.StripEndDropsTrailingSpace | backend/routes/upload.py:132-135 | the right strip drops exactly the trailing whitespace |
| Upload.StripCutsOnlySpace | backend/routes/upload.py:132-135 | `strip()` is a slice whose cut-off parts are whitespace and whose ends are not |
| Upload.HeaderlessRows | backend/routes/upload.py:128-136 | no more rows come out than go in |
| Upload.HeaderlessKeepsWideRows | backend/routes/upload.py:130 | every row with at least three fields is kept |
| Upload.HeaderlessKeepsOnlyWideRows | backend/routes/upload.py:128-136 | the kept rows are exactly the positional maps of the rows with at least three fields, in file order |
| Upload.ThreeFieldRowGetsPriorityFive | backend/routes/upload.py:135 | a three-field row validates with priority 5 |
| Upload.ParseHeaderlessCsv | backend/routes/upload.py:128-138 | the loop computes `HeaderlessRows` |
| CarbonApi.IndexOf | backend/services/carbon_api.py:107 | the first position of the key, or the end when there is none |
| CarbonApi.Renewable | backend/services/carbon_api.py:100-104 | the renewable share is non-negative when every percentage is |
| CarbonApi.RenewableSumsRenewableFuels | backend/services/carbon_api.py:101-104 | the share is the sum of the percentages of exactly the wind, solar, hydro and nuclear entries |
| CarbonApi.AggregateSnoc | backend/services/carbon_api.py:88-115 | one more region is one more step |
| CarbonApi.Aggregate | backend/services/carbon_api.py:88-115 | the aggregated dict has at most one entry per region, and every key is a datacenter of the region mapping |
| CarbonApi.AggregateKeepsFirstLowest | backend/services/carbon_api.py:88-115 | unmapped regions are ignored; a datacenter has an entry iff some region maps to it, and the entry is that of the first region with the least intensity |
| CarbonApi.StepKeepsFirstLowest | backend/services/carbon_api.py:107-115 | one region preserves the first-lowest invariant |
| CarbonApi.AggregateRegions | backend/services/carbon_api.py:88-115 | the region loop computes `Aggregate` |
| CarbonApi.KeptIsAtThreshold | backend/services/carbon_api.py:121-126 | the filter keeps exactly the entries at or above 50, unchanged |
| CarbonApi.PutFlooredCovers | backend/services/carbon_api.py:134-136 | the fallback puts every datacenter with its intensity floored at 50 and keeps the rest |
| CarbonApi.Thresholded | backend/services/carbon_api.py:121-136 | a dict in gives a dict out, with no datacenter the aggregate did not have |
| CarbonApi.ThresholdKeepsAtLeastThree | backend/services/carbon_api.py:121-136 | every returned intensity is at least 50; below-threshold sites are dropped unless fewer than 3 remain, in which case all return floored; at least 3 sites in means at least 3 out |
| CarbonApi.ApplyThreshold | backend/services/carbon_api.py:121-136 | the filter loops compute `Thresholded` |
| CarbonApi.DefaultCarbonIsClean | backend/services/carbon_api.py:206-216 | the six default entries are distinct and at least 50 |
| CarbonApi.CarbonDataOf | backend/services/optimizer.py:59-73 | the dict `get_current_intensity` returns, as the `carbon_data` map the schedulers read: the same keys, each with its intensity and renewable share |
| CarbonApi.Scaled | backend/services/carbon_api.py:186-190 | every scaled intensity is at least 50 |
| CarbonApi.SliceLength | backend/services/carbon_api.py:181 | `forecasts[:hours]` keeps min(hours, n) items, and drops the last -hours items for a negative `hours` |
| CarbonApi.SpreadAt | backend/services/carbon_api.py:181-197 | the forecast has an entry per (datacenter, hour) of the grid, with the per-entry value |
| CarbonApi.IsSpread | backend/services/carbon_api.py:181-197 | a map with those keys and values is the forecast |
| CarbonApi.SpreadSize | backend/services/carbon_api.py:181-197 | the forecast has hours × datacenters entries |
| CarbonApi.ScaledForecastCoversGrid | backend/services/carbon_api.py:179-197 | one entry per (datacenter, hour < min(hours, #forecasts)), intensity max(national × current/avg, 50), renewable unchanged, all at least 50 |
| CarbonApi.ScalingKeepsNationalMean | backend/services/carbon_api.py:179-190 | without flooring, an hour's datacenter intensities average to the national figure |
| CarbonApi.AverageAtLeastFloor | backend/services/carbon_api.py:179 | the average of thresholded data is at least 50, so the ratio never divides by zero |
| CarbonApi.BuildForecast | backend/services/carbon_api.py:176-197 | the nested loops compute `ScaledForecast` |
| CarbonApi.VariationCycles | backend/services/carbon_api.py:225 | the variation repeats every 8 hours and lies in [-40, 30] |
| CarbonApi.DefaultForecastCycles | backend/services/carbon_api.py:218-232 | hours × 6 entries; intensity max(50, base + variation), within 40 below and 30 above base, period 8; renewable unchanged |
| CarbonApi.BuildVaried | backend/services/carbon_api.py:223-230 | the nested loops over hours and a keyed dict put each datacenter's varied reading at each hour, giving exactly the spread of `DefaultAt` |
| CarbonApi.BuildDefaultForecast | backend/services/carbon_api.py:218-232 | the default forecast the method builds is `DefaultForecast` |
| CarbonApi.CurrentFrom | backend/services/carbon_api.py:64-153 | the current data, cached, fetched or default, has distinct keys and every intensity at least 50; it is empty only when fresh data left no datacenter |
| CarbonApi.CurrentRespectsThreshold | backend/services/carbon_api.py:64-153 | current data, cached, fetched or default, has distinct keys and intensities at least 50, and keeps at least 3 sites when at least 3 were aggregated |
| CarbonApi.ForecastFrom | backend/services/carbon_api.py:155-204 | a forecast, cached, scaled or default, has every intensity at least 50, so it fits the cache |
| CarbonApi.CarbonApiClient.constructor | backend/services/carbon_api.py:39-42 | the cache starts empty with the given TTL |
| CarbonApi.CarbonApiClient.GetCached | backend/services/carbon_api.py:44-53 | a lookup hits iff the key is stored and younger than the TTL, and then returns the stored payload |
| CarbonApi.CarbonApiClient.SetCache | backend/services/carbon_api.py:55-57 | after storing, lookups return the data while younger than the TTL and miss afterwards |
| CarbonApi.CarbonApiClient.ClearCache | backend/services/carbon_api.py:234-237 | both dictionaries are emptied and every lookup misses |
| CarbonApi.CarbonApiClient.GetCurrentIntensity | backend/services/carbon_api.py:59-153 | returns the non-empty cached data, or else the fetched, aggregated and thresholded data, which is cached, or else the defaults; all at least 50 |
| CarbonApi.CarbonApiClient.GetForecast | backend/services/carbon_api.py:155-204 | returns the non-empty cached forecast, or else the scaled forecast, or else the default forecast; every intensity is at least 50; the cache is unchanged on a hit or a failed request, and after a fetch holds the scaled forecast stamped `now`, on top of the current readings when those were fetched as well |

## Left out

- The Flask routes, request parsing, JSON responses and HTTP status codes are not modelled; they are request plumbing. This includes the file-name and extension dispatch of `parse_workloads` and the templates in backend/routes/upload.py.
- The HTTP calls of the carbon client are not modelled. Their decoded responses are parameters, and a failed request is `None`.
  - `print` output and tracebacks are left out.
  - The generic `except Exception` fallback is not distinguished from a failed request.
- Clocks, timing and ids are inputs:
  - `datetime.utcnow()` is `now`, and times are real hours rather than datetimes;
  - `time.time()` running times are the `elapsedMs` parameters;
  - `uuid4` ids are the `freshId`/`ids` parameters;
  - the cache clock is `now` in the TTL's unit.
- Workloads.FromDict: `WorkloadDict` holds values that are already typed, so `from_dict`'s `float()`, `int()` and `datetime.fromisoformat` conversions are not modelled (for example `int()` truncating a non-integer priority, or a conversion raising on a malformed string); an empty deadline or arrival string, which `data.get(...)` treats as absent, is modelled as `None`.
- `round(...)` is not modelled: metrics and `to_dict` values are exact. The comparison winner uses a `round2` parameter.
- `numpy.mean` is modelled as sum divided by count.
- Floating point is not modelled: quantities are exact reals, and NaN or infinity never arise.
- Carbon entries that lack an `intensity` or `renewable` key are not modelled, because every producer in the repository sets both.
- Forecast entries' `hour` and `timestamp` fields are not modelled.
- Current data's `generation_mix`, `region_name` and `last_updated` fields are not modelled. Only intensity, renewable and index are kept.
- `DC_TO_REGION` is not modelled because nothing uses it.
- `Datacenter.to_dict`, its coordinates and its display-only carbon fields are not modelled. `Assignment.to_dict` and `Schedule.to_dict` are modelled only through the summary figures.
- The JSON decoder, CSV tokenisation and the `DictReader` header branch of `parse_csv` are not modelled. The model starts from decoded values or split rows, and `float()`/`int()` on strings are a `Parsers` parameter.
- Python's `str.strip` is modelled with the Latin-1 whitespace set and `str.lower` with ASCII case only; wider Unicode whitespace and case rules are left out (no non-ASCII character lowercases to a letter of "cpu" or "memory", so header detection is unaffected).
- Greedy's in-place `available_dcs.sort` is modelled as the first site with the least rank. That is the element a stable sort puts first.
- DP's `copy.deepcopy` is modelled as reading a snapshot of the datacenters, because DP never changes them.
- Datacenters.CopyAll: requires distinct objects. `deepcopy` of a list that holds one object twice shares one copy between both places; every caller passes distinct objects, so greedy and FCFS require them too.
- `dp_schedule`'s `if workload.deadline` else-branch is not modelled: construction always sets a deadline, so it cannot run.
- DpRun: a `time_slots` of 0 or less, with workloads and datacenters, raises `KeyError` in the source; DpRun, DpSchedule and DpLoop take `requires` clauses that exclude it rather than modelling the crash.
- The Python dictionaries that `get_current_intensity` mutates in place (the floor fallback writes into `result`'s entries) are modelled as values; the aliasing between `result` and `filtered_result` is not modelled.
- A cached forecast is the only payload stored under a forecast key. The class invariant `Valid` records this; the source does not check it.
- Optimizer.OptimizerService.constructor: the service gets its own copies of the default datacenters rather than sharing the module-level list; nothing in the model mutates that list.
- Optimizer.OptimizerService.CollectResults: the fresh copies are made only for registered names, while the source also copies before skipping an unknown name; the copies are never used, so results are the same.
- The module-level singletons `carbon_client` and `optimizer_service` are not modelled.
- The workload simulator, backend/config.py, the scripts and the test fixtures are not modelled; the fixtures only inform lemmas such as `Greedy.GreedyMatchesFcfsWhenFirstSiteIsCleanest`.
- Round robin is not modelled, because there is no implementation. The name falls through to greedy, as `Optimizer.Dispatch` states.
- No DP ≤ greedy theorem is stated, because the code does not promise it: DP reads the forecast while greedy reads current data.
