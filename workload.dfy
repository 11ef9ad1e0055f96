/** Workloads (backend/models/workload.py): the validated record of one job,
    its energy estimate and its dictionary form. Times are hours on a real
    line; the wall clock and the random id the source draws are parameters. */
module Workloads {
  import opened Wrappers

  /** Priority of a workload that does not state one. */
  const DefaultPriority: int := 5
  /** Hours between arrival and the deadline a workload gets by default. */
  const DefaultDeadlineHours: real := 24.0
  /** Power drawn by one CPU core, in kW. */
  const KwPerCore: real := 0.1

  datatype Workload = Workload(
    id: string,
    cpu: real,
    memory: real,
    duration: real,
    priority: int,
    deadline: real,
    arrivalTime: real)
  {
    /** The bounds construction enforces. */
    predicate Valid() {
      FieldsInRange(cpu, memory, duration, priority)
    }
  }

  datatype WorkloadError =
    | CpuOutOfRange(cpu: real)
    | MemoryOutOfRange(memory: real)
    | DurationOutOfRange(duration: real)
    | PriorityOutOfRange(priority: int)
    | MissingField(name: string)

  /** cpu in (0, 64], memory in (0, 256] GB, duration in (0, 168] h, priority in [1, 10]. */
  predicate FieldsInRange(cpu: real, memory: real, duration: real, priority: int) {
    && 0.0 < cpu <= 64.0
    && 0.0 < memory <= 256.0
    && 0.0 < duration <= 168.0
    && 1 <= priority <= 10
  }

  /** The dataclass constructor followed by `__post_init__`: the checks run in
      the order cpu, memory, duration, priority, and the first one that fails
      is the error; a missing arrival time becomes `now`, a missing deadline
      the arrival time plus 24 hours. */
  function NewWorkload(
    id: string, cpu: real, memory: real, duration: real, priority: int,
    deadline: Option<real>, arrivalTime: Option<real>, now: real
  ): (r: Result<Workload, WorkloadError>)
    ensures r.Ok? <==> FieldsInRange(cpu, memory, duration, priority)
    ensures r.Ok? ==> r.value.Valid()
    ensures r.Ok? ==> r.value.id == id && r.value.cpu == cpu && r.value.memory == memory
                      && r.value.duration == duration && r.value.priority == priority
    ensures r.Ok? && arrivalTime.Some? ==> r.value.arrivalTime == arrivalTime.value
    ensures r.Ok? && arrivalTime.None? ==> r.value.arrivalTime == now
    ensures r.Ok? && deadline.Some? ==> r.value.deadline == deadline.value
    ensures r.Ok? && deadline.None? ==> r.value.deadline == r.value.arrivalTime + DefaultDeadlineHours
    ensures !(0.0 < cpu <= 64.0) ==> r == Err(CpuOutOfRange(cpu))
    ensures 0.0 < cpu <= 64.0 && !(0.0 < memory <= 256.0) ==> r == Err(MemoryOutOfRange(memory))
    ensures (0.0 < cpu <= 64.0 && 0.0 < memory <= 256.0 && !(0.0 < duration <= 168.0))
              ==> r == Err(DurationOutOfRange(duration))
    ensures (0.0 < cpu <= 64.0 && 0.0 < memory <= 256.0 && 0.0 < duration <= 168.0 && !(1 <= priority <= 10))
              ==> r == Err(PriorityOutOfRange(priority))
  {
    if cpu <= 0.0 || cpu > 64.0 then Err(CpuOutOfRange(cpu))
    else if memory <= 0.0 || memory > 256.0 then Err(MemoryOutOfRange(memory))
    else if duration <= 0.0 || duration > 168.0 then Err(DurationOutOfRange(duration))
    else if priority < 1 || priority > 10 then Err(PriorityOutOfRange(priority))
    else
      var arrival := arrivalTime.GetOr(now);
      var due := if deadline.Some? then deadline.value else arrival + DefaultDeadlineHours;
      Ok(Workload(id, cpu, memory, duration, priority, due, arrival))
  }

  /** Python's `int(x)`, which truncates toward zero. */
  function Trunc(x: real): (n: int)
    ensures x >= 0.0 ==> n as real <= x < n as real + 1.0
    ensures x < 0.0 ==> n as real - 1.0 < x <= n as real
  {
    if x >= 0.0 then x.Floor else -((-x).Floor)
  }

  /** Estimated energy in kWh: 0.1 kW per core for the whole duration. */
  function EnergyKwh(w: Workload): (e: real)
    ensures w.cpu > 0.0 && w.duration > 0.0 ==> e > 0.0
    ensures w.Valid() ==> e <= 64.0 * KwPerCore * 168.0
  {
    var powerKw := w.cpu * KwPerCore;
    assert w.Valid() ==> powerKw <= 6.4 && powerKw * w.duration <= 6.4 * w.duration;
    powerKw * w.duration
  }

  /** The dictionary `to_dict` produces, one optional entry per key (a key
      that is absent is `None`). */
  datatype WorkloadDict = WorkloadDict(
    id: Option<string>,
    cpu: Option<real>,
    memory: Option<real>,
    duration: Option<real>,
    priority: Option<int>,
    deadline: Option<real>,
    arrivalTime: Option<real>,
    energyKwh: Option<real>)

  /** Serialisation: every key is present, and the energy estimate is added. */
  function ToDict(w: Workload): (d: WorkloadDict)
    ensures d.id == Some(w.id) && d.cpu == Some(w.cpu) && d.memory == Some(w.memory)
    ensures d.duration == Some(w.duration) && d.priority == Some(w.priority)
    ensures d.energyKwh == Some(EnergyKwh(w))
  {
    WorkloadDict(Some(w.id), Some(w.cpu), Some(w.memory), Some(w.duration), Some(w.priority),
                 Some(w.deadline), Some(w.arrivalTime), Some(EnergyKwh(w)))
  }

  /** `Workload.from_dict`: a missing id takes `freshId`, a missing cpu, memory
      or duration is a key error, a missing priority is 5, and the result is
      validated again by the constructor. The energy entry is ignored. */
  function FromDict(d: WorkloadDict, freshId: string, now: real): (r: Result<Workload, WorkloadError>)
    ensures d.cpu.None? ==> r == Err(MissingField("cpu"))
    ensures d.cpu.Some? && d.memory.None? ==> r == Err(MissingField("memory"))
    ensures d.cpu.Some? && d.memory.Some? && d.duration.None? ==> r == Err(MissingField("duration"))
    ensures r.Ok? ==> r.value.Valid() && Some(r.value.cpu) == d.cpu && Some(r.value.memory) == d.memory
                      && Some(r.value.duration) == d.duration
    ensures d.cpu.Some? && d.memory.Some? && d.duration.Some? ==>
              (r.Ok? <==> FieldsInRange(d.cpu.value, d.memory.value, d.duration.value, d.priority.GetOr(DefaultPriority)))
    ensures d.cpu.Some? && d.memory.Some? && d.duration.Some? && r.Err? ==> !r.error.MissingField?
    ensures r.Ok? ==> r.value.id == d.id.GetOr(freshId) && r.value.priority == d.priority.GetOr(DefaultPriority)
    ensures r.Ok? ==> r.value.arrivalTime == d.arrivalTime.GetOr(now)
    ensures r.Ok? ==> r.value.deadline == if d.deadline.Some? then d.deadline.value
                                          else r.value.arrivalTime + DefaultDeadlineHours
  {
    if d.cpu.None? then Err(MissingField("cpu"))
    else if d.memory.None? then Err(MissingField("memory"))
    else if d.duration.None? then Err(MissingField("duration"))
    else NewWorkload(d.id.GetOr(freshId), d.cpu.value, d.memory.value, d.duration.value,
                     d.priority.GetOr(DefaultPriority), d.deadline, d.arrivalTime, now)
  }

  /** `from_dict(to_dict(w))` gives back `w` itself, whatever id and clock the
      reconstruction would otherwise have drawn. */
  lemma RoundTrip(w: Workload, freshId: string, now: real)
    requires w.Valid()
    ensures FromDict(ToDict(w), freshId, now) == Ok(w)
  {
  }

  /** A complete dictionary with in-range values and no priority entry gives
      a workload of priority 5. */
  lemma MissingPriorityIsFive(d: WorkloadDict, freshId: string, now: real)
    requires d.cpu.Some? && d.memory.Some? && d.duration.Some? && d.priority.None?
    requires FieldsInRange(d.cpu.value, d.memory.value, d.duration.value, DefaultPriority)
    ensures FromDict(d, freshId, now).Ok? && FromDict(d, freshId, now).value.priority == 5
  {
  }

  /** A workload built without a priority has priority 5. */
  lemma DefaultPriorityIsFive(id: string, cpu: real, memory: real, duration: real, now: real)
    requires 0.0 < cpu <= 64.0 && 0.0 < memory <= 256.0 && 0.0 < duration <= 168.0
    ensures NewWorkload(id, cpu, memory, duration, DefaultPriority, None, None, now)
            == Ok(Workload(id, cpu, memory, duration, 5, now + 24.0, now))
  {
  }

  /** 4 cores for 2 hours use 0.8 kWh. */
  lemma EnergyOfFourCoresForTwoHours(w: Workload)
    requires w.cpu == 4.0 && w.duration == 2.0
    ensures EnergyKwh(w) == 0.8
  {
  }
}
