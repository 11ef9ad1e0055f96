/** The upload parser (backend/routes/upload.py): from the rows of an
    uploaded JSON or headerless CSV file to validated workloads, with one
    error per rejected row. JSON decoding, CSV tokenisation and Python's
    `float`/`int` on strings are parameters; the HTTP request and the
    response body are not modelled. */
module Upload {
  import opened Wrappers
  import opened Workloads

  /** A decoded JSON value. CSV cells enter as strings. */
  datatype Json =
    | JNull
    | JBool(b: bool)
    | JNumber(x: real)
    | JString(s: string)
    | JArray(items: seq<Json>)
    | JObject(fields: map<string, Json>)

  /** Python's `float(s)` and `int(s)` on a string: the number, or `None`
      where they raise ValueError. */
  datatype Parsers = Parsers(toFloat: string -> Option<real>, toInt: string -> Option<int>)

  /** `float(v)`: `None` where Python raises ValueError or TypeError. */
  function AsFloat(v: Json, p: Parsers): Option<real> {
    match v
    case JNumber(x) => Some(x)
    case JBool(b) => Some(if b then 1.0 else 0.0)
    case JString(s) => p.toFloat(s)
    case _ => None
  }

  /** `int(v)`, which truncates a number toward zero. */
  function AsInt(v: Json, p: Parsers): Option<int> {
    match v
    case JNumber(x) => Some(Trunc(x))
    case JBool(b) => Some(if b then 1 else 0)
    case JString(s) => p.toInt(s)
    case _ => None
  }

  /** `data.get(key, default)`. */
  function Get(data: map<string, Json>, key: string, default: Json): Json {
    if key in data then data[key] else default
  }

  /** The ValueError `validate_workload_data` raises, in its check order. */
  datatype UploadError =
    | BadCpu(value: Json)
    | BadMemory(value: Json)
    | BadDuration(value: Json)
    | CpuRange(cpu: real)
    | MemoryRange(memory: real)
    | DurationRange(duration: real)

  /** `max(1, min(10, p))`. */
  function Clamp(p: int): (c: int)
    ensures 1 <= c <= 10
    ensures 1 <= p <= 10 ==> c == p
  {
    if p > 10 then 10 else if p < 1 then 1 else p
  }

  /** The priority a row gets: 5 when it is missing or does not parse, then
      clamped into [1, 10]. */
  function PriorityOf(data: map<string, Json>, p: Parsers): int {
    Clamp(AsInt(Get(data, "priority", JNumber(5.0)), p).GetOr(DefaultPriority))
  }

  /** The row's cpu, memory and duration parse, and together with its
      priority they are what the `Workload` constructor accepts. */
  predicate Accepts(data: map<string, Json>, p: Parsers) {
    var cpu := AsFloat(Get(data, "cpu", JNumber(0.0)), p);
    var memory := AsFloat(Get(data, "memory", JNumber(0.0)), p);
    var duration := AsFloat(Get(data, "duration", JNumber(0.0)), p);
    cpu.Some? && memory.Some? && duration.Some?
    && FieldsInRange(cpu.value, memory.value, duration.value, PriorityOf(data, p))
  }

  /** `validate_workload_data`: the workload gets the id `id` and arrives
      `now`, so its deadline is 24 hours later. */
  function Validate(data: map<string, Json>, p: Parsers, id: string, now: real): (r: Result<Workload, UploadError>)
    ensures r.Ok? <==> Accepts(data, p)
    ensures r.Ok? ==> r.value.Valid() && r.value.id == id && r.value.priority == PriorityOf(data, p)
                      && r.value.arrivalTime == now && r.value.deadline == now + 24.0
    ensures r.Ok? ==> Some(r.value.cpu) == AsFloat(Get(data, "cpu", JNumber(0.0)), p)
                      && Some(r.value.memory) == AsFloat(Get(data, "memory", JNumber(0.0)), p)
                      && Some(r.value.duration) == AsFloat(Get(data, "duration", JNumber(0.0)), p)
  {
    var cpuV := Get(data, "cpu", JNumber(0.0));
    var memoryV := Get(data, "memory", JNumber(0.0));
    var durationV := Get(data, "duration", JNumber(0.0));
    match (AsFloat(cpuV, p), AsFloat(memoryV, p), AsFloat(durationV, p))
    case (None, _, _) => Err(BadCpu(cpuV))
    case (Some(_), None, _) => Err(BadMemory(memoryV))
    case (Some(_), Some(_), None) => Err(BadDuration(durationV))
    case (Some(cpu), Some(memory), Some(duration)) =>
      if cpu <= 0.0 || cpu > 64.0 then Err(CpuRange(cpu))
      else if memory <= 0.0 || memory > 256.0 then Err(MemoryRange(memory))
      else if duration <= 0.0 || duration > 168.0 then Err(DurationRange(duration))
      else
        var built := NewWorkload(id, cpu, memory, duration, PriorityOf(data, p), None, None, now);
        Ok(built.value)
  }

  /** A row without cpu, memory or duration is rejected: the missing value
      counts as 0. */
  lemma MissingFieldIsRejected(data: map<string, Json>, p: Parsers, id: string, now: real)
    requires "cpu" !in data || "memory" !in data || "duration" !in data
    ensures Validate(data, p, id, now).Err?
  {
  }

  /** The priority never decides acceptance: whatever it holds, the row is
      accepted exactly when it is accepted without one. */
  lemma PriorityNeverRejects(data: map<string, Json>, v: Json, p: Parsers, id: string, now: real)
    ensures Validate(data["priority" := v], p, id, now).Ok? <==> Validate(data - {"priority"}, p, id, now).Ok?
    ensures AsInt(v, p).None? && Validate(data["priority" := v], p, id, now).Ok? ==>
              Validate(data["priority" := v], p, id, now).value.priority == 5
  {
    assert Get(data["priority" := v], "cpu", JNumber(0.0)) == Get(data - {"priority"}, "cpu", JNumber(0.0));
    assert Get(data["priority" := v], "memory", JNumber(0.0)) == Get(data - {"priority"}, "memory", JNumber(0.0));
    assert Get(data["priority" := v], "duration", JNumber(0.0)) == Get(data - {"priority"}, "duration", JNumber(0.0));
  }

  /** A workload serialised by `to_dict` validates back to itself, up to
      the fresh id and arrival the upload gives it. */
  lemma ToDictRowValidates(w: Workload, p: Parsers, id: string, now: real)
    requires w.Valid()
    ensures var row := map["cpu" := JNumber(w.cpu), "memory" := JNumber(w.memory),
                           "duration" := JNumber(w.duration), "priority" := JNumber(w.priority as real)];
            Validate(row, p, id, now) == Ok(w.(id := id, arrivalTime := now, deadline := now + 24.0))
  {
    assert Trunc(w.priority as real) == w.priority;
  }

  // ----- parse_json -----

  /** Why an upload fails as a whole. */
  datatype UploadFailure =
    | NotAListOrWorkloads       // the ValueError of `parse_json`
    | NotIterable               // iterating a number, a boolean or null
    | RowNotAnObject(row: nat)  // `.get` on a row that is not a dictionary
    | NoValidWorkloads(details: seq<RowError>)

  /** `parse_json` on the decoded document. */
  function ParseJson(data: Json): (r: Result<Json, UploadFailure>)
    ensures r.Ok? <==> data.JArray? || (data.JObject? && "workloads" in data.fields)
    ensures data.JArray? ==> r == Ok(data)
    ensures data.JObject? && "workloads" in data.fields ==> r == Ok(data.fields["workloads"])
  {
    match data
    case JArray(_) => Ok(data)
    case JObject(f) => if "workloads" in f then Ok(f["workloads"]) else Err(NotAListOrWorkloads)
    case _ => Err(NotAListOrWorkloads)
  }

  /** Wrapping a list as `{"workloads": [...]}` changes nothing. */
  lemma WrappedListParsesAlike(items: seq<Json>, extra: map<string, Json>)
    ensures ParseJson(JObject(extra["workloads" := JArray(items)])) == ParseJson(JArray(items))
  {
  }

  /** What `for i, data in enumerate(workloads_data)` iterates over. A
      non-empty string or dictionary yields strings, so its first row fails
      with no `.get`; an empty one yields no rows. */
  function Rows(v: Json): (r: Result<seq<Json>, UploadFailure>)
    ensures v.JArray? ==> r == Ok(v.items)
    ensures (v.JString? && v.s == []) || (v.JObject? && v.fields == map[]) ==> r == Ok([])
    ensures (v.JString? && v.s != []) || (v.JObject? && v.fields != map[]) ==> r == Err(RowNotAnObject(1))
    ensures r == Err(NotIterable) <==> v.JNull? || v.JBool? || v.JNumber?
  {
    match v
    case JArray(items) => Ok(items)
    case JString(s) => if s == [] then Ok([]) else Err(RowNotAnObject(1))
    case JObject(f) => if f == map[] then Ok([]) else Err(RowNotAnObject(1))
    case _ => Err(NotIterable)
  }

  // ----- the row loop of parse_workloads -----

  /** A rejected row: its 1-based number and the reason. */
  datatype RowError = RowError(row: nat, error: UploadError)

  datatype Parsed = Parsed(workloads: seq<Workload>, errors: seq<RowError>)

  /** The loop over the rows; row `i` gets the id `ids(i)`. */
  function Partition(items: seq<Json>, p: Parsers, ids: nat -> string, now: real): (r: Result<Parsed, UploadFailure>)
    ensures r.Ok? ==> |r.value.workloads| + |r.value.errors| == |items|
    ensures r.Err? ==> r.error.RowNotAnObject? && 1 <= r.error.row <= |items|
  {
    if items == [] then Ok(Parsed([], []))
    else
      var k := |items| - 1;
      match Partition(items[..k], p, ids, now)
      case Err(f) => Err(f)
      case Ok(prev) =>
        match items[k]
        case JObject(data) =>
          (match Validate(data, p, ids(k), now)
           case Ok(w) => Ok(Parsed(prev.workloads + [w], prev.errors))
           case Err(e) => Ok(Parsed(prev.workloads, prev.errors + [RowError(k + 1, e)])))
        case _ => Err(RowNotAnObject(k + 1))
  }

  /** The row loop followed by the "no valid workloads" check. */
  function ParseRows(items: seq<Json>, p: Parsers, ids: nat -> string, now: real): (r: Result<Parsed, UploadFailure>)
    ensures r.Ok? ==> r.value.workloads != [] && |r.value.workloads| + |r.value.errors| == |items|
    ensures r.Err? && r.error.NoValidWorkloads? ==> |r.error.details| == |items|
    ensures r.Err? && !r.error.NoValidWorkloads? ==> r.error.RowNotAnObject? && 1 <= r.error.row <= |items|
  {
    match Partition(items, p, ids, now)
    case Err(f) => Err(f)
    case Ok(u) => if u.workloads == [] then Err(NoValidWorkloads(u.errors)) else Ok(u)
  }

  /** The 0-based positions of the rows that are dictionaries and validate. */
  function ValidRows(items: seq<Json>, p: Parsers, ids: nat -> string, now: real): (q: seq<nat>)
    ensures forall j :: 0 <= j < |q| ==> q[j] < |items|
  {
    if items == [] then []
    else
      var k := |items| - 1;
      ValidRows(items[..k], p, ids, now)
        + (if items[k].JObject? && Validate(items[k].fields, p, ids(k), now).Ok? then [k] else [])
  }

  /** The j-th workload is the one the j-th validating row gives, in row
      order. */
  ghost predicate FromValidRows(ws: seq<Workload>, q: seq<nat>, items: seq<Json>, p: Parsers, ids: nat -> string, now: real) {
    && |q| == |ws|
    && (forall j :: 0 <= j < |q| ==>
          q[j] < |items| && items[q[j]].JObject? && Validate(items[q[j]].fields, p, ids(q[j]), now) == Ok(ws[j]))
    && (forall j, l :: 0 <= j < l < |q| ==> q[j] < q[l])
  }

  /** Each error is numbered with its 1-based row, the numbers increase, and
      each is the error its row raised. */
  ghost predicate FromRejectedRows(errors: seq<RowError>, items: seq<Json>, p: Parsers, ids: nat -> string, now: real) {
    && (forall j :: 0 <= j < |errors| ==>
          1 <= errors[j].row <= |items| && items[errors[j].row - 1].JObject?
          && Validate(items[errors[j].row - 1].fields, p, ids(errors[j].row - 1), now) == Err(errors[j].error))
    && (forall j, l :: 0 <= j < l < |errors| ==> errors[j].row < errors[l].row)
  }

  /** Every row index is a validating row or has an error. */
  ghost predicate EveryRowCovered(q: seq<nat>, errors: seq<RowError>, n: nat) {
    forall i :: 0 <= i < n ==> i in q || exists l :: 0 <= l < |errors| && errors[l].row == i + 1
  }

  /** Every row is accounted for: the workloads come from the validating
      rows, the errors from the rejected ones, and every row is one or the
      other. */
  ghost predicate AccountsFor(u: Parsed, items: seq<Json>, p: Parsers, ids: nat -> string, now: real) {
    var q := ValidRows(items, p, ids, now);
    && |u.workloads| + |u.errors| == |items|
    && FromValidRows(u.workloads, q, items, p, ids, now)
    && FromRejectedRows(u.errors, items, p, ids, now)
    && EveryRowCovered(q, u.errors, |items|)
    && (forall w :: w in u.workloads ==> w.Valid())
  }

  /** The loop fails exactly when some row is not a dictionary, and then
      with the number of the first such row. */
  lemma {:induction false} PartitionFailsOnNonObjects(items: seq<Json>, p: Parsers, ids: nat -> string, now: real)
    ensures Partition(items, p, ids, now).Ok? <==> forall i :: 0 <= i < |items| ==> items[i].JObject?
    ensures Partition(items, p, ids, now).Err? ==>
              exists r: nat :: Partition(items, p, ids, now) == Err(RowNotAnObject(r)) && 1 <= r <= |items|
                               && !items[r - 1].JObject? && forall i :: 0 <= i < r - 1 ==> items[i].JObject?
  {
    if items != [] {
      var k := |items| - 1;
      var init := items[..k];
      PartitionFailsOnNonObjects(init, p, ids, now);
      assert forall i :: 0 <= i < k ==> init[i] == items[i];
      if Partition(init, p, ids, now).Err? {
        var r: nat :| Partition(init, p, ids, now) == Err(RowNotAnObject(r)) && 1 <= r <= k
                      && !init[r - 1].JObject? && forall i :: 0 <= i < r - 1 ==> init[i].JObject?;
        assert !items[r - 1].JObject?;
      } else if !items[k].JObject? {
        assert Partition(items, p, ids, now) == Err(RowNotAnObject(k + 1));
      }
    }
  }

  /** The rows before the last one read the same in the shorter list. */
  lemma ValidRowsOfPrefix(items: seq<Json>, p: Parsers, ids: nat -> string, now: real)
    requires items != []
    ensures var k := |items| - 1;
            var q0 := ValidRows(items[..k], p, ids, now);
            && (forall j :: 0 <= j < |q0| ==> q0[j] < k && items[..k][q0[j]] == items[q0[j]])
            && ValidRows(items, p, ids, now)
               == q0 + (if items[k].JObject? && Validate(items[k].fields, p, ids(k), now).Ok? then [k] else [])
  {
  }

  /** The errors of the shorter list are errors of the longer one. */
  lemma RejectedRowsOnLongerList(errors: seq<RowError>, items: seq<Json>, p: Parsers, ids: nat -> string, now: real)
    requires items != [] && FromRejectedRows(errors, items[..|items| - 1], p, ids, now)
    ensures FromRejectedRows(errors, items, p, ids, now)
    ensures forall j :: 0 <= j < |errors| ==> errors[j].row < |items|
  {
    var k := |items| - 1;
    forall j | 0 <= j < |errors| ensures items[errors[j].row - 1] == items[..k][errors[j].row - 1] {
    }
  }

  /** A last row that validates adds its workload and keeps every row
      accounted for. */
  lemma AccountsForValidRow(prev: Parsed, items: seq<Json>, w: Workload, p: Parsers, ids: nat -> string, now: real)
    requires items != [] && items[|items| - 1].JObject?
    requires Validate(items[|items| - 1].fields, p, ids(|items| - 1), now) == Ok(w)
    requires AccountsFor(prev, items[..|items| - 1], p, ids, now)
    ensures AccountsFor(Parsed(prev.workloads + [w], prev.errors), items, p, ids, now)
  {
    var k := |items| - 1;
    ValidRowsOfPrefix(items, p, ids, now);
    var q0 := ValidRows(items[..k], p, ids, now);
    var q := ValidRows(items, p, ids, now);
    assert q == q0 + [k];
    var ws := prev.workloads + [w];
    assert FromValidRows(ws, q, items, p, ids, now) by {
      forall j | 0 <= j < |q|
        ensures q[j] < |items| && items[q[j]].JObject? && Validate(items[q[j]].fields, p, ids(q[j]), now) == Ok(ws[j])
      {
        if j < |q0| {
          assert q[j] == q0[j] && ws[j] == prev.workloads[j];
        }
      }
    }
    RejectedRowsOnLongerList(prev.errors, items, p, ids, now);
    assert EveryRowCovered(q, prev.errors, |items|) by {
      forall i | 0 <= i < |items| ensures i in q || exists l :: 0 <= l < |prev.errors| && prev.errors[l].row == i + 1 {
        if i < k && i in q0 {
          assert i in q;
        }
      }
    }
  }

  /** The last row's error, appended behind the earlier rows' errors. */
  lemma RejectedRowsAppend(errors: seq<RowError>, items: seq<Json>, e: UploadError, p: Parsers, ids: nat -> string, now: real)
    requires items != [] && items[|items| - 1].JObject?
    requires Validate(items[|items| - 1].fields, p, ids(|items| - 1), now) == Err(e)
    requires FromRejectedRows(errors, items, p, ids, now)
    requires forall j :: 0 <= j < |errors| ==> errors[j].row < |items|
    ensures FromRejectedRows(errors + [RowError(|items|, e)], items, p, ids, now)
  {
    var all := errors + [RowError(|items|, e)];
    forall j | 0 <= j < |all|
      ensures 1 <= all[j].row <= |items| && items[all[j].row - 1].JObject?
              && Validate(items[all[j].row - 1].fields, p, ids(all[j].row - 1), now) == Err(all[j].error)
    {
      if j < |errors| {
        assert all[j] == errors[j];
      }
    }
  }

  /** A last row that is rejected adds its error, numbered k + 1, and keeps
      every row accounted for. */
  lemma AccountsForRejectedRow(prev: Parsed, items: seq<Json>, e: UploadError, p: Parsers, ids: nat -> string, now: real)
    requires items != [] && items[|items| - 1].JObject?
    requires Validate(items[|items| - 1].fields, p, ids(|items| - 1), now) == Err(e)
    requires AccountsFor(prev, items[..|items| - 1], p, ids, now)
    ensures AccountsFor(Parsed(prev.workloads, prev.errors + [RowError(|items|, e)]), items, p, ids, now)
  {
    var k := |items| - 1;
    ValidRowsOfPrefix(items, p, ids, now);
    var q0 := ValidRows(items[..k], p, ids, now);
    var q := ValidRows(items, p, ids, now);
    assert q == q0;
    assert FromValidRows(prev.workloads, q, items, p, ids, now) by {
      forall j | 0 <= j < |q| ensures items[q[j]] == items[..k][q[j]] {
      }
    }
    RejectedRowsOnLongerList(prev.errors, items, p, ids, now);
    var errors := prev.errors + [RowError(|items|, e)];
    RejectedRowsAppend(prev.errors, items, e, p, ids, now);
    assert EveryRowCovered(q, errors, |items|) by {
      forall i | 0 <= i < |items| ensures i in q || exists l :: 0 <= l < |errors| && errors[l].row == i + 1 {
        if i == k {
          assert errors[|prev.errors|].row == i + 1;
        } else if i !in q0 {
          var l :| 0 <= l < |prev.errors| && prev.errors[l].row == i + 1;
          assert errors[l].row == i + 1;
        }
      }
    }
  }

  /** Every row is accounted for when the loop gets through. */
  lemma {:induction false} PartitionAccountsForEveryRow(items: seq<Json>, p: Parsers, ids: nat -> string, now: real)
    requires Partition(items, p, ids, now).Ok?
    ensures AccountsFor(Partition(items, p, ids, now).value, items, p, ids, now)
  {
    if items != [] {
      var k := |items| - 1;
      PartitionFailsOnNonObjects(items, p, ids, now);
      PartitionFailsOnNonObjects(items[..k], p, ids, now);
      PartitionAccountsForEveryRow(items[..k], p, ids, now);
      var prev := Partition(items[..k], p, ids, now).value;
      match Validate(items[k].fields, p, ids(k), now)
      case Ok(w) => AccountsForValidRow(prev, items, w, p, ids, now);
      case Err(e) => AccountsForRejectedRow(prev, items, e, p, ids, now);
    }
  }

  /** The parse fails for want of valid rows exactly when every row is a
      dictionary and none of them validates. */
  lemma NoValidWorkloadsMeansAllRejected(items: seq<Json>, p: Parsers, ids: nat -> string, now: real)
    requires ParseRows(items, p, ids, now).Err? && ParseRows(items, p, ids, now).error.NoValidWorkloads?
    ensures |ParseRows(items, p, ids, now).error.details| == |items|
    ensures forall i :: 0 <= i < |items| ==> items[i].JObject?
  {
    PartitionFailsOnNonObjects(items, p, ids, now);
    PartitionAccountsForEveryRow(items, p, ids, now);
  }

  /** The loop of `parse_workloads`, then its "no valid workloads" check. */
  method ParseWorkloads(items: seq<Json>, p: Parsers, ids: nat -> string, now: real) returns (r: Result<Parsed, UploadFailure>)
    ensures r == ParseRows(items, p, ids, now)
  {
    var workloads: seq<Workload> := [];
    var errors: seq<RowError> := [];
    for i := 0 to |items|
      invariant Partition(items[..i], p, ids, now) == Ok(Parsed(workloads, errors))
    {
      assert items[..i + 1][..i] == items[..i];
      if !items[i].JObject? {
        assert Partition(items[..i + 1], p, ids, now) == Err(RowNotAnObject(i + 1));
        PartitionStaysFailed(items, i + 1, p, ids, now);
        return Err(RowNotAnObject(i + 1));
      }
      var v := Validate(items[i].fields, p, ids(i), now);
      if v.Ok? {
        workloads := workloads + [v.value];
      } else {
        errors := errors + [RowError(i + 1, v.error)];
      }
    }
    assert items[..|items|] == items;
    if workloads == [] {
      return Err(NoValidWorkloads(errors));
    }
    r := Ok(Parsed(workloads, errors));
  }

  /** Once a row has failed, the whole loop has failed the same way. */
  lemma {:induction false} PartitionStaysFailed(items: seq<Json>, n: nat, p: Parsers, ids: nat -> string, now: real)
    requires n <= |items| && Partition(items[..n], p, ids, now).Err?
    ensures Partition(items, p, ids, now) == Partition(items[..n], p, ids, now)
    decreases |items| - n
  {
    if n < |items| {
      assert items[..n + 1][..n] == items[..n];
      PartitionStaysFailed(items, n + 1, p, ids, now);
    } else {
      assert items[..n] == items;
    }
  }

  // ----- parse_csv -----

  /** `str.lower()` on ASCII letters. */
  function Lower(c: char): char {
    if 'A' <= c <= 'Z' then (c as int + 32) as char else c
  }

  function LowerAll(s: string): (r: string)
    ensures |r| == |s|
    ensures forall i :: 0 <= i < |s| ==> r[i] == Lower(s[i])
  {
    seq(|s|, i requires 0 <= i < |s| => Lower(s[i]))
  }

  /** `t in s` on strings. */
  function Occurs(t: string, s: string): bool
    decreases |s|
  {
    |t| <= |s| && (s[..|t|] == t || Occurs(t, s[1..]))
  }

  /** The window of `s` at `i` spells `t`. */
  ghost predicate WindowAt(t: string, s: string, i: int) {
    0 <= i && i + |t| <= |s| && s[i..i + |t|] == t
  }

  /** `t` occurs in `s` exactly when some window of `s` spells `t`. */
  lemma {:induction false} OccursIffWindow(t: string, s: string)
    ensures Occurs(t, s) <==> exists i :: WindowAt(t, s, i)
    decreases |s|
  {
    if |t| <= |s| && s[..|t|] == t {
      assert WindowAt(t, s, 0);
    } else if |t| <= |s| {
      OccursIffWindow(t, s[1..]);
      if exists i :: WindowAt(t, s, i) {
        var i :| WindowAt(t, s, i);
        assert i != 0;
        assert s[1..][i - 1..i - 1 + |t|] == s[i..i + |t|];
        assert WindowAt(t, s[1..], i - 1);
      }
      if Occurs(t, s[1..]) {
        var i :| WindowAt(t, s[1..], i);
        assert s[1..][i..i + |t|] == s[i + 1..i + 1 + |t|];
        assert WindowAt(t, s, i + 1);
      }
    }
  }

  /** How much of the file the header test looks at. */
  const HeaderSample: nat := 1000

  /** `t` is spelled, in lower case, by the characters of `content` from
      `i` on, and ends within the first 1000 characters. */
  ghost predicate SpelledInSample(t: string, content: string, i: int) {
    WindowAt(t, LowerAll(content), i) && i + |t| <= HeaderSample
  }

  /** The first row is a header when 'cpu' or 'memory' occurs, in any case, in
      the first 1000 characters. */
  function HasHeader(content: string): (r: bool)
    ensures r <==> exists i :: SpelledInSample("cpu", content, i) || SpelledInSample("memory", content, i)
  {
    var m := if |content| < HeaderSample then |content| else HeaderSample;
    var sample := LowerAll(content[..m]);
    SampleWindows("cpu", content, m);
    SampleWindows("memory", content, m);
    Occurs("cpu", sample) || Occurs("memory", sample)
  }

  /** A word occurs in the lowered sample exactly where it is spelled within
      the first 1000 characters of the lowered content. */
  lemma SampleWindows(t: string, content: string, m: nat)
    requires m == if |content| < HeaderSample then |content| else HeaderSample
    ensures Occurs(t, LowerAll(content[..m])) <==> exists i :: SpelledInSample(t, content, i)
  {
    var s := LowerAll(content[..m]);
    OccursIffWindow(t, s);
    assert s == LowerAll(content)[..m];
    forall i ensures WindowAt(t, s, i) <==> SpelledInSample(t, content, i) {
      if 0 <= i && i + |t| <= m {
        assert s[i..i + |t|] == LowerAll(content)[i..i + |t|];
      }
    }
  }

  /** Only the first 1000 characters count, and their case does not. */
  lemma HeaderLooksOnlyAtSample(content: string, rest: string)
    requires |content| >= HeaderSample
    ensures HasHeader(content + rest) == HasHeader(content)
    ensures HasHeader(LowerAll(content)) == HasHeader(content)
  {
    assert (content + rest)[..HeaderSample] == content[..HeaderSample];
    assert LowerAll(LowerAll(content)[..HeaderSample]) == LowerAll(content[..HeaderSample]);
  }

  /** Python's whitespace for `str.strip()` within Latin-1. */
  predicate IsSpace(c: char) {
    c == ' ' || '\t' <= c <= '\r' || '\U{1C}' <= c <= '\U{1F}' || c == '\U{85}' || c == '\U{A0}'
  }

  function StripStart(s: string): string {
    if s != [] && IsSpace(s[0]) then StripStart(s[1..]) else s
  }

  function StripEnd(s: string): string {
    if s != [] && IsSpace(s[|s| - 1]) then StripEnd(s[..|s| - 1]) else s
  }

  /** `str.strip()`. */
  function Strip(s: string): string {
    StripEnd(StripStart(s))
  }

  /** `StripStart` drops exactly the leading whitespace. */
  lemma {:induction false} StripStartDropsLeadingSpace(s: string)
    ensures |StripStart(s)| <= |s| && StripStart(s) == s[|s| - |StripStart(s)|..]
    ensures forall i :: 0 <= i < |s| - |StripStart(s)| ==> IsSpace(s[i])
    ensures StripStart(s) == [] || !IsSpace(StripStart(s)[0])
  {
    if s != [] && IsSpace(s[0]) {
      StripStartDropsLeadingSpace(s[1..]);
      forall i | 0 <= i < |s| - |StripStart(s)| ensures IsSpace(s[i]) {
        if i > 0 {
          assert s[1..][i - 1] == s[i];
        }
      }
    }
  }

  /** `StripEnd` drops exactly the trailing whitespace. */
  lemma {:induction false} StripEndDropsTrailingSpace(s: string)
    ensures |StripEnd(s)| <= |s| && StripEnd(s) == s[..|StripEnd(s)|]
    ensures forall i :: |StripEnd(s)| <= i < |s| ==> IsSpace(s[i])
    ensures StripEnd(s) == [] || !IsSpace(StripEnd(s)[|StripEnd(s)| - 1])
  {
    if s != [] && IsSpace(s[|s| - 1]) {
      StripEndDropsTrailingSpace(s[..|s| - 1]);
      forall i | |StripEnd(s)| <= i < |s| ensures IsSpace(s[i]) {
        if i < |s| - 1 {
          assert s[..|s| - 1][i] == s[i];
        }
      }
    }
  }

  /** `Strip(s)` is the slice `s[a..b]` that is left when all leading and
      trailing whitespace is cut: everything cut is whitespace, and what is
      left neither starts nor ends with whitespace. */
  lemma StripCutsOnlySpace(s: string)
    ensures exists a, b :: 0 <= a <= b <= |s| && Strip(s) == s[a..b]
              && (forall i :: 0 <= i < a ==> IsSpace(s[i]))
              && (forall i :: b <= i < |s| ==> IsSpace(s[i]))
    ensures Strip(s) == [] || (!IsSpace(Strip(s)[0]) && !IsSpace(Strip(s)[|Strip(s)| - 1]))
  {
    var t := StripStart(s);
    StripStartDropsLeadingSpace(s);
    StripEndDropsTrailingSpace(t);
    var a := |s| - |t|;
    var b := a + |StripEnd(t)|;
    assert Strip(s) == s[a..b];
    forall i | b <= i < |s| ensures IsSpace(s[i]) {
      assert t[i - a] == s[i];
    }
    if Strip(s) != [] {
      assert Strip(s)[0] == t[0];
    }
  }

  /** A headerless row with at least three fields, mapped by position. */
  function RowOf(row: seq<string>): map<string, Json>
    requires |row| >= 3
  {
    map["cpu" := JString(Strip(row[0])), "memory" := JString(Strip(row[1])),
        "duration" := JString(Strip(row[2])), "priority" := JString(if |row| > 3 then Strip(row[3]) else "5")]
  }

  /** The rows of a headerless file: rows with fewer than three fields are
      dropped, the others mapped by position, in file order. */
  function HeaderlessRows(rows: seq<seq<string>>): (r: seq<map<string, Json>>)
    ensures |r| <= |rows|
  {
    if rows == [] then []
    else
      var k := |rows| - 1;
      HeaderlessRows(rows[..k]) + (if |rows[k]| >= 3 then [RowOf(rows[k])] else [])
  }

  /** Every row with at least three fields is kept. */
  lemma {:induction false} HeaderlessKeepsWideRows(rows: seq<seq<string>>)
    ensures forall i :: 0 <= i < |rows| && |rows[i]| >= 3 ==> RowOf(rows[i]) in HeaderlessRows(rows)
  {
    if rows != [] {
      var k := |rows| - 1;
      HeaderlessKeepsWideRows(rows[..k]);
      forall i | 0 <= i < |rows| && |rows[i]| >= 3 ensures RowOf(rows[i]) in HeaderlessRows(rows) {
        if i < k {
          assert rows[..k][i] == rows[i];
        }
      }
    }
  }

  /** The positions of the rows with at least three fields. */
  function WidePositions(rows: seq<seq<string>>): seq<nat> {
    if rows == [] then []
    else
      var k := |rows| - 1;
      WidePositions(rows[..k]) + (if |rows[k]| >= 3 then [k] else [])
  }

  /** The kept rows are the positional maps of the rows with at least three
      fields, in file order. */
  lemma {:induction false} HeaderlessKeepsOnlyWideRows(rows: seq<seq<string>>)
    ensures |WidePositions(rows)| == |HeaderlessRows(rows)|
    ensures forall j :: 0 <= j < |WidePositions(rows)| ==>
              WidePositions(rows)[j] < |rows| && |rows[WidePositions(rows)[j]]| >= 3
              && HeaderlessRows(rows)[j] == RowOf(rows[WidePositions(rows)[j]])
    ensures forall j, l :: 0 <= j < l < |WidePositions(rows)| ==> WidePositions(rows)[j] < WidePositions(rows)[l]
  {
    if rows != [] {
      var k := |rows| - 1;
      HeaderlessKeepsOnlyWideRows(rows[..k]);
      var w, h := WidePositions(rows[..k]), HeaderlessRows(rows[..k]);
      var tail := if |rows[k]| >= 3 then [RowOf(rows[k])] else [];
      assert HeaderlessRows(rows) == h + tail;
      assert WidePositions(rows) == w + (if |rows[k]| >= 3 then [k] else []);
      forall j | 0 <= j < |WidePositions(rows)|
        ensures WidePositions(rows)[j] < |rows| && |rows[WidePositions(rows)[j]]| >= 3
        ensures HeaderlessRows(rows)[j] == RowOf(rows[WidePositions(rows)[j]])
      {
        if j < |w| {
          assert rows[..k][w[j]] == rows[w[j]];
          assert (h + tail)[j] == h[j];
        }
      }
    }
  }

  /** A three-field row validates with priority 5. */
  lemma ThreeFieldRowGetsPriorityFive(row: seq<string>, p: Parsers, id: string, now: real)
    requires |row| == 3 && p.toInt("5") == Some(5)
    ensures Validate(RowOf(row), p, id, now).Ok? ==> Validate(RowOf(row), p, id, now).value.priority == 5
  {
  }

  /** The headerless branch of `parse_csv`. */
  method ParseHeaderlessCsv(rows: seq<seq<string>>) returns (workloads: seq<map<string, Json>>)
    ensures workloads == HeaderlessRows(rows)
  {
    workloads := [];
    for k := 0 to |rows|
      invariant workloads == HeaderlessRows(rows[..k])
    {
      assert rows[..k + 1][..k] == rows[..k];
      if |rows[k]| >= 3 {
        workloads := workloads + [RowOf(rows[k])];
      }
    }
    assert rows[..|rows|] == rows;
  }
}
