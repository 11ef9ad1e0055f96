/** Datacenters (backend/models/datacenter.py): a small capacity ledger per
    site. Totals and tariffs never change after construction; the available
    cpu and memory are the fields `allocate`, `release` and `reset_capacity`
    update in place. */
module Datacenters {
  import opened Wrappers

  /** The state of one datacenter as a value. */
  datatype DcView = DcView(
    id: string,
    totalCpu: real,
    totalMemory: real,
    costPerCoreHour: real,
    availableCpu: real,
    availableMemory: real)

  /** Available capacity lies between zero and the total. */
  predicate WithinTotals(v: DcView) {
    0.0 <= v.availableCpu <= v.totalCpu && 0.0 <= v.availableMemory <= v.totalMemory
  }

  /** `can_accommodate`: enough cpu AND enough memory is available. */
  predicate Fits(v: DcView, cpu: real, memory: real) {
    v.availableCpu >= cpu && v.availableMemory >= memory
  }

  /** `allocate` on a value: the flag it returns and the new state. */
  function AllocateView(v: DcView, cpu: real, memory: real): (r: (bool, DcView))
    ensures r.0 <==> Fits(v, cpu, memory)
    ensures !r.0 ==> r.1 == v
    ensures r.0 ==> r.1.availableCpu == v.availableCpu - cpu && r.1.availableMemory == v.availableMemory - memory
    ensures r.1.id == v.id && r.1.totalCpu == v.totalCpu && r.1.totalMemory == v.totalMemory
    ensures r.1.costPerCoreHour == v.costPerCoreHour
    ensures WithinTotals(v) && cpu >= 0.0 && memory >= 0.0 ==> WithinTotals(r.1)
  {
    if !Fits(v, cpu, memory) then (false, v)
    else (true, v.(availableCpu := v.availableCpu - cpu, availableMemory := v.availableMemory - memory))
  }

  /** `(total - available) / total * 100`; `None` where Python divides by zero. */
  function Utilization(total: real, available: real): (u: Option<real>)
    ensures u.None? <==> total == 0.0
    ensures total > 0.0 && 0.0 <= available <= total ==> u.Some? && 0.0 <= u.value <= 100.0
    ensures total > 0.0 && available == total ==> u == Some(0.0)
    ensures total > 0.0 && available == 0.0 ==> u == Some(100.0)
  {
    if total == 0.0 then None
    else
      var used := total - available;
      FractionBounds(used, total);
      Some(used / total * 100.0)
  }

  lemma FractionBounds(part: real, whole: real)
    requires whole != 0.0
    ensures (part / whole) * whole == part
    ensures whole > 0.0 && 0.0 <= part <= whole ==> 0.0 <= part / whole <= 1.0
    ensures whole > 0.0 && part == whole ==> part / whole == 1.0
  {
  }

  class Datacenter {
    const id: string
    const name: string
    const location: string
    const regionCode: string
    const totalCpu: real
    const totalMemory: real
    const costPerCoreHour: real
    var availableCpu: real
    var availableMemory: real

    /** The dataclass constructor: available cpu or memory not supplied starts
        at its total. */
    constructor (id: string, name: string, location: string, regionCode: string,
                 totalCpu: real, totalMemory: real, costPerCoreHour: real,
                 availableCpu: Option<real>, availableMemory: Option<real>)
      ensures this.id == id && this.name == name && this.location == location
      ensures this.regionCode == regionCode && this.costPerCoreHour == costPerCoreHour
      ensures this.totalCpu == totalCpu && this.totalMemory == totalMemory
      ensures this.availableCpu == availableCpu.GetOr(totalCpu)
      ensures this.availableMemory == availableMemory.GetOr(totalMemory)
    {
      this.id := id;
      this.name := name;
      this.location := location;
      this.regionCode := regionCode;
      this.totalCpu := totalCpu;
      this.totalMemory := totalMemory;
      this.costPerCoreHour := costPerCoreHour;
      this.availableCpu := availableCpu.GetOr(totalCpu);
      this.availableMemory := availableMemory.GetOr(totalMemory);
    }

    function View(): DcView
      reads this
    {
      DcView(id, totalCpu, totalMemory, costPerCoreHour, availableCpu, availableMemory)
    }

    predicate CanAccommodate(cpu: real, memory: real)
      reads this
    {
      Fits(View(), cpu, memory)
    }

    /** Takes (cpu, memory) when both fit and reports whether it did; changes
        nothing when they do not. */
    method Allocate(cpu: real, memory: real) returns (ok: bool)
      modifies this
      ensures ok == old(CanAccommodate(cpu, memory))
      ensures (ok, View()) == AllocateView(old(View()), cpu, memory)
      ensures old(WithinTotals(View())) && cpu >= 0.0 && memory >= 0.0 ==> WithinTotals(View())
    {
      if !CanAccommodate(cpu, memory) {
        return false;
      }
      availableCpu := availableCpu - cpu;
      availableMemory := availableMemory - memory;
      return true;
    }

    /** Gives capacity back, never above the totals. */
    method Release(cpu: real, memory: real)
      modifies this
      ensures availableCpu <= totalCpu && availableMemory <= totalMemory
      ensures availableCpu == (if old(availableCpu) + cpu < totalCpu then old(availableCpu) + cpu else totalCpu)
      ensures availableMemory == (if old(availableMemory) + memory < totalMemory then old(availableMemory) + memory else totalMemory)
    {
      availableCpu := if totalCpu < availableCpu + cpu then totalCpu else availableCpu + cpu;
      availableMemory := if totalMemory < availableMemory + memory then totalMemory else availableMemory + memory;
    }

    method ResetCapacity()
      modifies this
      ensures availableCpu == totalCpu && availableMemory == totalMemory
    {
      availableCpu := totalCpu;
      availableMemory := totalMemory;
    }

    function UtilizationCpu(): Option<real>
      reads this
    {
      Utilization(totalCpu, availableCpu)
    }

    function UtilizationMemory(): Option<real>
      reads this
    {
      Utilization(totalMemory, availableMemory)
    }
  }

  /** The views of a list of datacenters, in list order. */
  function Views(dcs: seq<Datacenter>): (vs: seq<DcView>)
    reads set d | d in dcs
    ensures |vs| == |dcs|
    ensures forall i :: 0 <= i < |dcs| ==> vs[i] == dcs[i].View()
  {
    if dcs == [] then [] else Views(dcs[..|dcs| - 1]) + [dcs[|dcs| - 1].View()]
  }

  /** No datacenter object occurs twice. */
  predicate Distinct(dcs: seq<Datacenter>) {
    forall i, j :: 0 <= i < j < |dcs| ==> dcs[i] != dcs[j]
  }

  /** `dcs[i].allocate(cpu, memory)` seen from the whole list: only entry `i`
      changes, and it changes as `AllocateView` says. */
  method AllocateAt(dcs: seq<Datacenter>, i: nat, cpu: real, memory: real) returns (ok: bool)
    requires i < |dcs| && Distinct(dcs)
    modifies dcs[i]
    ensures (ok, Views(dcs)[i]) == AllocateView(old(Views(dcs))[i], cpu, memory)
    ensures Views(dcs) == old(Views(dcs))[i := Views(dcs)[i]]
  {
    ghost var before := Views(dcs);
    ok := dcs[i].Allocate(cpu, memory);
    assert forall j :: 0 <= j < |dcs| && j != i ==> dcs[j].View() == before[j];
  }

  /** `copy.deepcopy(datacenters)` on a list of distinct objects: fresh
      objects with the same fields. */
  method CopyAll(dcs: seq<Datacenter>) returns (copies: seq<Datacenter>)
    requires Distinct(dcs)
    ensures Views(copies) == Views(dcs)
    ensures Distinct(copies)
    ensures forall i :: 0 <= i < |copies| ==> fresh(copies[i])
  {
    copies := [];
    for k := 0 to |dcs|
      invariant |copies| == k
      invariant forall i :: 0 <= i < k ==> copies[i].View() == dcs[i].View()
      invariant forall i :: 0 <= i < k ==> fresh(copies[i])
      invariant Distinct(copies)
    {
      var d := dcs[k];
      var c := new Datacenter(d.id, d.name, d.location, d.regionCode, d.totalCpu, d.totalMemory,
                              d.costPerCoreHour, Some(d.availableCpu), Some(d.availableMemory));
      copies := copies + [c];
    }
  }

  /** The ids of `DEFAULT_DATACENTERS`, in their list order. */
  const DefaultIds: seq<string> := ["UK-Wales", "UK-South", "UK-East", "UK-Midlands", "UK-North", "UK-Scotland"]

  /** The sites of `DEFAULT_DATACENTERS`, in list order, all free. */
  const DefaultSites: seq<DcView> := [
    DcView("UK-Wales", 200.0, 800.0, 0.044, 200.0, 800.0),
    DcView("UK-South", 200.0, 800.0, 0.055, 200.0, 800.0),
    DcView("UK-East", 200.0, 800.0, 0.050, 200.0, 800.0),
    DcView("UK-Midlands", 200.0, 800.0, 0.048, 200.0, 800.0),
    DcView("UK-North", 200.0, 800.0, 0.045, 200.0, 800.0),
    DcView("UK-Scotland", 200.0, 800.0, 0.042, 200.0, 800.0)]

  /** `DEFAULT_DATACENTERS`: six sites of 200 cores and 800 GB each, all
      free, in the order of `DefaultIds`. */
  method DefaultDatacenters() returns (dcs: seq<Datacenter>)
    ensures |dcs| == |DefaultSites| && Distinct(dcs)
    ensures forall i :: 0 <= i < |dcs| ==> fresh(dcs[i]) && dcs[i].View() == DefaultSites[i]
  {
    var wales := NewSite(DefaultSites[0], "UK Wales", "Cardiff, UK", "7");
    var south := NewSite(DefaultSites[1], "UK South", "London, UK", "13");
    var east := NewSite(DefaultSites[2], "UK East", "Cambridge, UK", "12");
    var midlands := NewSite(DefaultSites[3], "UK Midlands", "Birmingham, UK", "9");
    var north := NewSite(DefaultSites[4], "UK North", "Manchester, UK", "4");
    var scotland := NewSite(DefaultSites[5], "UK Scotland", "Edinburgh, UK", "2");
    dcs := [wales, south, east, midlands, north, scotland];
  }

  /** A datacenter object for site `v`, with its display fields. */
  method NewSite(v: DcView, name: string, location: string, regionCode: string) returns (d: Datacenter)
    requires v.availableCpu == v.totalCpu && v.availableMemory == v.totalMemory
    ensures fresh(d) && d.View() == v && d.name == name && d.location == location && d.regionCode == regionCode
  {
    d := new Datacenter(v.id, name, location, regionCode, v.totalCpu, v.totalMemory, v.costPerCoreHour, None, None);
  }

  /** The default sites carry the default ids, each at full capacity. */
  lemma DefaultSitesAreFree()
    ensures |DefaultSites| == |DefaultIds|
    ensures forall i :: 0 <= i < |DefaultSites| ==>
              DefaultSites[i].id == DefaultIds[i] && WithinTotals(DefaultSites[i])
              && DefaultSites[i].availableCpu == DefaultSites[i].totalCpu == 200.0
              && DefaultSites[i].availableMemory == DefaultSites[i].totalMemory == 800.0
  {
  }

  /** Allocating half of each resource of a fresh datacenter puts both
      utilisations at 50 percent. */
  lemma HalfAllocatedIsFifty(v: DcView)
    requires v.totalCpu > 0.0 && v.totalMemory > 0.0
    requires v.availableCpu == v.totalCpu && v.availableMemory == v.totalMemory
    ensures var r := AllocateView(v, v.totalCpu / 2.0, v.totalMemory / 2.0);
            r.0 && Utilization(r.1.totalCpu, r.1.availableCpu) == Some(50.0)
            && Utilization(r.1.totalMemory, r.1.availableMemory) == Some(50.0)
  {
    var r := AllocateView(v, v.totalCpu / 2.0, v.totalMemory / 2.0);
    assert (v.totalCpu - r.1.availableCpu) / v.totalCpu == 0.5;
    assert (v.totalMemory - r.1.availableMemory) / v.totalMemory == 0.5;
  }
}
