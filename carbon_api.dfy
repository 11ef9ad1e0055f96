/** CarbonAPIClient (backend/services/carbon_api.py): folds the UK Carbon
    Intensity API's regional readings into one reading per datacenter, drops
    datacenters below the low-carbon threshold (or floors all of them when too
    few would remain), scales the national forecast to each datacenter, and
    keeps the results in a time-to-live cache. The HTTP responses and the
    clock are parameters; dictionaries the source builds in insertion order
    are association lists (`Table`). */
module CarbonApi {
  import opened Wrappers
  import opened Readings
  import opened Dicts

  /** gCO2/kWh below which a datacenter is excluded. */
  const MinCarbonThreshold: real := 50.0
  /** With fewer survivors than this, every datacenter is kept and floored. */
  const MinSurvivors: nat := 3
  const DefaultIndex: string := "moderate"
  const DefaultTtlMinutes: int := 30

  /** `REGION_MAPPING`: the API's region ids onto the six datacenters. */
  const RegionMapping: map<string, string> := map[
    "1" := "UK-Scotland", "2" := "UK-Scotland",
    "3" := "UK-North", "4" := "UK-North", "5" := "UK-North",
    "6" := "UK-Midlands", "7" := "UK-Wales", "8" := "UK-Midlands", "9" := "UK-Midlands",
    "10" := "UK-East", "11" := "UK-South", "12" := "UK-East", "13" := "UK-South", "14" := "UK-South"]

  const RenewableFuels: seq<string> := ["wind", "solar", "hydro", "nuclear"]

  function Max(a: real, b: real): real { if a >= b then a else b }

  // ---------------------------------------------------------------------
  // Tables: a dict from datacenter id to its data, in insertion order
  // ---------------------------------------------------------------------

  datatype Site = Site(intensity: real, renewable: real, index: string)
  datatype Entry = Entry(dc: string, site: Site)
  type Table = seq<Entry>

  /** The keys of a table, in insertion order. */
  function Dcs(t: Table): (keys: seq<string>)
    ensures |keys| == |t| && forall i :: 0 <= i < |t| ==> keys[i] == t[i].dc
  {
    seq(|t|, i requires 0 <= i < |t| => t[i].dc)
  }

  /** Where `dc` sits in the table, or |t| when it is not there. */
  function IndexOf(t: Table, dc: string): (i: nat)
    ensures i <= |t|
    ensures i < |t| ==> t[i].dc == dc
    ensures forall j :: 0 <= j < i ==> t[j].dc != dc
  {
    FirstIndex(Dcs(t), dc)
  }

  predicate Has(t: Table, dc: string) { IndexOf(t, dc) < |t| }

  function Get(t: Table, dc: string): Site
    requires Has(t, dc)
  {
    t[IndexOf(t, dc)].site
  }

  /** `d[dc] = s`: an existing key keeps its place, a new one goes last. */
  function Put(t: Table, dc: string, s: Site): Table {
    var i := IndexOf(t, dc);
    if i == |t| then t + [Entry(dc, s)] else t[i := Entry(dc, s)]
  }

  /** Dictionary keys are distinct. */
  predicate Keyed(t: Table) {
    forall i, j :: 0 <= i < j < |t| ==> t[i].dc != t[j].dc
  }

  function KeySet(t: Table): set<string> {
    set k | 0 <= k < |t| :: t[k].dc
  }

  lemma IndexOfSnoc(p: Table, e: Entry, dc: string)
    ensures IndexOf(p + [e], dc) ==
            if IndexOf(p, dc) < |p| then IndexOf(p, dc) else if e.dc == dc then |p| else |p| + 1
  {
    var j := if IndexOf(p, dc) < |p| then IndexOf(p, dc) else if e.dc == dc then |p| else |p| + 1;
    assert forall i :: 0 <= i < |p| ==> (p + [e])[i] == p[i];
    FirstIndexIs(Dcs(p + [e]), dc, j);
  }

  /** Appending a new key to a dictionary: membership and lookups. */
  lemma SnocFacts(p: Table, e: Entry)
    requires Keyed(p + [e])
    ensures Keyed(p) && !Has(p, e.dc)
    ensures forall dc :: Has(p + [e], dc) <==> Has(p, dc) || dc == e.dc
    ensures Get(p + [e], e.dc) == e.site
    ensures forall dc :: Has(p, dc) ==> Get(p + [e], dc) == Get(p, dc)
  {
    assert (p + [e])[|p|] == e;
    forall i, j | 0 <= i < j < |p| ensures p[i].dc != p[j].dc {
      assert (p + [e])[i] == p[i] && (p + [e])[j] == p[j];
    }
    forall j | 0 <= j < |p| ensures p[j].dc != e.dc {
      assert (p + [e])[j] == p[j];
    }
    forall dc ensures Has(p + [e], dc) <==> Has(p, dc) || dc == e.dc {
      IndexOfSnoc(p, e, dc);
    }
    IndexOfSnoc(p, e, e.dc);
    forall dc | Has(p, dc) ensures Get(p + [e], dc) == Get(p, dc) {
      IndexOfSnoc(p, e, dc);
    }
  }

  /** `Put` on a dictionary stores `s` under `dc` and leaves every other key,
      and its value, as it was. */
  lemma PutFacts(t: Table, dc: string, s: Site)
    requires Keyed(t)
    ensures Keyed(Put(t, dc, s))
    ensures Has(Put(t, dc, s), dc) && Get(Put(t, dc, s), dc) == s
    ensures forall d :: d != dc ==> (Has(Put(t, dc, s), d) <==> Has(t, d))
    ensures forall d :: d != dc && Has(t, d) ==> Get(Put(t, dc, s), d) == Get(t, d)
  {
    var i := IndexOf(t, dc);
    var u := Put(t, dc, s);
    if i == |t| {
      forall a, b | 0 <= a < b < |u| ensures u[a].dc != u[b].dc {
        if b == |t| {
          assert u[a] == t[a];
        } else {
          assert u[a] == t[a] && u[b] == t[b];
        }
      }
      SnocFacts(t, Entry(dc, s));
    } else {
      assert |u| == |t|;
      forall d ensures IndexOf(u, d) == IndexOf(t, d) {
        SameKeysSameIndex(t, u, d);
      }
    }
  }

  lemma SameKeysSameIndex(t: Table, u: Table, d: string)
    requires |t| == |u| && forall k :: 0 <= k < |t| ==> t[k].dc == u[k].dc
    ensures IndexOf(t, d) == IndexOf(u, d)
  {
    assert Dcs(t) == Dcs(u);
  }

  /** A dictionary has as many entries as distinct keys. */
  lemma {:induction false} KeySetSize(t: Table)
    requires Keyed(t)
    ensures |KeySet(t)| == |t|
    decreases |t|
  {
    if t != [] {
      var p := t[..|t| - 1];
      var e := t[|t| - 1];
      assert t == p + [e];
      SnocFacts(p, e);
      KeySetSize(p);
      assert KeySet(t) == KeySet(p) + {e.dc} by {
        forall d | d in KeySet(t) ensures d in KeySet(p) + {e.dc} {
          var k :| 0 <= k < |t| && t[k].dc == d;
          if k < |p| { assert p[k] == t[k]; }
        }
        forall d | d in KeySet(p) ensures d in KeySet(t) {
          var k :| 0 <= k < |p| && p[k].dc == d;
          assert t[k] == p[k];
        }
      }
      assert e.dc !in KeySet(p);
    }
  }

  lemma HasIsKeySet(t: Table, dc: string)
    ensures Has(t, dc) <==> dc in KeySet(t)
  {
    if dc in KeySet(t) {
      var k :| 0 <= k < |t| && t[k].dc == dc;
    }
  }

  /** Two dictionaries with the same keys have the same size. */
  lemma SameKeysSameSize(t: Table, u: Table)
    requires Keyed(t) && Keyed(u)
    requires forall dc :: Has(t, dc) <==> Has(u, dc)
    ensures |t| == |u|
  {
    forall dc ensures dc in KeySet(t) <==> dc in KeySet(u) {
      HasIsKeySet(t, dc);
      HasIsKeySet(u, dc);
    }
    assert KeySet(t) == KeySet(u);
    KeySetSize(t);
    KeySetSize(u);
  }

  // ---------------------------------------------------------------------
  // Regional readings, aggregated per datacenter
  // ---------------------------------------------------------------------

  datatype Fuel = Fuel(fuel: string, perc: Option<real>)

  /** One region of the `/regional` response; an absent field is `None`.
      `regionId` is the id already turned into a string. */
  datatype Region = Region(regionId: string, forecast: Option<real>, index: Option<string>, generationMix: seq<Fuel>)

  function Share(g: Fuel): real {
    if g.fuel in RenewableFuels then g.perc.GetOr(0.0) else 0.0
  }

  /** The renewable share of a generation mix: the percentages of wind,
      solar, hydro and nuclear added up (an absent percentage is 0). */
  function Renewable(mix: seq<Fuel>): (r: real)
    ensures (forall i :: 0 <= i < |mix| ==> mix[i].perc.GetOr(0.0) >= 0.0) ==> r >= 0.0
  {
    if mix == [] then 0.0 else Share(mix[0]) + Renewable(mix[1..])
  }

  /** Reference definition: keep the renewable fuels, then add up every
      percentage that is left. */
  function RenewablesOf(mix: seq<Fuel>): seq<Fuel> {
    if mix == [] then []
    else (if mix[0].fuel in RenewableFuels then [mix[0]] else []) + RenewablesOf(mix[1..])
  }

  function TotalPerc(mix: seq<Fuel>): real {
    if mix == [] then 0.0 else mix[0].perc.GetOr(0.0) + TotalPerc(mix[1..])
  }

  lemma {:induction false} TotalPercAppend(a: seq<Fuel>, b: seq<Fuel>)
    ensures TotalPerc(a + b) == TotalPerc(a) + TotalPerc(b)
    decreases |a|
  {
    if a == [] {
      assert a + b == b;
    } else {
      assert (a + b)[0] == a[0];
      assert (a + b)[1..] == a[1..] + b;
      TotalPercAppend(a[1..], b);
    }
  }

  lemma {:induction false} RenewableSumsRenewableFuels(mix: seq<Fuel>)
    ensures Renewable(mix) == TotalPerc(RenewablesOf(mix))
    ensures forall i :: 0 <= i < |RenewablesOf(mix)| ==> RenewablesOf(mix)[i].fuel in RenewableFuels
    decreases |mix|
  {
    if mix != [] {
      RenewableSumsRenewableFuels(mix[1..]);
      var head := if mix[0].fuel in RenewableFuels then [mix[0]] else [];
      TotalPercAppend(head, RenewablesOf(mix[1..]));
      assert TotalPerc(head) == Share(mix[0]) by {
        if head != [] { assert head[1..] == []; }
      }
    }
  }

  function IntensityOf(r: Region): real { r.forecast.GetOr(DefaultIntensity) }

  function SiteOf(r: Region): Site {
    Site(IntensityOf(r), Renewable(r.generationMix), r.index.GetOr(DefaultIndex))
  }

  /** `mapping` (in the client, `RegionMapping`) sends the region to `dc`. */
  predicate MapsTo(mapping: map<string, string>, r: Region, dc: string) {
    r.regionId in mapping && mapping[r.regionId] == dc
  }

  /** One pass of the region loop: unknown region ids are skipped, and a
      region replaces the kept reading of its datacenter only when its
      intensity is strictly lower. */
  function Step(mapping: map<string, string>, t: Table, r: Region): Table {
    if r.regionId !in mapping then t
    else
      var dc := mapping[r.regionId];
      var i := IndexOf(t, dc);
      if i == |t| || IntensityOf(r) < t[i].site.intensity then Put(t, dc, SiteOf(r)) else t
  }

  /** The `result` dict after the region loop: at most one entry per region,
      each under a datacenter of the mapping. */
  function Aggregate(mapping: map<string, string>, rs: seq<Region>): (t: Table)
    ensures |t| <= |rs|
    ensures forall k :: 0 <= k < |t| ==> t[k].dc in mapping.Values
  {
    if rs == [] then [] else Step(mapping, Aggregate(mapping, rs[..|rs| - 1]), rs[|rs| - 1])
  }

  lemma AggregateSnoc(mapping: map<string, string>, p: seq<Region>, r: Region)
    ensures Aggregate(mapping, p + [r]) == Step(mapping, Aggregate(mapping, p), r)
  {
    assert (p + [r])[..|p|] == p;
  }

  /** `i` is the first of the regions mapped to `dc` with the lowest intensity. */
  ghost predicate FirstLowest(mapping: map<string, string>, rs: seq<Region>, dc: string, i: int) {
    0 <= i < |rs| && MapsTo(mapping, rs[i], dc)
    && (forall j :: 0 <= j < |rs| && MapsTo(mapping, rs[j], dc) ==> IntensityOf(rs[i]) <= IntensityOf(rs[j]))
    && (forall j :: 0 <= j < i && MapsTo(mapping, rs[j], dc) ==> IntensityOf(rs[i]) < IntensityOf(rs[j]))
  }

  ghost predicate Mentions(mapping: map<string, string>, rs: seq<Region>, dc: string) {
    exists i :: 0 <= i < |rs| && MapsTo(mapping, rs[i], dc)
  }

  ghost predicate KeepsFirstLowest(mapping: map<string, string>, rs: seq<Region>, t: Table) {
    Keyed(t)
    && (forall dc :: Has(t, dc) <==> Mentions(mapping, rs, dc))
    && (forall dc :: Has(t, dc) ==> exists i :: FirstLowest(mapping, rs, dc, i) && Get(t, dc) == SiteOf(rs[i]))
  }

  /** The aggregated dict has one entry per datacenter that some known region
      maps to, and that entry is the reading of the first region with the
      lowest intensity among those mapped to it. */
  lemma {:induction false} AggregateKeepsFirstLowest(mapping: map<string, string>, rs: seq<Region>)
    ensures KeepsFirstLowest(mapping, rs, Aggregate(mapping, rs))
    decreases |rs|
  {
    if rs != [] {
      var p := rs[..|rs| - 1];
      var r := rs[|rs| - 1];
      assert rs == p + [r];
      AggregateKeepsFirstLowest(mapping, p);
      AggregateSnoc(mapping, p, r);
      StepKeepsFirstLowest(mapping, p, Aggregate(mapping, p), r);
    }
  }

  lemma StepKeepsFirstLowest(mapping: map<string, string>, p: seq<Region>, t: Table, r: Region)
    requires KeepsFirstLowest(mapping, p, t)
    ensures KeepsFirstLowest(mapping, p + [r], Step(mapping, t, r))
  {
    var u := Step(mapping, t, r);
    if r.regionId in mapping {
      var dc := mapping[r.regionId];
      var i := IndexOf(t, dc);
      if i == |t| || IntensityOf(r) < t[i].site.intensity {
        PutFacts(t, dc, SiteOf(r));
      }
    }
    forall d ensures Has(u, d) <==> Mentions(mapping, p + [r], d) {
      MentionsSnoc(mapping, p, r, d);
    }
    forall d | Has(u, d)
      ensures exists i :: FirstLowest(mapping, p + [r], d, i) && Get(u, d) == SiteOf((p + [r])[i])
    {
      if MapsTo(mapping, r, d) {
        var i := IndexOf(t, d);
        if i == |t| || IntensityOf(r) < t[i].site.intensity {
          StepReplaces(mapping, p, t, r);
        } else {
          var i0 :| FirstLowest(mapping, p, d, i0) && Get(t, d) == SiteOf(p[i0]);
          StepKeeps(mapping, p, t, r, i0);
        }
      } else {
        var i0 :| FirstLowest(mapping, p, d, i0) && Get(t, d) == SiteOf(p[i0]);
        FirstLowestExtends(mapping, p, r, d, i0);
      }
    }
  }

  lemma StepReplaces(mapping: map<string, string>, p: seq<Region>, t: Table, r: Region)
    requires KeepsFirstLowest(mapping, p, t)
    requires r.regionId in mapping
    requires var i := IndexOf(t, mapping[r.regionId]); i == |t| || IntensityOf(r) < t[i].site.intensity
    ensures FirstLowest(mapping, p + [r], mapping[r.regionId], |p|)
    ensures Step(mapping, t, r) == Put(t, mapping[r.regionId], SiteOf(r))
  {
    var dc := mapping[r.regionId];
    if Has(t, dc) {
      var i0 :| FirstLowest(mapping, p, dc, i0) && Get(t, dc) == SiteOf(p[i0]);
      assert IntensityOf(r) < IntensityOf(p[i0]);
    } else {
      assert !Mentions(mapping, p, dc);
    }
    FirstLowestNew(mapping, p, r, dc);
  }

  lemma StepKeeps(mapping: map<string, string>, p: seq<Region>, t: Table, r: Region, i0: int)
    requires r.regionId in mapping
    requires Has(t, mapping[r.regionId]) && !(IntensityOf(r) < Get(t, mapping[r.regionId]).intensity)
    requires FirstLowest(mapping, p, mapping[r.regionId], i0) && Get(t, mapping[r.regionId]) == SiteOf(p[i0])
    ensures Step(mapping, t, r) == t
    ensures FirstLowest(mapping, p + [r], mapping[r.regionId], i0) && (p + [r])[i0] == p[i0]
  {
    FirstLowestExtends(mapping, p, r, mapping[r.regionId], i0);
  }

  lemma FirstLowestExtends(mapping: map<string, string>, p: seq<Region>, r: Region, dc: string, i: int)
    requires FirstLowest(mapping, p, dc, i)
    requires MapsTo(mapping, r, dc) ==> IntensityOf(p[i]) <= IntensityOf(r)
    ensures FirstLowest(mapping, p + [r], dc, i) && (p + [r])[i] == p[i]
  {
    assert (p + [r])[|p|] == r;
    assert forall j :: 0 <= j < |p| ==> (p + [r])[j] == p[j];
  }

  lemma FirstLowestNew(mapping: map<string, string>, p: seq<Region>, r: Region, dc: string)
    requires MapsTo(mapping, r, dc)
    requires forall j :: 0 <= j < |p| && MapsTo(mapping, p[j], dc) ==> IntensityOf(r) < IntensityOf(p[j])
    ensures FirstLowest(mapping, p + [r], dc, |p|) && (p + [r])[|p|] == r
  {
    assert forall j :: 0 <= j < |p| ==> (p + [r])[j] == p[j];
  }

  lemma MentionsSnoc(mapping: map<string, string>, p: seq<Region>, r: Region, dc: string)
    ensures Mentions(mapping, p + [r], dc) <==> Mentions(mapping, p, dc) || MapsTo(mapping, r, dc)
  {
    if Mentions(mapping, p, dc) {
      var i :| 0 <= i < |p| && MapsTo(mapping, p[i], dc);
      assert (p + [r])[i] == p[i];
    }
    if MapsTo(mapping, r, dc) {
      assert (p + [r])[|p|] == r;
    }
    if Mentions(mapping, p + [r], dc) {
      var i :| 0 <= i < |p| + 1 && MapsTo(mapping, (p + [r])[i], dc);
      if i < |p| { assert (p + [r])[i] == p[i]; }
    }
  }

  /** The region loop of `get_current_intensity`. */
  method AggregateRegions(regions: seq<Region>) returns (t: Table)
    ensures t == Aggregate(RegionMapping, regions)
  {
    var mapping := RegionMapping;
    t := [];
    var i := 0;
    while i < |regions|
      invariant 0 <= i <= |regions|
      invariant t == Aggregate(mapping, regions[..i])
    {
      var r := regions[i];
      assert regions[..i + 1][..i] == regions[..i];
      if r.regionId in mapping {
        var dc := mapping[r.regionId];
        var j := IndexOf(t, dc);
        if j == |t| || r.forecast.GetOr(DefaultIntensity) < t[j].site.intensity {
          t := Put(t, dc, SiteOf(r));
        }
      }
      i := i + 1;
    }
    assert regions[..i] == regions;
  }

  // ---------------------------------------------------------------------
  // The low-carbon threshold
  // ---------------------------------------------------------------------

  /** `filtered_result` before the fallback: the datacenters at or above the
      threshold. */
  function Kept(t: Table): Table {
    if t == [] then []
    else
      var rest := Kept(t[..|t| - 1]);
      var e := t[|t| - 1];
      if e.site.intensity < MinCarbonThreshold then rest else Put(rest, e.dc, e.site)
  }

  function Floored(s: Site): Site {
    s.(intensity := Max(s.intensity, MinCarbonThreshold))
  }

  /** The fallback loop: every entry of `t`, floored, stored into `acc`. */
  function PutFloored(acc: Table, t: Table): Table {
    if t == [] then acc
    else
      var e := t[|t| - 1];
      Put(PutFloored(acc, t[..|t| - 1]), e.dc, Floored(e.site))
  }

  /** The dict `get_current_intensity` returns for fresh API data: a dict
      again, with no datacenter the aggregate did not have. */
  function Thresholded(t: Table): (r: Table)
    ensures Keyed(t) ==> Keyed(r) && forall dc :: Has(r, dc) ==> Has(t, dc)
  {
    var kept := Kept(t);
    var r := if |kept| < MinSurvivors then PutFloored(kept, t) else kept;
    if !Keyed(t) then r
    else
      KeptIsAtThreshold(t);
      PutFlooredCovers(kept, t);
      r
  }

  lemma {:induction false} KeptIsAtThreshold(t: Table)
    requires Keyed(t)
    ensures Keyed(Kept(t))
    ensures forall dc :: Has(Kept(t), dc) <==> Has(t, dc) && Get(t, dc).intensity >= MinCarbonThreshold
    ensures forall dc :: Has(Kept(t), dc) ==> Get(Kept(t), dc) == Get(t, dc)
    decreases |t|
  {
    if t != [] {
      var p := t[..|t| - 1];
      var e := t[|t| - 1];
      assert t == p + [e];
      SnocFacts(p, e);
      KeptIsAtThreshold(p);
      if e.site.intensity >= MinCarbonThreshold {
        PutFacts(Kept(p), e.dc, e.site);
      }
    }
  }

  lemma {:induction false} PutFlooredCovers(acc: Table, t: Table)
    requires Keyed(acc) && Keyed(t)
    ensures Keyed(PutFloored(acc, t))
    ensures forall dc :: Has(PutFloored(acc, t), dc) <==> Has(acc, dc) || Has(t, dc)
    ensures forall dc :: Has(t, dc) ==> Get(PutFloored(acc, t), dc) == Floored(Get(t, dc))
    ensures forall dc :: Has(acc, dc) && !Has(t, dc) ==> Get(PutFloored(acc, t), dc) == Get(acc, dc)
    decreases |t|
  {
    if t != [] {
      var p := t[..|t| - 1];
      var e := t[|t| - 1];
      assert t == p + [e];
      SnocFacts(p, e);
      PutFlooredCovers(acc, p);
      PutFacts(PutFloored(acc, p), e.dc, Floored(e.site));
    }
  }

  /** Every returned datacenter is the aggregated one floored at the
      threshold; those below it are dropped unless fewer than three would be
      left, in which case all are returned; so at least three survive
      whenever there were three. */
  lemma ThresholdKeepsAtLeastThree(t: Table)
    requires Keyed(t)
    ensures Keyed(Thresholded(t))
    ensures forall dc :: Has(Thresholded(t), dc) <==>
              Has(t, dc) && (|Kept(t)| < MinSurvivors || Get(t, dc).intensity >= MinCarbonThreshold)
    ensures forall dc :: Has(Thresholded(t), dc) ==> Get(Thresholded(t), dc) == Floored(Get(t, dc))
    ensures forall k :: 0 <= k < |Thresholded(t)| ==> Thresholded(t)[k].site.intensity >= MinCarbonThreshold
    ensures |t| >= MinSurvivors ==> |Thresholded(t)| >= MinSurvivors
  {
    var r := Thresholded(t);
    KeptIsAtThreshold(t);
    if |Kept(t)| < MinSurvivors {
      PutFlooredCovers(Kept(t), t);
      SameKeysSameSize(r, t);
    }
    forall k | 0 <= k < |r| ensures r[k].site.intensity >= MinCarbonThreshold {
      var dc := r[k].dc;
      assert IndexOf(r, dc) == k;
      assert Get(r, dc) == r[k].site;
      assert Has(t, dc);
    }
  }

  /** The filter and fallback loops of `get_current_intensity`. */
  method ApplyThreshold(result: Table) returns (filtered: Table)
    ensures filtered == Thresholded(result)
  {
    filtered := [];
    var i := 0;
    while i < |result|
      invariant 0 <= i <= |result|
      invariant filtered == Kept(result[..i])
    {
      assert result[..i + 1][..i] == result[..i];
      var e := result[i];
      if e.site.intensity >= MinCarbonThreshold {
        filtered := Put(filtered, e.dc, e.site);
      }
      i := i + 1;
    }
    assert result[..i] == result;
    if |filtered| < MinSurvivors {
      ghost var kept := filtered;
      i := 0;
      while i < |result|
        invariant 0 <= i <= |result|
        invariant filtered == PutFloored(kept, result[..i])
      {
        assert result[..i + 1][..i] == result[..i];
        var e := result[i];
        filtered := Put(filtered, e.dc, Floored(e.site));
        i := i + 1;
      }
      assert result[..i] == result;
    }
  }

  /** `_get_default_carbon_data`. */
  const DefaultCarbon: Table := [
    Entry("UK-Scotland", Site(85.0, 80.0, "low")),
    Entry("UK-North", Site(145.0, 55.0, "moderate")),
    Entry("UK-Wales", Site(195.0, 42.0, "moderate")),
    Entry("UK-Midlands", Site(180.0, 45.0, "moderate")),
    Entry("UK-East", Site(165.0, 50.0, "moderate")),
    Entry("UK-South", Site(230.0, 35.0, "high"))]

  predicate AtLeastFloor(t: Table) {
    forall k :: 0 <= k < |t| ==> t[k].site.intensity >= MinCarbonThreshold
  }

  lemma DefaultCarbonIsClean()
    ensures Keyed(DefaultCarbon) && AtLeastFloor(DefaultCarbon) && |DefaultCarbon| == 6
  {
  }

  /** The readings the schedulers receive: the optimizer hands the dict
      `get_current_intensity` returns to them as `carbon_data`. */
  function CarbonDataOf(t: Table): (c: CarbonData)
    requires Keyed(t)
    ensures forall dc :: dc in c <==> Has(t, dc)
    ensures forall dc :: Has(t, dc) ==> c[dc] == Reading(Get(t, dc).intensity, Get(t, dc).renewable)
  {
    var c := map k | 0 <= k < |t| :: t[k].dc := Reading(t[k].site.intensity, t[k].site.renewable);
    forall dc | Has(t, dc) ensures dc in c && c[dc] == Reading(Get(t, dc).intensity, Get(t, dc).renewable) {
      var i := IndexOf(t, dc);
      assert t[i].dc == dc;
    }
    forall dc | dc in c ensures Has(t, dc) {
      var k :| 0 <= k < |t| && t[k].dc == dc;
      assert IndexOf(t, dc) <= k;
    }
    c
  }

  // ---------------------------------------------------------------------
  // Forecasts
  // ---------------------------------------------------------------------

  function TotalIntensity(t: Table): real {
    if t == [] then 0.0 else TotalIntensity(t[..|t| - 1]) + t[|t| - 1].site.intensity
  }

  /** The mean current intensity, 200 for an empty dict. */
  function Average(t: Table): real {
    if |t| == 0 then DefaultIntensity else TotalIntensity(t) / |t| as real
  }

  /** The national forecast scaled by a datacenter's share of the mean, and
      never below the threshold. */
  function Scaled(national: real, current: real, avg: real): (x: real)
    ensures x >= MinCarbonThreshold
  {
    var ratio := if avg > 0.0 then current / avg else 1.0;
    Max(national * ratio, MinCarbonThreshold)
  }

  /** `len(forecasts[:hours])`, with Python slice semantics: a negative
      `hours` drops that many entries from the end. */
  function SliceLength(hours: int, n: nat): (m: nat)
    ensures m <= n
    ensures hours >= 0 ==> m == if hours <= n then hours else n
    ensures hours < 0 ==> m + (if -hours <= n then -hours else n) == n
  {
    if hours >= 0 then (if hours <= n then hours else n)
    else if n + hours >= 0 then n + hours else 0
  }

  /** A forecast that gives every datacenter of `t` an entry `v(entry, h)`
      for each hour `h` below `n`. */
  function Spread(t: Table, n: int, v: (Entry, int) -> Reading): Forecast
    requires Keyed(t)
  {
    map h, k | 0 <= h < n && 0 <= k < |t| :: (t[k].dc, h) := v(t[k], h)
  }

  /** `(dc, h)` grid of forecast keys. */
  function Grid(t: Table, n: int): set<(string, int)> {
    set h, k | 0 <= h < n && 0 <= k < |t| :: (t[k].dc, h)
  }

  function Row(t: Table, h: int): set<(string, int)> {
    set k | 0 <= k < |t| :: (t[k].dc, h)
  }

  lemma SpreadAt(t: Table, n: int, v: (Entry, int) -> Reading, dc: string, h: int)
    requires Keyed(t)
    ensures (dc, h) in Spread(t, n, v) <==> Has(t, dc) && 0 <= h < n
    ensures (dc, h) in Spread(t, n, v) ==> Spread(t, n, v)[(dc, h)] == v(Entry(dc, Get(t, dc)), h)
  {
    var f := Spread(t, n, v);
    if Has(t, dc) && 0 <= h < n {
      var k := IndexOf(t, dc);
      assert (t[k].dc, h) in f;
    }
    if (dc, h) in f {
      var h', k :| 0 <= h' < n && 0 <= k < |t| && (t[k].dc, h') == (dc, h);
      assert IndexOf(t, dc) == k;
      assert t[k] == Entry(dc, Get(t, dc));
    }
  }

  /** A map with exactly the keys and values of a spread is that spread. */
  lemma IsSpread(f: Forecast, t: Table, n: int, v: (Entry, int) -> Reading)
    requires Keyed(t)
    requires forall q :: q in f ==> Has(t, q.0) && 0 <= q.1 < n && f[q] == v(Entry(q.0, Get(t, q.0)), q.1)
    requires forall dc, h :: Has(t, dc) && 0 <= h < n ==> (dc, h) in f
    ensures f == Spread(t, n, v)
  {
    forall q ensures q in f <==> q in Spread(t, n, v)
             ensures q in f ==> f[q] == Spread(t, n, v)[q]
    {
      SpreadAt(t, n, v, q.0, q.1);
    }
  }

  lemma {:induction false} RowSize(t: Table, h: int)
    requires Keyed(t)
    ensures |Row(t, h)| == |t|
    decreases |t|
  {
    if t != [] {
      var p := t[..|t| - 1];
      var e := t[|t| - 1];
      assert t == p + [e];
      SnocFacts(p, e);
      RowSize(p, h);
      assert Row(t, h) == Row(p, h) + {(e.dc, h)} by {
        forall q | q in Row(t, h) ensures q in Row(p, h) + {(e.dc, h)} {
          var k :| 0 <= k < |t| && q == (t[k].dc, h);
          if k < |p| { assert p[k] == t[k]; }
        }
        forall q | q in Row(p, h) ensures q in Row(t, h) {
          var k :| 0 <= k < |p| && q == (p[k].dc, h);
          assert t[k] == p[k];
        }
      }
      forall k | 0 <= k < |p| ensures p[k].dc != e.dc {
        assert t[k] == p[k];
      }
      assert (e.dc, h) !in Row(p, h);
    }
  }

  lemma GridSplit(t: Table, n: int)
    requires n > 0
    ensures Grid(t, n) == Grid(t, n - 1) + Row(t, n - 1)
    ensures Grid(t, n - 1) !! Row(t, n - 1)
  {
    forall q | q in Grid(t, n) ensures q in Grid(t, n - 1) + Row(t, n - 1) {
      var h, k :| 0 <= h < n && 0 <= k < |t| && q == (t[k].dc, h);
      if h < n - 1 {
        assert q in Grid(t, n - 1);
      } else {
        assert q in Row(t, n - 1);
      }
    }
    forall q | q in Grid(t, n - 1) ensures q in Grid(t, n) && q.1 < n - 1 {
      var h, k :| 0 <= h < n - 1 && 0 <= k < |t| && q == (t[k].dc, h);
    }
    forall q | q in Row(t, n - 1) ensures q in Grid(t, n) && q.1 == n - 1 {
      var k :| 0 <= k < |t| && q == (t[k].dc, n - 1);
    }
  }

  lemma GridStep(t: Table, n: int)
    requires n > 0
    ensures |Grid(t, n)| == |Grid(t, n - 1)| + |Row(t, n - 1)|
  {
    GridSplit(t, n);
    var a, b := Grid(t, n - 1), Row(t, n - 1);
    assert a * b == {};
    assert |a + b| == |a| + |b|;
  }

  /** Over `n` hours and a dict of distinct datacenters there are exactly `n`
      keys per datacenter. */
  lemma {:induction false} GridSize(t: Table, n: int)
    requires Keyed(t)
    ensures |Grid(t, n)| == (if n >= 0 then n else 0) * |t|
    decreases if n >= 0 then n else 0
  {
    if n <= 0 {
      assert Grid(t, n) == {};
    } else {
      GridSize(t, n - 1);
      RowSize(t, n - 1);
      GridStep(t, n);
      assert (n - 1) * |t| + |t| == n * |t|;
    }
  }

  lemma SpreadSize(t: Table, n: int, v: (Entry, int) -> Reading)
    requires Keyed(t)
    ensures |Spread(t, n, v)| == (if n >= 0 then n else 0) * |t|
  {
    assert Spread(t, n, v).Keys == Grid(t, n);
    GridSize(t, n);
  }

  /** `forecast.get('intensity', {}).get('forecast', 200)` for the `h`-th forecast. */
  function NationalAt(nationals: seq<Option<real>>, h: int): real {
    if 0 <= h < |nationals| then nationals[h].GetOr(DefaultIntensity) else DefaultIntensity
  }

  /** The forecast reading of one datacenter for hour `h`. */
  function ScaledAt(nationals: seq<Option<real>>, avg: real, e: Entry, h: int): Reading {
    Reading(Scaled(NationalAt(nationals, h), e.site.intensity, avg), e.site.renewable)
  }

  function ScaledValue(nationals: seq<Option<real>>, avg: real): (Entry, int) -> Reading {
    (e: Entry, h: int) => ScaledAt(nationals, avg, e, h)
  }

  /** The forecast `get_forecast` builds from the API's national forecasts
      (`None` for an entry without a forecast) and the current readings. */
  function ScaledForecast(current: Table, nationals: seq<Option<real>>, hours: int): Forecast
    requires Keyed(current)
  {
    Spread(current, SliceLength(hours, |nationals|), ScaledValue(nationals, Average(current)))
  }

  /** The scaled forecast has one entry per (datacenter, hour) for the first
      `len(forecasts[:hours])` forecasts: the national figure for that hour
      times the datacenter's share of the mean current intensity, never below
      the threshold, with the datacenter's current renewable share. */
  lemma ScaledForecastCoversGrid(current: Table, nationals: seq<Option<real>>, hours: int)
    requires Keyed(current)
    ensures forall dc, h :: (dc, h) in ScaledForecast(current, nationals, hours) <==>
              Has(current, dc) && 0 <= h < SliceLength(hours, |nationals|)
    ensures |ScaledForecast(current, nationals, hours)| == SliceLength(hours, |nationals|) * |current|
    ensures forall dc, h :: (dc, h) in ScaledForecast(current, nationals, hours) ==>
              ScaledForecast(current, nationals, hours)[(dc, h)] ==
              Reading(Scaled(nationals[h].GetOr(DefaultIntensity), Get(current, dc).intensity, Average(current)),
                      Get(current, dc).renewable)
    ensures forall q :: q in ScaledForecast(current, nationals, hours) ==>
              ScaledForecast(current, nationals, hours)[q].intensity >= MinCarbonThreshold
  {
    var n := SliceLength(hours, |nationals|);
    var v := ScaledValue(nationals, Average(current));
    forall dc, h ensures (dc, h) in Spread(current, n, v) <==> Has(current, dc) && 0 <= h < n
                 ensures (dc, h) in Spread(current, n, v) ==> Spread(current, n, v)[(dc, h)] == v(Entry(dc, Get(current, dc)), h)
    {
      SpreadAt(current, n, v, dc, h);
    }
    SpreadSize(current, n, v);
    forall q | q in Spread(current, n, v) ensures Spread(current, n, v)[q].intensity >= MinCarbonThreshold {
      SpreadAt(current, n, v, q.0, q.1);
    }
  }

  function RowTotal(t: Table, national: real, avg: real): real {
    if t == [] then 0.0 else RowTotal(t[..|t| - 1], national, avg) + Scaled(national, t[|t| - 1].site.intensity, avg)
  }

  lemma SumOfQuotients(x: real, a: real, b: real, d: real)
    requires d != 0.0
    ensures x * (a / d) + x * (b / d) == x * ((a + b) / d)
  {
    assert a / d + b / d == (a + b) / d;
  }

  lemma ScaledUnfloored(national: real, current: real, avg: real)
    requires avg > 0.0 && national * (current / avg) >= MinCarbonThreshold
    ensures Scaled(national, current, avg) == national * (current / avg)
  {
    var ratio := current / avg;
    assert Scaled(national, current, avg) == Max(national * ratio, MinCarbonThreshold);
  }

  lemma {:induction false} RowTotalUnfloored(t: Table, national: real, avg: real)
    requires avg > 0.0
    requires forall k :: 0 <= k < |t| ==> national * (t[k].site.intensity / avg) >= MinCarbonThreshold
    ensures RowTotal(t, national, avg) == national * (TotalIntensity(t) / avg)
    decreases |t|
  {
    if t == [] {
      assert TotalIntensity(t) / avg == 0.0;
    } else {
      var p := t[..|t| - 1];
      var c := t[|t| - 1].site.intensity;
      forall k | 0 <= k < |p| ensures national * (p[k].site.intensity / avg) >= MinCarbonThreshold {
        assert p[k] == t[k];
      }
      RowTotalUnfloored(p, national, avg);
      ScaledUnfloored(national, c, avg);
      SumOfQuotients(national, TotalIntensity(p), c, avg);
    }
  }

  lemma MeanRatio(total: real, n: real)
    requires total > 0.0 && n > 0.0
    ensures total / (total / n) == n
  {
    var a := total / n;
    assert a * n == total;
    assert a > 0.0;
  }

  /** Scaling keeps the national figure as the mean: when no datacenter is
      floored, the forecast intensities of one hour add up to the national
      forecast times the number of datacenters. */
  lemma ScalingKeepsNationalMean(t: Table, national: real)
    requires |t| > 0 && TotalIntensity(t) > 0.0
    requires forall k :: 0 <= k < |t| ==> national * (t[k].site.intensity / Average(t)) >= MinCarbonThreshold
    ensures RowTotal(t, national, Average(t)) == national * |t| as real
  {
    var n := |t| as real;
    MeanRatio(TotalIntensity(t), n);
    assert Average(t) > 0.0;
    RowTotalUnfloored(t, national, Average(t));
  }

  lemma {:induction false} TotalAtLeastFloor(t: Table)
    requires AtLeastFloor(t)
    ensures TotalIntensity(t) >= MinCarbonThreshold * |t| as real
    decreases |t|
  {
    if t != [] {
      var p := t[..|t| - 1];
      assert forall k :: 0 <= k < |p| ==> p[k] == t[k];
      TotalAtLeastFloor(p);
    }
  }

  /** Current readings that all respect the threshold average at least the
      threshold, so scaling never falls back to a ratio of 1. */
  lemma AverageAtLeastFloor(t: Table)
    requires AtLeastFloor(t)
    ensures Average(t) >= MinCarbonThreshold
  {
    if |t| > 0 {
      TotalAtLeastFloor(t);
    }
  }

  /** The loops of `get_forecast` that fill `result`. */
  method BuildForecast(current: Table, nationals: seq<Option<real>>, hours: int) returns (f: Forecast)
    requires Keyed(current)
    ensures f == ScaledForecast(current, nationals, hours)
  {
    var n := SliceLength(hours, |nationals|);
    var avg := Average(current);
    f := map[];
    var h := 0;
    while h < n
      invariant 0 <= h <= n
      invariant forall q :: q in f ==> Has(current, q.0) && 0 <= q.1 < h
                                       && f[q] == ScaledAt(nationals, avg, Entry(q.0, Get(current, q.0)), q.1)
      invariant forall dc, h' :: Has(current, dc) && 0 <= h' < h ==> (dc, h') in f
    {
      var national := nationals[h].GetOr(DefaultIntensity);
      assert national == NationalAt(nationals, h);
      var k := 0;
      while k < |current|
        invariant 0 <= k <= |current|
        invariant forall q :: q in f ==> Has(current, q.0) && 0 <= q.1 <= h
                                         && (q.1 == h ==> IndexOf(current, q.0) < k)
                                         && f[q] == ScaledAt(nationals, avg, Entry(q.0, Get(current, q.0)), q.1)
        invariant forall dc, h' :: Has(current, dc) && (0 <= h' < h || (h' == h && IndexOf(current, dc) < k)) ==> (dc, h') in f
      {
        var e := current[k];
        assert IndexOf(current, e.dc) == k;
        assert e == Entry(e.dc, Get(current, e.dc));
        var r := Reading(Scaled(national, e.site.intensity, avg), e.site.renewable);
        assert r == ScaledAt(nationals, avg, e, h);
        f := f[(e.dc, h) := r];
        k := k + 1;
      }
      h := h + 1;
    }
    IsSpread(f, current, n, ScaledValue(nationals, avg));
  }

  /** One hour's offset in the default forecast: -40 to +30 in an 8-hour cycle. */
  function Variation(hour: int): real {
    ((hour % 8) as real - 4.0) * 10.0
  }

  function DefaultAt(e: Entry, h: int): Reading {
    Reading(Max(MinCarbonThreshold, e.site.intensity + Variation(h)), e.site.renewable)
  }

  /** `_get_default_forecast`. */
  function DefaultForecast(hours: int): Forecast {
    DefaultCarbonIsClean();
    Spread(DefaultCarbon, hours, DefaultAt)
  }

  lemma VariationCycles(h: int)
    ensures Variation(h + 8) == Variation(h)
    ensures -40.0 <= Variation(h) <= 30.0
  {
    assert (h + 8) % 8 == h % 8;
  }

  /** Spreading `DefaultAt` over any dict: an entry per datacenter and hour,
      the datacenter's intensity varied by the hour and never below the
      threshold, its renewable share unchanged, repeating every 8 hours. */
  lemma VariedSpread(t: Table, hours: int)
    requires Keyed(t)
    ensures forall dc, h :: (dc, h) in Spread(t, hours, DefaultAt) <==> Has(t, dc) && 0 <= h < hours
    ensures forall dc, h :: (dc, h) in Spread(t, hours, DefaultAt) ==>
              Spread(t, hours, DefaultAt)[(dc, h)].renewable == Get(t, dc).renewable
              && Spread(t, hours, DefaultAt)[(dc, h)].intensity >= MinCarbonThreshold
              && Spread(t, hours, DefaultAt)[(dc, h)].intensity >= Get(t, dc).intensity - 40.0
              && Spread(t, hours, DefaultAt)[(dc, h)].intensity <= Max(MinCarbonThreshold, Get(t, dc).intensity + 30.0)
    ensures forall dc, h :: (dc, h) in Spread(t, hours, DefaultAt) && (dc, h + 8) in Spread(t, hours, DefaultAt) ==>
              Spread(t, hours, DefaultAt)[(dc, h + 8)] == Spread(t, hours, DefaultAt)[(dc, h)]
  {
    var f := Spread(t, hours, DefaultAt);
    forall dc, h ensures (dc, h) in f <==> Has(t, dc) && 0 <= h < hours {
      SpreadAt(t, hours, DefaultAt, dc, h);
    }
    forall dc, h | (dc, h) in f
      ensures f[(dc, h)].renewable == Get(t, dc).renewable
      ensures f[(dc, h)].intensity >= MinCarbonThreshold
      ensures f[(dc, h)].intensity >= Get(t, dc).intensity - 40.0
      ensures f[(dc, h)].intensity <= Max(MinCarbonThreshold, Get(t, dc).intensity + 30.0)
    {
      SpreadAt(t, hours, DefaultAt, dc, h);
      VariationCycles(h);
    }
    forall dc, h | (dc, h) in f && (dc, h + 8) in f ensures f[(dc, h + 8)] == f[(dc, h)] {
      SpreadAt(t, hours, DefaultAt, dc, h);
      SpreadAt(t, hours, DefaultAt, dc, h + 8);
      VariationCycles(h);
    }
  }

  /** The default forecast has six entries an hour, each the datacenter's
      default intensity varied by the hour of an 8-hour cycle and never below
      the threshold, with the default renewable share; it repeats every 8
      hours. */
  lemma DefaultForecastCycles(hours: int)
    ensures |DefaultForecast(hours)| == (if hours >= 0 then hours else 0) * 6
    ensures forall dc, h :: (dc, h) in DefaultForecast(hours) <==> Has(DefaultCarbon, dc) && 0 <= h < hours
    ensures forall dc, h :: (dc, h) in DefaultForecast(hours) ==>
              DefaultForecast(hours)[(dc, h)].renewable == Get(DefaultCarbon, dc).renewable
              && DefaultForecast(hours)[(dc, h)].intensity >= MinCarbonThreshold
              && DefaultForecast(hours)[(dc, h)].intensity >= Get(DefaultCarbon, dc).intensity - 40.0
              && DefaultForecast(hours)[(dc, h)].intensity <= Max(MinCarbonThreshold, Get(DefaultCarbon, dc).intensity + 30.0)
    ensures forall dc, h :: (dc, h) in DefaultForecast(hours) && (dc, h + 8) in DefaultForecast(hours) ==>
              DefaultForecast(hours)[(dc, h + 8)] == DefaultForecast(hours)[(dc, h)]
  {
    DefaultCarbonIsClean();
    assert DefaultForecast(hours) == Spread(DefaultCarbon, hours, DefaultAt);
    SpreadSize(DefaultCarbon, hours, DefaultAt);
    VariedSpread(DefaultCarbon, hours);
  }

  /** The loops of `_get_default_forecast`, over the readings `t`. */
  method BuildVaried(t: Table, hours: int) returns (f: Forecast)
    requires Keyed(t)
    ensures f == Spread(t, hours, DefaultAt)
  {
    f := map[];
    var h := 0;
    while h < hours
      invariant 0 <= h && (h <= hours || h == 0)
      invariant forall q :: q in f ==> Has(t, q.0) && 0 <= q.1 < h && f[q] == DefaultAt(Entry(q.0, Get(t, q.0)), q.1)
      invariant forall dc, h' :: Has(t, dc) && 0 <= h' < h ==> (dc, h') in f
    {
      var k := 0;
      while k < |t|
        invariant 0 <= k <= |t|
        invariant forall q :: q in f ==> Has(t, q.0) && 0 <= q.1 <= h
                                         && (q.1 == h ==> IndexOf(t, q.0) < k)
                                         && f[q] == DefaultAt(Entry(q.0, Get(t, q.0)), q.1)
        invariant forall dc, h' :: Has(t, dc) && (0 <= h' < h || (h' == h && IndexOf(t, dc) < k)) ==> (dc, h') in f
      {
        var e := t[k];
        assert IndexOf(t, e.dc) == k;
        assert e == Entry(e.dc, Get(t, e.dc));
        var variation := ((h % 8) as real - 4.0) * 10.0;
        var r := Reading(Max(MinCarbonThreshold, e.site.intensity + variation), e.site.renewable);
        assert r == DefaultAt(e, h);
        f := f[(e.dc, h) := r];
        k := k + 1;
      }
      h := h + 1;
    }
    assert h == hours || (hours < 0 && h == 0);
    IsSpread(f, t, hours, DefaultAt);
  }

  /** `_get_default_forecast`. */
  method BuildDefaultForecast(hours: int) returns (f: Forecast)
    ensures f == DefaultForecast(hours)
  {
    DefaultCarbonIsClean();
    f := BuildVaried(DefaultCarbon, hours);
  }

  // ---------------------------------------------------------------------
  // The client and its cache
  // ---------------------------------------------------------------------

  /** The cache keys `'current_all'` and `f'forecast_{hours}'`. */
  datatype CacheKey = CurrentAll | ForecastFor(hours: int)

  datatype Payload = Current(table: Table) | Predicted(forecast: Forecast)

  /** Python truthiness of a cached dict: an empty one counts as a miss. */
  predicate NonEmpty(p: Payload) {
    match p
    case Current(t) => t != []
    case Predicted(f) => f != map[]
  }

  /** What the client ever stores under a key: current readings that are a
      dict respecting the threshold, or a forecast respecting it. */
  predicate Fits(key: CacheKey, p: Payload) {
    match key
    case CurrentAll => p.Current? && Keyed(p.table) && AtLeastFloor(p.table)
    case ForecastFor(_) => p.Predicted? && forall q :: q in p.forecast ==> p.forecast[q].intensity >= MinCarbonThreshold
  }

  /** Whether `get_current_intensity` fetches and caches fresh data. */
  predicate FetchesCurrent(cached: Option<Payload>, response: Option<seq<seq<Region>>>) {
    !(cached.Some? && NonEmpty(cached.value)) && response.Some? && response.value != []
  }

  /** What `get_current_intensity` returns, given the cache lookup and the
      response's `data` list (`None` when the request failed): a non-empty
      cached dict, else the default data when the request failed or `data` is
      empty, else the thresholded aggregate of the first element's regions. */
  function CurrentFrom(cached: Option<Payload>, response: Option<seq<seq<Region>>>): (r: Table)
    requires cached.Some? ==> Fits(CurrentAll, cached.value)
    ensures Keyed(r) && AtLeastFloor(r)
    ensures r == [] ==> FetchesCurrent(cached, response)
  {
    if cached.Some? && NonEmpty(cached.value) then cached.value.table
    else if !FetchesCurrent(cached, response) then (DefaultCarbonIsClean(); DefaultCarbon)
    else
      var t := Aggregate(RegionMapping, response.value[0]);
      AggregateKeepsFirstLowest(RegionMapping, response.value[0]);
      ThresholdKeepsAtLeastThree(t);
      Thresholded(t)
  }

  /** Whatever path it takes, `get_current_intensity` hands out a dict whose
      every intensity is at least the threshold, so their mean is too; and
      fresh data that covers at least three datacenters keeps at least three. */
  lemma CurrentRespectsThreshold(cached: Option<Payload>, response: Option<seq<seq<Region>>>)
    requires cached.Some? ==> Fits(CurrentAll, cached.value)
    ensures Keyed(CurrentFrom(cached, response)) && AtLeastFloor(CurrentFrom(cached, response))
    ensures Average(CurrentFrom(cached, response)) >= MinCarbonThreshold
    ensures FetchesCurrent(cached, response) && |Aggregate(RegionMapping, response.value[0])| >= MinSurvivors ==>
              |CurrentFrom(cached, response)| >= MinSurvivors
  {
    var r := CurrentFrom(cached, response);
    if cached.Some? && NonEmpty(cached.value) {
    } else if !FetchesCurrent(cached, response) {
      DefaultCarbonIsClean();
    } else {
      var t := Aggregate(RegionMapping, response.value[0]);
      AggregateKeepsFirstLowest(RegionMapping, response.value[0]);
      ThresholdKeepsAtLeastThree(t);
    }
    AverageAtLeastFloor(r);
  }

  /** What `get_forecast` returns, given its cache lookup, the forecast
      response (`None` when the request failed) and the current readings.
      Every forecast it hands out, cached, default or scaled, respects the
      threshold, so it may be cached again. */
  function ForecastFrom(cached: Option<Payload>, hours: int, response: Option<seq<Option<real>>>, current: Table): (f: Forecast)
    requires cached.Some? ==> Fits(ForecastFor(hours), cached.value)
    requires Keyed(current)
    ensures Fits(ForecastFor(hours), Predicted(f))
  {
    if cached.Some? && NonEmpty(cached.value) then cached.value.forecast
    else if response.None? then
      DefaultForecastCycles(hours);
      var f := DefaultForecast(hours);
      assert forall q :: q in f ==> (q.0, q.1) in f;
      f
    else
      ScaledForecastCoversGrid(current, response.value, hours);
      ScaledForecast(current, response.value, hours)
  }

  class CarbonApiClient {
    /** `cache_ttl`, in minutes; every `now` is minutes on the same clock. */
    const ttl: real
    var cache: map<CacheKey, Payload>
    var stamps: map<CacheKey, real>

    ghost predicate Valid()
      reads this
    {
      cache.Keys == stamps.Keys && forall key :: key in cache ==> Fits(key, cache[key])
    }

    constructor(ttlMinutes: int)
      ensures Valid()
      ensures ttl == ttlMinutes as real && cache == map[] && stamps == map[]
    {
      ttl := ttlMinutes as real;
      cache := map[];
      stamps := map[];
    }

    /** `_is_cache_valid`: stored less than the time-to-live ago. */
    predicate IsCacheValid(key: CacheKey, now: real)
      reads this
    {
      key in stamps && now - stamps[key] < ttl
    }

    /** `_get_cached`. */
    function GetCached(key: CacheKey, now: real): (r: Option<Payload>)
      reads this
      requires Valid()
      ensures r.Some? <==> IsCacheValid(key, now)
      ensures r.Some? ==> key in cache && r.value == cache[key] && Fits(key, r.value)
    {
      if IsCacheValid(key, now) then Some(cache[key]) else None
    }

    /** `_set_cache`: a lookup less than the time-to-live later finds `data`;
        nothing else changes. */
    method SetCache(key: CacheKey, data: Payload, now: real)
      requires Valid() && Fits(key, data)
      modifies this
      ensures Valid()
      ensures cache == old(cache)[key := data] && stamps == old(stamps)[key := now]
      ensures forall later :: later - now < ttl ==> GetCached(key, later) == Some(data)
      ensures forall later :: later - now >= ttl ==> GetCached(key, later) == None
    {
      cache := cache[key := data];
      stamps := stamps[key := now];
    }

    /** `clear_cache`: every later lookup misses. */
    method ClearCache()
      modifies this
      ensures Valid()
      ensures cache == map[] && stamps == map[]
      ensures forall key, later :: GetCached(key, later) == None
    {
      cache := map[];
      stamps := map[];
    }

    /** `get_current_intensity`; `response` is the `data` list of the
        `/regional` response, `None` when the request failed. */
    method GetCurrentIntensity(now: real, response: Option<seq<seq<Region>>>) returns (r: Table)
      requires Valid()
      modifies this
      ensures Valid()
      ensures r == CurrentFrom(old(GetCached(CurrentAll, now)), response)
      ensures Keyed(r) && AtLeastFloor(r)
      ensures FetchesCurrent(old(GetCached(CurrentAll, now)), response) ==>
                cache == old(cache)[CurrentAll := Current(r)] && stamps == old(stamps)[CurrentAll := now]
      ensures !FetchesCurrent(old(GetCached(CurrentAll, now)), response) ==>
                cache == old(cache) && stamps == old(stamps)
    {
      var cached := GetCached(CurrentAll, now);
      CurrentRespectsThreshold(cached, response);
      if cached.Some? && NonEmpty(cached.value) {
        return cached.value.table;
      }
      if response.None? || response.value == [] {
        return DefaultCarbon;
      }
      var result := AggregateRegions(response.value[0]);
      r := ApplyThreshold(result);
      SetCache(CurrentAll, Current(r), now);
    }

    /** `get_forecast`; `response` is the national forecasts of the
        `/intensity` response, `None` when the request failed, and
        `currentResponse` is what `get_current_intensity` will fetch. */
    method GetForecast(hours: int, now: real, response: Option<seq<Option<real>>>,
                       currentResponse: Option<seq<seq<Region>>>) returns (f: Forecast)
      requires Valid()
      modifies this
      ensures Valid()
      ensures Keyed(CurrentFrom(old(GetCached(CurrentAll, now)), currentResponse))
      ensures f == ForecastFrom(old(GetCached(ForecastFor(hours), now)), hours, response,
                                CurrentFrom(old(GetCached(CurrentAll, now)), currentResponse))
      ensures forall q :: q in f ==> f[q].intensity >= MinCarbonThreshold
      ensures ((old(GetCached(ForecastFor(hours), now)).Some? && NonEmpty(old(GetCached(ForecastFor(hours), now)).value))
               || response.None?) ==> cache == old(cache) && stamps == old(stamps)
      ensures var oc := old(GetCached(CurrentAll, now));
              var of := old(GetCached(ForecastFor(hours), now));
              var fetched := FetchesCurrent(oc, currentResponse);
              !(of.Some? && NonEmpty(of.value)) && response.Some? ==>
                && cache == (if fetched then old(cache)[CurrentAll := Current(CurrentFrom(oc, currentResponse))]
                             else old(cache))[ForecastFor(hours) := Predicted(f)]
                && stamps == (if fetched then old(stamps)[CurrentAll := now] else old(stamps))[ForecastFor(hours) := now]
    {
      ghost var cachedCurrent := GetCached(CurrentAll, now);
      CurrentRespectsThreshold(cachedCurrent, currentResponse);
      var cached := GetCached(ForecastFor(hours), now);
      ghost var expected := ForecastFrom(cached, hours, response, CurrentFrom(cachedCurrent, currentResponse));
      if cached.Some? && NonEmpty(cached.value) {
        return cached.value.forecast;
      }
      if response.None? {
        f := BuildDefaultForecast(hours);
        return;
      }
      var current := GetCurrentIntensity(now, currentResponse);
      f := BuildForecast(current, response.value, hours);
      SetCache(ForecastFor(hours), Predicted(f), now);
    }
  }
}
