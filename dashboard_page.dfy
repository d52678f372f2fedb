/** The dashboard's derived views: the headline counters and the per-location
    bar chart data. */
module DashboardPage {
  import opened Wrappers
  import opened Types
  import opened ArrayOps
  import opened Text
  import Api

  /** The six headline counters. */
  datatype Stats = Stats(
    total: int,
    inventoried: int,
    notInventoried: int,
    active: int,
    inactive: int,
    writtenOff: int)

  predicate IsInventoried(a: Asset) { a.inventariado == 1 }
  predicate IsNotInventoried(a: Asset) { a.inventariado == 0 }
  predicate AnyAsset(a: Asset) { true }

  function HasStatus(s: AssetStatus): Asset -> bool
  {
    (a: Asset) => a.situacao == s
  }

  /** The headline counters over all assets; "not inventoried" is derived
      by subtraction. */
  function DashboardStats(assets: seq<Asset>): (s: Stats)
    ensures assets == [] ==> s == Stats(0, 0, 0, 0, 0, 0)
    ensures s.total == |assets|
    ensures 0 <= s.inventoried <= s.total && 0 <= s.notInventoried <= s.total
    ensures s.inventoried + s.notInventoried == s.total
    ensures 0 <= s.active && 0 <= s.inactive && 0 <= s.writtenOff
  {
    var total := |assets|;
    var inventoried := Count(assets, IsInventoried);
    Stats(total, inventoried, total - inventoried,
          Count(assets, HasStatus(Ativo)),
          Count(assets, HasStatus(Inativo)),
          Count(assets, HasStatus(Baixado)))
  }

  /** Every asset has exactly one of the three states. */
  lemma {:induction false} StatusCountsPartition(assets: seq<Asset>)
    ensures Count(assets, HasStatus(Ativo)) + Count(assets, HasStatus(Inativo)) +
            Count(assets, HasStatus(Baixado)) == |assets|
  {
    if assets != [] {
      StatusCountsPartition(assets[1..]);
    }
  }

  /** Adding one asset raises the total by one, raises inventoried or
      not-inventoried by one according to its flag, and raises the counter
      of its own status by one; the other counters stay as they were. */
  lemma StatsSnoc(assets: seq<Asset>, a: Asset)
    ensures var s := DashboardStats(assets);
            DashboardStats(assets + [a]) ==
            Stats(s.total + 1,
                  s.inventoried + (if a.inventariado == 1 then 1 else 0),
                  s.notInventoried + (if a.inventariado == 1 then 0 else 1),
                  s.active + (if a.situacao == Ativo then 1 else 0),
                  s.inactive + (if a.situacao == Inativo then 1 else 0),
                  s.writtenOff + (if a.situacao == Baixado then 1 else 0))
  {
    FilterSnoc(assets, a, IsInventoried);
    FilterSnoc(assets, a, HasStatus(Ativo));
    FilterSnoc(assets, a, HasStatus(Inativo));
    FilterSnoc(assets, a, HasStatus(Baixado));
  }

  /** The counters agree with each other: the subtraction gives exactly the
      count of assets flagged 0, which is never negative, and the three
      status counters add up to the total. */
  lemma StatsIdentities(assets: seq<Asset>)
    ensures DashboardStats(assets).total == |assets|
    ensures DashboardStats(assets).inventoried <= DashboardStats(assets).total
    ensures DashboardStats(assets).notInventoried == Count(assets, IsNotInventoried)
    ensures DashboardStats(assets).notInventoried >= 0
    ensures DashboardStats(assets).active + DashboardStats(assets).inactive +
            DashboardStats(assets).writtenOff == DashboardStats(assets).total
  {
    CountComplement(assets, IsInventoried, IsNotInventoried);
    StatusCountsPartition(assets);
  }

  /** One bar of the chart: a location's label, its number of assets and
      how many of those are inventoried. */
  datatype LocationBar = LocationBar(name: string, total: int, inventoried: int)

  function LocalOf(a: Asset): int { a.local_fisico }

  function AtLocation(id: int): Asset -> bool
  {
    (a: Asset) => a.local_fisico == id
  }

  /** The assets placed at one location, in order. */
  function LocationAssets(assets: seq<Asset>, id: int): seq<Asset>
  {
    Filter(assets, AtLocation(id))
  }

  /** The label of a location: the description of the first location with
      that code (as `findIndex` locates it), or "Local <code>" when there is
      no such location or its description is empty. */
  function LocationName(locations: seq<Location>, id: int): (name: string)
    ensures name != ""
    ensures (forall j :: 0 <= j < |locations| ==> locations[j].cod_local != id) ==>
              name == "Local " + IntToString(id)
    ensures FindIndex(locations, Api.LocationCodeIs(id)).Some? ==>
              var l := locations[FindIndex(locations, Api.LocationCodeIs(id)).value];
              l.cod_local == id &&
              name == if l.descricao != "" then l.descricao else "Local " + IntToString(id)
  {
    match Find(locations, Api.LocationCodeIs(id))
    case Some(l) => if l.descricao != "" then l.descricao else "Local " + IntToString(id)
    case None => "Local " + IntToString(id)
  }

  /** The bar of one location code: its label, and how many assets (and how
      many inventoried assets) sit there. */
  function Bar(assets: seq<Asset>, locations: seq<Location>, id: int): (bar: LocationBar)
    ensures bar.name != ""
    ensures 0 <= bar.inventoried <= bar.total <= |assets|
    ensures bar.total > 0 <==> exists i :: 0 <= i < |assets| && assets[i].local_fisico == id
  {
    var group := LocationAssets(assets, id);
    assert |group| > 0 <==> exists i :: 0 <= i < |assets| && assets[i].local_fisico == id by {
      if exists i :: 0 <= i < |assets| && assets[i].local_fisico == id {
        var i :| 0 <= i < |assets| && assets[i].local_fisico == id;
        assert assets[i] in group;
      }
      if |group| > 0 {
        assert group[0] in assets;
      }
    }
    LocationBar(LocationName(locations, id), |group|, Count(group, IsInventoried))
  }

  /** The bars for a list of location codes: one per code, in the same order. */
  function BarsFor(assets: seq<Asset>, locations: seq<Location>, ids: seq<int>): (bars: seq<LocationBar>)
    ensures |bars| == |ids|
  {
    if ids == [] then []
    else BarsFor(assets, locations, ids[..|ids| - 1]) + [Bar(assets, locations, ids[|ids| - 1])]
  }

  /** The bar at position `k` is the bar of the `k`-th code. */
  lemma {:induction false} BarsForAt(assets: seq<Asset>, locations: seq<Location>, ids: seq<int>, k: nat)
    requires k < |ids|
    ensures BarsFor(assets, locations, ids)[k] == Bar(assets, locations, ids[k])
  {
    if k < |ids| - 1 {
      BarsForAt(assets, locations, ids[..|ids| - 1], k);
    }
  }

  /** Extending the code list by one appends that code's bar. */
  lemma BarsForSnoc(assets: seq<Asset>, locations: seq<Location>, ids: seq<int>, k: nat)
    requires k < |ids|
    ensures BarsFor(assets, locations, ids[..k + 1]) == BarsFor(assets, locations, ids[..k]) + [Bar(assets, locations, ids[k])]
  {
    assert ids[..k + 1][..k] == ids[..k];
  }

  /** The distinct location codes among the assets, in first-occurrence order. */
  function ChartLocations(assets: seq<Asset>): (ids: seq<int>)
    ensures NoDuplicates(ids)
    ensures forall i :: 0 <= i < |assets| ==> assets[i].local_fisico in ids
    ensures forall id :: id in ids ==> exists i :: 0 <= i < |assets| && assets[i].local_fisico == id
  {
    Distinct(Map(assets, LocalOf))
  }

  /** The chart: one bar per distinct location code among the assets. */
  function ChartBars(assets: seq<Asset>, locations: seq<Location>): (bars: seq<LocationBar>)
    ensures |bars| == |ChartLocations(assets)|
  {
    BarsFor(assets, locations, ChartLocations(assets))
  }

  /** Builds the chart bars one location at a time, appending each bar. */
  method ChartData(assets: seq<Asset>, allLocations: seq<Location>) returns (data: seq<LocationBar>)
    ensures data == ChartBars(assets, allLocations)
  {
    var ids := Distinct(Map(assets, LocalOf));
    data := [];
    var k := 0;
    while k < |ids|
      invariant 0 <= k <= |ids|
      invariant data == BarsFor(assets, allLocations, ids[..k])
    {
      var id := ids[k];
      var group := Filter(assets, AtLocation(id));
      var bar := LocationBar(LocationName(allLocations, id), |group|, Count(group, IsInventoried));
      BarsForSnoc(assets, allLocations, ids, k);
      data := data + [bar];
      k := k + 1;
    }
    assert ids[..|ids|] == ids;
  }

  /** The chart has one bar per distinct location code among the assets, in
      first-occurrence order; only codes that some asset uses appear, so
      every bar counts at least one asset, and no bar counts more inventoried
      assets than assets. */
  lemma ChartGroups(assets: seq<Asset>, locations: seq<Location>)
    ensures |ChartBars(assets, locations)| == |ChartLocations(assets)|
    ensures NoDuplicates(ChartLocations(assets))
    ensures forall k :: 0 <= k <= |assets| ==> ChartLocations(assets[..k]) <= ChartLocations(assets)
    ensures forall id :: id in ChartLocations(assets) <==>
                         exists i :: 0 <= i < |assets| && assets[i].local_fisico == id
    ensures forall k :: 0 <= k < |ChartLocations(assets)| ==>
              ChartBars(assets, locations)[k] == Bar(assets, locations, ChartLocations(assets)[k])
    ensures forall k :: 0 <= k < |ChartBars(assets, locations)| ==>
              1 <= ChartBars(assets, locations)[k].total &&
              ChartBars(assets, locations)[k].inventoried <= ChartBars(assets, locations)[k].total
  {
    var ids := ChartLocations(assets);
    forall k | 0 <= k <= |assets|
      ensures ChartLocations(assets[..k]) <= ids
    {
      assert Map(assets[..k], LocalOf) == Map(assets, LocalOf)[..k];
      DistinctOfPrefix(Map(assets, LocalOf), k);
    }
    forall k | 0 <= k < |ids|
      ensures ChartBars(assets, locations)[k] == Bar(assets, locations, ids[k])
    {
      BarsForAt(assets, locations, ids, k);
    }
    forall k | 0 <= k < |ids|
      ensures 1 <= Bar(assets, locations, ids[k]).total
    {
      assert ids[k] in ids;
    }
  }

  // Sums over the bars, and the per-location counting facts behind them.

  function SumTotals(bars: seq<LocationBar>): int
  {
    if bars == [] then 0 else SumTotals(bars[..|bars| - 1]) + bars[|bars| - 1].total
  }

  function SumInventoried(bars: seq<LocationBar>): int
  {
    if bars == [] then 0 else SumInventoried(bars[..|bars| - 1]) + bars[|bars| - 1].inventoried
  }

  /** Sum over the codes `ids` of the number of assets at that code satisfying `q`. */
  function GroupCount(assets: seq<Asset>, ids: seq<int>, q: Asset -> bool): int
  {
    if ids == [] then 0
    else GroupCount(assets, ids[..|ids| - 1], q) + Count(LocationAssets(assets, ids[|ids| - 1]), q)
  }

  function Occurrences(ids: seq<int>, x: int): nat
  {
    if ids == [] then 0
    else Occurrences(ids[..|ids| - 1], x) + (if ids[|ids| - 1] == x then 1 else 0)
  }

  lemma {:induction false} OccurrencesUnique(ids: seq<int>, x: int)
    requires NoDuplicates(ids)
    ensures Occurrences(ids, x) == if x in ids then 1 else 0
  {
    if ids != [] {
      var init := ids[..|ids| - 1];
      assert ids == init + [ids[|ids| - 1]];
      OccurrencesUnique(init, x);
    }
  }

  lemma CountPeel(assets: seq<Asset>, id: int, q: Asset -> bool)
    requires assets != []
    ensures Count(LocationAssets(assets, id), q) ==
            Count(LocationAssets(assets[1..], id), q) +
            (if assets[0].local_fisico == id && q(assets[0]) then 1 else 0)
  {
    var rest := LocationAssets(assets[1..], id);
    if assets[0].local_fisico == id {
      assert LocationAssets(assets, id) == [assets[0]] + rest;
      assert ([assets[0]] + rest)[1..] == rest;
    } else {
      assert LocationAssets(assets, id) == rest;
    }
  }

  lemma {:induction false} GroupCountPeel(assets: seq<Asset>, ids: seq<int>, q: Asset -> bool)
    requires assets != []
    ensures GroupCount(assets, ids, q) ==
            GroupCount(assets[1..], ids, q) +
            (if q(assets[0]) then Occurrences(ids, assets[0].local_fisico) else 0)
  {
    if ids != [] {
      GroupCountPeel(assets, ids[..|ids| - 1], q);
      CountPeel(assets, ids[|ids| - 1], q);
    }
  }

  lemma {:induction false} GroupCountNoAssets(ids: seq<int>, q: Asset -> bool)
    ensures GroupCount([], ids, q) == 0
  {
    if ids != [] {
      GroupCountNoAssets(ids[..|ids| - 1], q);
    }
  }

  /** Summing per-location counts over codes that cover every asset, each
      code once, counts every asset exactly once. */
  lemma {:induction false} GroupCountCovers(assets: seq<Asset>, ids: seq<int>, q: Asset -> bool)
    requires NoDuplicates(ids)
    requires forall i :: 0 <= i < |assets| ==> assets[i].local_fisico in ids
    ensures GroupCount(assets, ids, q) == Count(assets, q)
  {
    if assets == [] {
      GroupCountNoAssets(ids, q);
    } else {
      GroupCountPeel(assets, ids, q);
      OccurrencesUnique(ids, assets[0].local_fisico);
      GroupCountCovers(assets[1..], ids, q);
    }
  }

  lemma {:induction false} BarSums(assets: seq<Asset>, locations: seq<Location>, ids: seq<int>)
    ensures SumTotals(BarsFor(assets, locations, ids)) == GroupCount(assets, ids, AnyAsset)
    ensures SumInventoried(BarsFor(assets, locations, ids)) == GroupCount(assets, ids, IsInventoried)
  {
    if ids != [] {
      var init := ids[..|ids| - 1];
      var bars := BarsFor(assets, locations, ids);
      assert bars[..|bars| - 1] == BarsFor(assets, locations, init);
      BarSums(assets, locations, init);
      FilterKeepsAll(LocationAssets(assets, ids[|ids| - 1]), AnyAsset);
    }
  }

  /** The bar totals add up to the number of assets, and the bars'
      inventoried counts add up to the headline inventoried counter. */
  lemma ChartTotals(assets: seq<Asset>, locations: seq<Location>)
    ensures SumTotals(ChartBars(assets, locations)) == |assets|
    ensures SumInventoried(ChartBars(assets, locations)) == DashboardStats(assets).inventoried
  {
    var ids := ChartLocations(assets);
    forall i | 0 <= i < |assets|
      ensures assets[i].local_fisico in ids
    {
      assert Map(assets, LocalOf)[i] == assets[i].local_fisico;
    }
    BarSums(assets, locations, ids);
    GroupCountCovers(assets, ids, AnyAsset);
    GroupCountCovers(assets, ids, IsInventoried);
    FilterKeepsAll(assets, AnyAsset);
  }
}
