/** `get_routes_list`: one summary record per route of the dataset. */
module RouteSummaries {
  import opened Routes

  /** The `{id, score, building_blocks}` record of one route. */
  datatype RouteSummary = RouteSummary(id: nat, score: Score, buildingBlocks: nat)

  /** The number of molecules of the list whose building-block flag is set. */
  function BuildingBlockCount(molecules: seq<Molecule>): (r: nat)
    ensures r <= |molecules|
  {
    if molecules == [] then 0
    else BuildingBlockCount(molecules[..|molecules| - 1]) + (if molecules[|molecules| - 1].isBuildingBlock then 1 else 0)
  }

  /** The positions of the building blocks among the first `n` molecules. */
  ghost function BuildingBlockPositions(molecules: seq<Molecule>, n: nat): set<nat>
    requires n <= |molecules|
  {
    set i: nat | i < n && molecules[i].isBuildingBlock
  }

  /** The count over the first `n` molecules is the number of building-block positions among them. */
  lemma {:induction false} CountIsPositions(molecules: seq<Molecule>, n: nat)
    requires n <= |molecules|
    ensures BuildingBlockCount(molecules[..n]) == |BuildingBlockPositions(molecules, n)|
  {
    if n == 0 {
      assert BuildingBlockPositions(molecules, 0) == {};
    } else {
      CountIsPositions(molecules, n - 1);
      assert molecules[..n][..n - 1] == molecules[..n - 1];
      var before := BuildingBlockPositions(molecules, n - 1);
      if molecules[n - 1].isBuildingBlock {
        assert BuildingBlockPositions(molecules, n) == before + {n - 1};
      } else {
        assert BuildingBlockPositions(molecules, n) == before;
      }
    }
  }

  /**
   * The building-block count is the number of positions whose molecule has
   * `is_building_block` set.
   */
  lemma BuildingBlockCountCounts(molecules: seq<Molecule>)
    ensures BuildingBlockCount(molecules) == |BuildingBlockPositions(molecules, |molecules|)|
  {
    CountIsPositions(molecules, |molecules|);
    assert molecules[..|molecules|] == molecules;
  }

  /**
   * `get_routes_list()`: enumerate the routes and record, for the route at
   * position `index`, its index as `id`, its score and its building-block count.
   */
  method GetRoutesList(routesData: seq<Route>) returns (routesList: seq<RouteSummary>)
    ensures |routesList| == |routesData|
    ensures forall index :: 0 <= index < |routesData| ==>
      routesList[index] == RouteSummary(index, routesData[index].score, BuildingBlockCount(routesData[index].molecules))
  {
    routesList := [];
    for index := 0 to |routesData|
      invariant |routesList| == index
      invariant forall k :: 0 <= k < index ==>
        routesList[k] == RouteSummary(k, routesData[k].score, BuildingBlockCount(routesData[k].molecules))
    {
      var route := routesData[index];
      var routeData := RouteSummary(index, route.score, BuildingBlockCount(route.molecules));
      routesList := routesList + [routeData];
    }
  }
}
