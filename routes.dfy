/**
 * The records of the route dataset (`app/routes.json`) and the first-match
 * molecule lookup used by both the tree builder and the molecule-details
 * endpoint.
 */
module Routes {
  import opened Wrappers

  /** A route's score: a JSON number that is only ever copied. */
  type Score = real

  /** One purchasable-catalog entry of a molecule; only how many there are matters. */
  datatype CatalogEntry = CatalogEntry(json: string)

  /** A molecule record, keyed by its SMILES string. */
  datatype Molecule = Molecule(smiles: string, catalogEntries: seq<CatalogEntry>, isBuildingBlock: bool)

  /** A reaction: `target` is produced from the molecules named in `sources`. */
  datatype Reaction = Reaction(target: string, sources: seq<string>, name: string, smartsTemplate: string)

  /** The `attributes` dictionary that every non-root tree node carries. */
  datatype Attributes = Attributes(catalogEntriesCount: nat, reactionName: string, smartsTemplate: string)

  /** A non-root node of the route tree, as the `__dict__` of a built `Node`. */
  datatype TreeNode = TreeNode(name: string, attributes: Attributes, children: seq<TreeNode>)

  /** The root of the route tree, as the `__dict__` of the `Tree` object. */
  datatype RouteTree = RouteTree(root: string, name: string, children: seq<TreeNode>)

  /** One route of the dataset; `tree` is the key that `make_routes` sets. */
  datatype Route = Route(score: Score, molecules: seq<Molecule>, reactions: seq<Reaction>, tree: Option<RouteTree>)

  /**
   * A lookup that found no molecule with the requested SMILES. Python raises a
   * bare `StopIteration` there; the model also records the missing SMILES.
   */
  datatype LookupError = LookupFailure(smiles: string)

  /**
   * The first molecule in list order whose SMILES is `smiles`, or None when
   * there is none (where Python's lookup raises).
   */
  function FindMolecule(molecules: seq<Molecule>, smiles: string): (r: Option<Molecule>)
    ensures r.None? <==> forall i :: 0 <= i < |molecules| ==> molecules[i].smiles != smiles
    ensures r.Some? ==> exists i :: 0 <= i < |molecules| && molecules[i] == r.value &&
                                    r.value.smiles == smiles &&
                                    forall j :: 0 <= j < i ==> molecules[j].smiles != smiles
  {
    if |molecules| == 0 then None
    else if molecules[0].smiles == smiles then Some(molecules[0])
    else
      var rest := FindMolecule(molecules[1..], smiles);
      assert forall i :: 1 <= i < |molecules| ==> molecules[i] == molecules[1..][i - 1];
      rest
  }

  /**
   * `get_molecule_details`: the first molecule of route `index` whose SMILES
   * is `smiles`, or the lookup failure naming it.
   */
  function GetMoleculeDetails(routesData: seq<Route>, smiles: string, index: nat): (r: Result<Molecule, LookupError>)
    requires index < |routesData|
    ensures r.Err? <==> forall i :: 0 <= i < |routesData[index].molecules| ==> routesData[index].molecules[i].smiles != smiles
    ensures r.Err? ==> r.error == LookupFailure(smiles)
    ensures r.Ok? ==> exists i :: 0 <= i < |routesData[index].molecules| &&
                                  routesData[index].molecules[i] == r.value && r.value.smiles == smiles &&
                                  forall j :: 0 <= j < i ==> routesData[index].molecules[j].smiles != smiles
  {
    var singleroute := routesData[index];
    match FindMolecule(singleroute.molecules, smiles)
    case None => Err(LookupFailure(smiles))
    case Some(m) => Ok(m)
  }
}
