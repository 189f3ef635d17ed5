/**
 * The value-level specification of `make_routes` / `create_source_nodes`:
 * the tree of a route is obtained by walking, for every node name, the
 * reactions whose target is that name and, within each, its sources.
 *
 * Termination rests on a ranking `rank` of SMILES strings. Its domain holds
 * the names being expanded, and it strictly drops from a reaction's target in
 * the domain to every source that is expanded further (one that resolves to a
 * non-building-block molecule), which is then in the domain too. The Python
 * code has no cycle guard: on a cycle reachable from the expanded name it
 * recurses until it hits its recursion limit and raises `RecursionError`, and
 * the model excludes that by this precondition. Cycles among
 * names outside the domain, which the walk never reaches, are allowed.
 */
module RouteTreeSpec {
  import opened Wrappers
  import opened Routes

  /** The fixed SMILES string `make_routes` roots every tree at, whatever the route. */
  const RootSmiles: string := "O=C(Cn1nnc2ccccc21)N(Cc1ccsc1)c1ccc(Cl)cc1"

  /** One step of the walk: source `source` of reaction `reaction`. */
  datatype Edge = Edge(reaction: Reaction, source: string)

  /** The source of an edge resolves to a molecule that is not a building block. */
  predicate Expandable(data: Route, source: string) {
    match FindMolecule(data.molecules, source)
    case None => false
    case Some(m) => !m.isBuildingBlock
  }

  /**
   * From every ranked target, every source the builder expands further is
   * ranked too, and ranked strictly lower.
   */
  predicate Ranked(data: Route, rank: map<string, nat>) {
    forall r, s :: r in data.reactions && r.target in rank && s in r.sources && Expandable(data, s) ==>
      s in rank && rank[s] < rank[r.target]
  }

  /** The edges of one reaction, in the order of its `sources`. */
  function ReactionEdges(r: Reaction): seq<Edge> {
    seq(|r.sources|, k requires 0 <= k < |r.sources| => Edge(r, r.sources[k]))
  }

  /**
   * The edges leaving node `name`: for every reaction of `rs` whose target is
   * `name`, in list order, the edges of its sources, in list order.
   */
  function Edges(rs: seq<Reaction>, name: string): (es: seq<Edge>)
    ensures forall k :: 0 <= k < |es| ==>
      es[k].reaction in rs && es[k].reaction.target == name && es[k].source in es[k].reaction.sources
  {
    if rs == [] then []
    else (if rs[0].target == name then ReactionEdges(rs[0]) else []) + Edges(rs[1..], name)
  }

  /** An edge of node `name` within route `data`. */
  predicate EdgeOf(data: Route, name: string, e: Edge) {
    e.reaction in data.reactions && e.reaction.target == name && e.source in e.reaction.sources
  }

  /** The attributes the child for edge `e` records about molecule `m`. */
  function ChildAttributes(m: Molecule, e: Edge): Attributes {
    Attributes(|m.catalogEntries|, e.reaction.name, e.reaction.smartsTemplate)
  }

  /** The children `create_source_nodes` appends to a node named `name`. */
  function Expand(data: Route, name: string, rank: map<string, nat>): Result<seq<TreeNode>, LookupError>
    requires Ranked(data, rank) && name in rank
    decreases rank[name], 2
  {
    BuildChildren(data, name, Edges(data.reactions, name), rank)
  }

  /** The children built for the edges `es` of node `name`, stopping at the first failure. */
  function BuildChildren(data: Route, name: string, es: seq<Edge>, rank: map<string, nat>): Result<seq<TreeNode>, LookupError>
    requires Ranked(data, rank) && name in rank
    requires forall e :: e in es ==> EdgeOf(data, name, e)
    decreases rank[name], 1, |es|
  {
    if es == [] then Ok([])
    else
      match MakeChild(data, name, es[0], rank)
      case Err(x) => Err(x)
      case Ok(c) =>
        match BuildChildren(data, name, es[1..], rank)
        case Err(x) => Err(x)
        case Ok(cs) => Ok([c] + cs)
  }

  /**
   * The child for one edge: look the source up, record its catalog-entry
   * count and the reaction's name and template, and expand it unless the
   * molecule is a building block.
   */
  function MakeChild(data: Route, name: string, e: Edge, rank: map<string, nat>): Result<TreeNode, LookupError>
    requires Ranked(data, rank) && name in rank
    requires EdgeOf(data, name, e)
    decreases rank[name], 0
  {
    match FindMolecule(data.molecules, e.source)
    case None => Err(LookupFailure(e.source))
    case Some(m) =>
      if m.isBuildingBlock then Ok(TreeNode(e.source, ChildAttributes(m, e), []))
      else
        assert Expandable(data, e.source);
        match Expand(data, e.source, rank)
        case Err(x) => Err(x)
        case Ok(cs) => Ok(TreeNode(e.source, ChildAttributes(m, e), cs))
  }

  /**
   * `make_routes(index)` on the selected route: the route with its `tree`
   * key set to the tree rooted at `RootSmiles`, or the lookup failure.
   */
  function BuildRoute(route: Route, rank: map<string, nat>): (r: Result<Route, LookupError>)
    requires Ranked(route, rank) && RootSmiles in rank
    ensures r.Ok? ==> r.value.score == route.score && r.value.molecules == route.molecules &&
                      r.value.reactions == route.reactions
    ensures r.Ok? ==> r.value.tree.Some? && r.value.tree.value.root == RootSmiles &&
                      r.value.tree.value.name == RootSmiles &&
                      Expand(route, RootSmiles, rank) == Ok(r.value.tree.value.children)
    ensures r.Err? <==> Expand(route, RootSmiles, rank).Err?
    ensures r.Err? ==> r.error == Expand(route, RootSmiles, rank).error
  {
    match Expand(route, RootSmiles, rank)
    case Err(x) => Err(x)
    case Ok(cs) => Ok(route.(tree := Some(RouteTree(RootSmiles, RootSmiles, cs))))
  }
}
