# Synthesis-route tree builder, modelled and verified in Dafny

The backend serves precomputed synthesis routes from a JSON dataset. Each
route is a list of molecules (keyed by SMILES string, with catalog entries
and a building-block flag), a list of reactions (a target SMILES made from a
list of source SMILES, with a name and a SMARTS template) and a score. This
project models the three pieces of `app/api.py` that carry logic:

- **the route-tree builder** (`make_routes` with its `Tree`/`Node` classes and
  the recursive `create_source_nodes`). For a node named `s` it visits every
  reaction whose target is `s` and, within it, every source. For each source
  it looks up the molecule and builds a child that records the source name,
  the catalog-entry count, the reaction name and the SMARTS template. It
  expands that child the same way unless the molecule is a building block,
  then appends it. The tree is rooted at a fixed SMILES string, whatever the
  route.
- **the first-match molecule lookup** (`next(...)` over the molecule list).
  It is used by the builder and by `get_molecule_details`.
- **the route summary listing** (`get_routes_list`). It gives one
  `{id, score, building_blocks}` record per route, in dataset order.

Files:

- `wrappers.dfy`: `Option` and `Result`.
- `routes.dfy`: the records, the lookup and `GetMoleculeDetails`.
- `route_tree.dfy`: the value-level specification of the builder. `Edges`
  lists the (reaction, source) pairs of a node in visiting order. `Expand`,
  `BuildChildren` and `MakeChild` give the children. `BuildRoute` gives the
  route with its tree.
- `route_tree_lemmas.dfy`: what the builder promises, proved from that
  specification, plus concrete examples.
- `tree_builder.dfy`: the imperative builder. It has a `Node` class with a
  mutable `children` list and `CreateNode`. `CreateSourceNodes` has the
  source's loop over reactions; its inner loop over one reaction's sources is
  the method `CreateReactionNodes`, and the two methods recurse into each
  other as `create_source_nodes` recurses into itself. `MakeRoutes` builds the root and
  attaches the tree. Each method is proved to compute what the specification
  says.
- `route_summary.dfy`: the summary loop and the building-block count.

Modelling decisions:

- Termination takes a ghost ranking `rank: map<string, nat>`. Its domain
  holds the names that must be expandable, starting with the node being
  expanded. The precondition `Ranked` says: from every ranked target, every
  source that is expanded further is ranked too, and ranked strictly lower.
  So a cycle that the walk can reach is excluded, while a cycle among names
  outside the domain is allowed. The Python code has no guard against cycles:
  on a reachable one it hits its recursion limit and raises `RecursionError`.
  `UnreachableCycleAllowed` shows a route with a cycle that the root never
  reaches: its tree is built, and it is empty. The lemma `ExpandRankIndependent` shows that the tree does not
  depend on which ranking is chosen.
- Python's `Tree` and `Node` classes become one Dafny class `Node`, because
  `create_source_nodes` accepts either one. The class has two constructors
  (`Root` for `Tree`, `FromData` for `Node`). `attributes` is `None` for the
  root. `Tree`'s `root` key is always equal to its `name`.
- A child is appended as a value (`TreeNode`). In the source the child is
  appended as its `__dict__` only after it is fully built, and it is never
  changed afterwards.
- When `next` raises `StopIteration` because no molecule matches, the model
  returns `Err(LookupFailure(smiles))`, and that failure propagates out of
  the builder.
- `make_routes` sets `singleroute['tree']` in place on a route it has just
  parsed. The model returns that route with its `tree` field set.
- The root is the hard-coded SMILES of `app/api.py:62`, kept as the constant
  `RootSmiles`. `RootIgnoresRoute` shows what follows from that: a route none
  of whose reactions produces that SMILES gets an empty tree.
- Molecule SMILES are not assumed unique: the lookup takes the first match
  (`app/api.py:68`, `93`).
- A one-reaction route gets a child only when the reaction's target is
  `RootSmiles` (`OneReactionOneLeaf`, `RootIgnoresRoute`).

## Model

| member | source | states |
|---|---|---|
| Routes.FindMolecule | app/api.py:68 | returns None exactly when no molecule has the SMILES; otherwise returns the first molecule in list order whose SMILES matches |
| Routes.GetMoleculeDetails | app/api.py:88-95 | route `index` (which must exist) gives the first molecule with the SMILES; fails with `LookupFailure(smiles)` exactly when there is none |
| RouteTreeSpec.Edges | app/api.py:65-67 | every (reaction, source) pair visited for a node comes from a reaction in the list whose target is the node's name, and the source is one of that reaction's sources |
| RouteTreeSpec.BuildRoute | app/api.py:62-85 | on success the route keeps its score, molecules and reactions, and only `tree` is set; the tree's `root` and `name` are the fixed SMILES; its children are the expansion of that SMILES; it fails exactly when the expansion fails, with the same error |
| RouteTreeSpec.Expand | app/api.py:64-78 | no contract of its own; the specification of `create_source_nodes`, whose behaviour ExpandChildren, ExpandTotal, ExpandFailure, MissingSourceFails and ExpandRankIndependent state |
| RouteTreeSpec.BuildChildren | app/api.py:65-78 | no contract of its own; the two loops over reactions and sources, stopping at the first failure, stated by BuildChildrenShape, BuildTotal and BuildFailure |
| RouteTreeSpec.MakeChild | app/api.py:68-78 | no contract of its own; one child (lookup, attributes, expand unless a building block), stated per edge by ChildFor inside ExpandChildren |
| RouteTreeSpec.ChildAttributes | app/api.py:48-52 | no contract of its own; the attributes dictionary of a child built from the record at lines 69-73, whose use ExpandChildren and FromData state |
| TreeBuilder.Node.Dict | app/api.py:78 | no contract of its own; the `__dict__` appended to the parent, whose value the ensures of CreateReactionNodes and CreateSourceNodes fix |
| TreeBuilder.Node.TreeDict | app/api.py:83 | no contract of its own; the `__dict__` stored as the route's tree, whose value MakeRoutes' ensures fixes |
| RouteTreeFacts.EdgesCount | app/api.py:65-67 | a node visits exactly as many sources as the reactions targeting it have in total |
| RouteTreeFacts.ExpandChildren | app/api.py:64-78 | the children correspond one to one, in order, to the node's edges (reaction order, then source order). Each is named after its source and carries the catalog-entry count of the first matching molecule and the reaction's name and template. It is a leaf if that molecule is a building block, and otherwise it is expanded by the same rule |
| RouteTreeFacts.ExpandRankIndependent | app/api.py:64-78 | building the same node twice, under any two valid rankings, gives the same result |
| RouteTreeFacts.ExpandTotal | app/api.py:68 | if every reaction source names a molecule of the route, building never fails |
| RouteTreeFacts.ExpandFailure | app/api.py:68 | a failure always names a reaction source that matches no molecule of the route |
| RouteTreeFacts.MissingSourceFails | app/api.py:65-68 | if a reaction producing the node has a source that matches no molecule, building that node fails |
| RouteTreeFacts.LookupAgreesWithBuilder | app/api.py:68-93 | the SMILES a failed build reports also makes `get_molecule_details` fail on the same route, with the same error |
| RouteTreeFacts.FlatWhenAllBuildingBlocks | app/api.py:76-78 | when every source is a building block, building succeeds and no child has children (the tree has depth one) |
| RouteTreeExamples.RootIgnoresRoute | app/api.py:62 | a route none of whose reactions targets the fixed root SMILES gets a tree with no children, whatever molecules it holds |
| RouteTreeExamples.OneReactionOneLeaf | app/api.py:62-85 | for any route whose only reaction makes the root SMILES from a single source that resolves to a building block, the tree has exactly one leaf child, with that molecule's catalog-entry count and the reaction's name and template |
| RouteTreeExamples.UnreachableCycleAllowed | app/api.py:64-78 | on a route whose two molecules are each made from the other and where nothing makes the root, the precondition holds and the tree is built with no children |
| TreeBuilder.Node.Root | app/api.py:37-40 | a new root has the given name, no attributes and no children |
| TreeBuilder.Node.FromData | app/api.py:46-53 | a new child node takes the name, the number of catalog entries, the reaction name and the template from its record, and has no children |
| TreeBuilder.Node.CreateNode | app/api.py:41-42 | appends exactly one child at the end; name and attributes are unchanged |
| TreeBuilder.CreateSourceNodes | app/api.py:64-78 | reports a failure exactly when the specification fails, with the same error; otherwise appends to the node's existing children exactly the children the specification gives; never changes the node's name or attributes |
| TreeBuilder.CreateReactionNodes | app/api.py:67-78 | for a reaction producing the node, either appends one child per source, in order, exactly as the specification builds them after the children already there, or reports the failure the whole expansion of the node gives; never changes the node's name or attributes |
| TreeBuilder.MakeRoutes | app/api.py:32-85 | for an existing route index, returns exactly what `BuildRoute` gives for that route |
| RouteSummaries.BuildingBlockCount | app/api.py:143 | the building-block count of a route is at most its number of molecules |
| RouteSummaries.BuildingBlockCountCounts | app/api.py:143 | the count equals the number of positions whose molecule has `is_building_block` set |
| RouteSummaries.GetRoutesList | app/api.py:133-149 | one summary per route, in order; summary `i` has `id` `i`, the score of route `i`, and the building-block count of route `i`'s molecules |

## Left out

- The FastAPI application, its five endpoints and the CORS middleware
  (`app/api.py:1-29`, `104-158`): HTTP plumbing. The exception is the summary
  loop of `get_routes_list` (`app/api.py:133-149`), which is modelled.
- Opening and parsing `app/routes.json` on every call: file I/O. The routes
  are an input value here.
- `draw_molecule` (RDKit drawing): a call into a foreign library.
- The SVG string-rewrite chain in `get_molecule`: a textual patch over RDKit
  output, whose format is not part of this model.
- Negative route indices, which Python wraps around: route selection requires
  `0 <= index < |routes|`. An out-of-range index, which raises in the source,
  is excluded by that precondition rather than modelled as an error.
- Cycles reachable from the expanded name are excluded by `Ranked`; on them
  the source hits Python's recursion limit and raises `RecursionError`.
  `Ranked` also excludes a reachable cycle that sits behind an earlier missing source, on which the source raises
  `StopIteration` before it gets to the cycle.
- Python's recursion limit is not modelled: on a very deep acyclic chain,
  where Python raises `RecursionError`, the model returns a tree.
- TreeBuilder.CreateSourceNodes: after a lookup failure it does not state
  which children were already appended. In the source the exception discards
  the partly built tree.
- TreeBuilder.CreateReactionNodes: after a lookup failure it does not state
  which children it already appended, for the same reason.
- `score` is a JSON number that is only copied; it is modelled as `real`.
  Catalog entries are modelled as opaque records, because only their number
  is used.
