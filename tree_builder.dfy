/**
 * The imperative tree builder of `make_routes`: `Node` objects whose
 * `children` lists grow by `CreateNode`, filled in by the recursive
 * `CreateSourceNodes`, each proved to produce what `RouteTreeSpec` specifies.
 */
module TreeBuilder {
  import opened Wrappers
  import opened Routes
  import opened RouteTreeSpec
  import opened RouteTreeFacts

  /** The `newnode` dictionary a child `Node` is constructed from. */
  datatype NodeData = NodeData(name: string, catalogEntries: seq<CatalogEntry>, reactionName: string, smartsTemplate: string)

  /**
   * A node under construction. It stands for both local classes of
   * `make_routes`: the root `Tree` (no attributes; its `root` key always equals
   * `name`) and a child `Node` (with attributes). A child is appended to its
   * parent as a value, the `__dict__` of a node that is complete and is not
   * changed again.
   */
  class Node {
    var name: string
    var attributes: Option<Attributes>
    var children: seq<TreeNode>

    /** `Tree(root)`. */
    constructor Root(root: string)
      ensures name == root && attributes == None && children == []
    {
      name := root;
      attributes := None;
      children := [];
    }

    /** `Node(data)`: the attributes keep only the number of catalog entries. */
    constructor FromData(data: NodeData)
      ensures name == data.name && children == []
      ensures attributes == Some(Attributes(|data.catalogEntries|, data.reactionName, data.smartsTemplate))
    {
      name := data.name;
      attributes := Some(Attributes(|data.catalogEntries|, data.reactionName, data.smartsTemplate));
      children := [];
    }

    /** `createNode(obj)`: append one child, changing nothing else. */
    method CreateNode(obj: TreeNode)
      modifies this
      ensures children == old(children) + [obj]
      ensures name == old(name) && attributes == old(attributes)
    {
      children := children + [obj];
    }

    /** The `__dict__` of a child node. */
    function Dict(): TreeNode
      reads this
      requires attributes.Some?
    {
      TreeNode(name, attributes.value, children)
    }

    /** The `__dict__` of the root `Tree`. */
    function TreeDict(): RouteTree
      reads this
    {
      RouteTree(name, name, children)
    }
  }

  /** The edges of one more reaction are the earlier edges followed by those the new reaction adds. */
  lemma EdgesSnoc(rs: seq<Reaction>, i: nat, name: string)
    requires i < |rs|
    ensures Edges(rs[..i + 1], name) == Edges(rs[..i], name) + (if rs[i].target == name then ReactionEdges(rs[i]) else [])
  {
    assert rs[..i + 1] == rs[..i] + [rs[i]];
    EdgesAppend(rs[..i], [rs[i]], name);
    assert [rs[i]][1..] == [];
  }

  /** Building one more edge appends its child to the children already built. */
  lemma BuildSnoc(data: Route, name: string, es: seq<Edge>, e: Edge, rank: map<string, nat>, done: seq<TreeNode>, c: TreeNode)
    requires Ranked(data, rank) && name in rank
    requires forall e :: e in es ==> EdgeOf(data, name, e)
    requires EdgeOf(data, name, e)
    requires BuildChildren(data, name, es, rank) == Ok(done)
    requires MakeChild(data, name, e, rank) == Ok(c)
    ensures BuildChildren(data, name, es + [e], rank) == Ok(done + [c])
  {
    assert [e][1..] == [];
    assert BuildChildren(data, name, [], rank) == Ok([]);
    assert [c] + [] == [c];
    assert BuildChildren(data, name, [e], rank) == Ok([c]);
    BuildAppend(data, name, es, [e], rank);
  }

  /** A sequence is its prefix before `j`, its element `j`, and the rest. */
  lemma SplitAround<T>(s: seq<T>, j: nat)
    requires j < |s|
    ensures s == s[..j] + ([s[j]] + s[j + 1..])
  {
  }

  /** Regrouping a five-part concatenation around the element `c`. */
  lemma Regroup<T>(a: seq<T>, b: seq<T>, c: T, d: seq<T>, f: seq<T>)
    ensures a + (b + ([c] + d)) + f == (a + b) + ([c] + (d + f))
  {
  }

  /** The edges of a node split into those before reaction `i`, those of reaction `i`, and those after it. */
  lemma EdgesSplit(rs: seq<Reaction>, i: nat, name: string)
    requires i < |rs|
    ensures Edges(rs, name) == Edges(rs[..i], name) + (if rs[i].target == name then ReactionEdges(rs[i]) else []) + Edges(rs[i + 1..], name)
  {
    var tail := rs[i..];
    assert rs[..i] + tail == rs;
    EdgesAppend(rs[..i], tail, name);
    assert tail[0] == rs[i] && tail[1..] == rs[i + 1..];
    var front, mid, back := Edges(rs[..i], name), (if rs[i].target == name then ReactionEdges(rs[i]) else []), Edges(rs[i + 1..], name);
    assert Edges(tail, name) == mid + back;
    assert front + (mid + back) == front + mid + back;
  }

  /** When the children of `es` build and edge `e` fails, building `es`, then `e`, then anything fails with the error of `e`. */
  lemma BuildFailsAt(data: Route, name: string, es: seq<Edge>, e: Edge, tail: seq<Edge>, rank: map<string, nat>, done: seq<TreeNode>)
    requires Ranked(data, rank) && name in rank
    requires forall x :: x in es + ([e] + tail) ==> EdgeOf(data, name, x)
    requires BuildChildren(data, name, es, rank) == Ok(done)
    requires MakeChild(data, name, e, rank).Err?
    ensures BuildChildren(data, name, es + ([e] + tail), rank) == Err(MakeChild(data, name, e, rank).error)
  {
    assert forall x :: x in es ==> x in es + ([e] + tail);
    assert forall x :: x in [e] + tail ==> x in es + ([e] + tail);
    assert ([e] + tail)[0] == e;
    BuildAppend(data, name, es, [e] + tail, rank);
  }

  /** The edges the loops of `create_source_nodes` have handled before source `j` of reaction `i`. */
  function Handled(data: Route, name: string, i: nat, j: nat): seq<Edge>
    requires i < |data.reactions| && j <= |data.reactions[i].sources|
  {
    Edges(data.reactions[..i], name) + ReactionEdges(data.reactions[i])[..j]
  }

  /** The children built so far are `done`, for edges `es` that all belong to `name`. */
  ghost predicate Built(data: Route, name: string, es: seq<Edge>, rank: map<string, nat>, done: seq<TreeNode>)
    requires Ranked(data, rank) && name in rank
  {
    (forall e :: e in es ==> EdgeOf(data, name, e)) && BuildChildren(data, name, es, rank) == Ok(done)
  }

  /** Before the inner loop over reaction `i`, the handled edges are those of the earlier reactions. */
  lemma StartReaction(data: Route, name: string, rank: map<string, nat>, i: nat, done: seq<TreeNode>)
    requires Ranked(data, rank) && name in rank
    requires i < |data.reactions|
    requires Built(data, name, Edges(data.reactions[..i], name), rank, done)
    ensures |ReactionEdges(data.reactions[i])| == |data.reactions[i].sources|
    ensures Built(data, name, Handled(data, name, i, 0), rank, done)
  {
    assert Handled(data, name, i, 0) == Edges(data.reactions[..i], name);
  }

  /** After reaction `i`, whether or not it produces `name`, the edges handled are those of the first `i + 1` reactions. */
  lemma EndReaction(data: Route, name: string, rank: map<string, nat>, i: nat, done: seq<TreeNode>)
    requires Ranked(data, rank) && name in rank
    requires i < |data.reactions|
    requires data.reactions[i].target == name ==>
      Built(data, name, Handled(data, name, i, |data.reactions[i].sources|), rank, done)
    requires data.reactions[i].target != name ==> Built(data, name, Edges(data.reactions[..i], name), rank, done)
    ensures Built(data, name, Edges(data.reactions[..i + 1], name), rank, done)
  {
    EdgesSnoc(data.reactions, i, name);
    var r := data.reactions[i];
    assert ReactionEdges(r)[..|r.sources|] == ReactionEdges(r);
    if r.target != name {
      assert Edges(data.reactions[..i + 1], name) == Edges(data.reactions[..i], name);
    }
  }

  /** Building the child for source `j` of reaction `i` extends what has been built by that child. */
  lemma StepSource(data: Route, name: string, rank: map<string, nat>, i: nat, j: nat, done: seq<TreeNode>, c: TreeNode)
    requires Ranked(data, rank) && name in rank
    requires i < |data.reactions| && data.reactions[i].target == name && j < |data.reactions[i].sources|
    requires Built(data, name, Handled(data, name, i, j), rank, done)
    requires MakeChild(data, name, Edge(data.reactions[i], data.reactions[i].sources[j]), rank) == Ok(c)
    ensures Built(data, name, Handled(data, name, i, j + 1), rank, done + [c])
  {
    var r := data.reactions[i];
    var e := Edge(r, r.sources[j]);
    var es := Handled(data, name, i, j);
    assert ReactionEdges(r)[..j + 1] == ReactionEdges(r)[..j] + [e];
    assert Handled(data, name, i, j + 1) == es + [e];
    BuildSnoc(data, name, es, e, rank, done, c);
  }

  /** A source that is expanded further is ranked below the node it is a source of. */
  lemma RankDrops(data: Route, name: string, rank: map<string, nat>, i: nat, j: nat, m: Molecule)
    requires Ranked(data, rank) && name in rank
    requires i < |data.reactions| && data.reactions[i].target == name && j < |data.reactions[i].sources|
    requires FindMolecule(data.molecules, data.reactions[i].sources[j]) == Some(m) && !m.isBuildingBlock
    ensures data.reactions[i].sources[j] in rank && rank[data.reactions[i].sources[j]] < rank[name]
  {
    assert Expandable(data, data.reactions[i].sources[j]);
  }

  /** The child `create_source_nodes` builds for source `j` of reaction `i`, from its lookup and expansion. */
  lemma ChildBuilt(data: Route, name: string, rank: map<string, nat>, i: nat, j: nat, m: Molecule, cs: seq<TreeNode>)
    requires Ranked(data, rank) && name in rank
    requires i < |data.reactions| && data.reactions[i].target == name && j < |data.reactions[i].sources|
    requires FindMolecule(data.molecules, data.reactions[i].sources[j]) == Some(m)
    requires m.isBuildingBlock ==> cs == []
    requires !m.isBuildingBlock ==>
      (data.reactions[i].sources[j] in rank && Expand(data, data.reactions[i].sources[j], rank) == Ok(cs))
    ensures MakeChild(data, name, Edge(data.reactions[i], data.reactions[i].sources[j]), rank) ==
      Ok(TreeNode(data.reactions[i].sources[j], ChildAttributes(m, Edge(data.reactions[i], data.reactions[i].sources[j])), cs))
  {
  }

  /** Failing on source `j` of reaction `i` makes the whole expansion fail with that error. */
  lemma AbortAt(data: Route, name: string, rank: map<string, nat>, i: nat, j: nat, done: seq<TreeNode>)
    requires Ranked(data, rank) && name in rank
    requires i < |data.reactions| && data.reactions[i].target == name && j < |data.reactions[i].sources|
    requires Built(data, name, Handled(data, name, i, j), rank, done)
    requires MakeChild(data, name, Edge(data.reactions[i], data.reactions[i].sources[j]), rank).Err?
    ensures Expand(data, name, rank) == Err(MakeChild(data, name, Edge(data.reactions[i], data.reactions[i].sources[j]), rank).error)
  {
    var rs := data.reactions;
    var r := rs[i];
    var e := Edge(r, r.sources[j]);
    var re := ReactionEdges(r);
    EdgesSplit(rs, i, name);
    SplitAround(re, j);
    Regroup(Edges(rs[..i], name), re[..j], e, re[j + 1..], Edges(rs[i + 1..], name));
    var tail := re[j + 1..] + Edges(rs[i + 1..], name);
    BuildFailsAt(data, name, Handled(data, name, i, j), e, tail, rank, done);
  }

  /**
   * `create_source_nodes(node, data)`: append to `node` a child for every
   * source of every reaction producing `node.name`, in that order. It returns
   * the lookup failure where Python raises, and otherwise appends exactly the
   * children `Expand` specifies.
   */
  method CreateSourceNodes(node: Node, data: Route, ghost rank: map<string, nat>) returns (failure: Option<LookupError>)
    requires Ranked(data, rank) && node.name in rank
    modifies node
    decreases rank[node.name], 1
    ensures node.name == old(node.name) && node.attributes == old(node.attributes)
    ensures failure.None? <==> Expand(data, node.name, rank).Ok?
    ensures failure.Some? ==> Expand(data, node.name, rank) == Err(failure.value)
    ensures failure.None? ==> node.children == old(node.children) + Expand(data, node.name, rank).value
  {
    ghost var name := node.name;
    ghost var start := node.children;
    ghost var done: seq<TreeNode> := [];
    for i := 0 to |data.reactions|
      invariant node.name == name && node.attributes == old(node.attributes)
      invariant Built(data, name, Edges(data.reactions[..i], name), rank, done)
      invariant node.children == start + done
    {
      var reaction := data.reactions[i];
      if reaction.target == node.name {
        StartReaction(data, name, rank, i, done);
        var f;
        f, done := CreateReactionNodes(node, data, rank, i, start, done);
        if f.Some? {
          return f;
        }
      }
      EndReaction(data, name, rank, i, done);
    }
    assert data.reactions[..|data.reactions|] == data.reactions;
    assert Expand(data, name, rank) == Ok(done);
    failure := None;
  }

  /**
   * The inner loop of `create_source_nodes` over the sources of reaction `i`,
   * which produces `node.name`: given the children `done` built before it,
   * it appends those of its sources, or returns the failure of the whole
   * expansion.
   */
  method CreateReactionNodes(node: Node, data: Route, ghost rank: map<string, nat>, i: nat,
                             ghost start: seq<TreeNode>, ghost done0: seq<TreeNode>)
    returns (failure: Option<LookupError>, ghost done: seq<TreeNode>)
    requires Ranked(data, rank) && node.name in rank
    requires i < |data.reactions| && data.reactions[i].target == node.name
    requires Built(data, node.name, Handled(data, node.name, i, 0), rank, done0)
    requires |ReactionEdges(data.reactions[i])| == |data.reactions[i].sources|
    requires node.children == start + done0
    modifies node
    decreases rank[node.name], 0
    ensures node.name == old(node.name) && node.attributes == old(node.attributes)
    ensures failure.Some? ==> Expand(data, node.name, rank) == Err(failure.value)
    ensures failure.None? ==> Built(data, node.name, Handled(data, node.name, i, |data.reactions[i].sources|), rank, done)
    ensures failure.None? ==> node.children == start + done
  {
    ghost var name := node.name;
    var reaction := data.reactions[i];
    done := done0;
    for j := 0 to |reaction.sources|
      invariant node.name == name && node.attributes == old(node.attributes)
      invariant Built(data, name, Handled(data, name, i, j), rank, done)
      invariant node.children == start + done
    {
      var source := reaction.sources[j];
      var found := FindMolecule(data.molecules, source);
      if found.None? {
        AbortAt(data, name, rank, i, j, done);
        return Some(LookupFailure(source)), done;
      }
      var sourcedata := found.value;
      var newnode := NodeData(source, sourcedata.catalogEntries, reaction.name, reaction.smartsTemplate);
      var sourceNode := new Node.FromData(newnode);
      if !sourcedata.isBuildingBlock {
        RankDrops(data, name, rank, i, j, sourcedata);
        var f := CreateSourceNodes(sourceNode, data, rank);
        if f.Some? {
          AbortAt(data, name, rank, i, j, done);
          return f, done;
        }
        assert [] + Expand(data, source, rank).value == Expand(data, source, rank).value;
      }
      ghost var child := sourceNode.Dict();
      ChildBuilt(data, name, rank, i, j, sourcedata, child.children);
      node.CreateNode(sourceNode.Dict());
      StepSource(data, name, rank, i, j, done, child);
      done := done + [child];
    }
    failure := None;
  }

  /**
   * `make_routes(index)`: build the tree rooted at the fixed SMILES for route
   * `index` and return that route with its `tree` key set.
   */
  method MakeRoutes(routesData: seq<Route>, index: nat, ghost rank: map<string, nat>) returns (result: Result<Route, LookupError>)
    requires index < |routesData|
    requires Ranked(routesData[index], rank) && RootSmiles in rank
    ensures result == BuildRoute(routesData[index], rank)
  {
    var singleroute := routesData[index];
    var root := new Node.Root(RootSmiles);
    var failure := CreateSourceNodes(root, singleroute, rank);
    if failure.Some? {
      return Err(failure.value);
    }
    assert root.children == Expand(singleroute, RootSmiles, rank).value;
    result := Ok(singleroute.(tree := Some(root.TreeDict())));
  }
}
