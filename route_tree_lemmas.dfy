/** What the route-tree builder promises, proved about its specification. */
module RouteTreeFacts {
  import opened Wrappers
  import opened Routes
  import opened RouteTreeSpec

  /** The number of sources over all reactions of `rs` whose target is `name`. */
  function SourceCount(rs: seq<Reaction>, name: string): nat {
    if rs == [] then 0
    else (if rs[0].target == name then |rs[0].sources| else 0) + SourceCount(rs[1..], name)
  }

  /** The edges of a concatenation of reaction lists are the concatenated edges. */
  lemma {:induction false} EdgesAppend(a: seq<Reaction>, b: seq<Reaction>, name: string)
    ensures Edges(a + b, name) == Edges(a, name) + Edges(b, name)
  {
    if a == [] {
      assert a + b == b;
    } else {
      assert (a + b)[0] == a[0];
      assert (a + b)[1..] == a[1..] + b;
      EdgesAppend(a[1..], b, name);
    }
  }

  /** A node has exactly as many edges as there are sources in the reactions producing it. */
  lemma {:induction false} EdgesCount(rs: seq<Reaction>, name: string)
    ensures |Edges(rs, name)| == SourceCount(rs, name)
  {
    if rs != [] {
      EdgesCount(rs[1..], name);
    }
  }

  /** Building the children of `a + b` builds those of `a`, then those of `b`. */
  lemma {:induction false} BuildAppend(data: Route, name: string, a: seq<Edge>, b: seq<Edge>, rank: map<string, nat>)
    requires Ranked(data, rank) && name in rank
    requires forall e :: e in a ==> EdgeOf(data, name, e)
    requires forall e :: e in b ==> EdgeOf(data, name, e)
    ensures forall e :: e in a + b ==> EdgeOf(data, name, e)
    ensures BuildChildren(data, name, a + b, rank) ==
            match BuildChildren(data, name, a, rank)
            case Err(x) => Err(x)
            case Ok(ca) =>
              match BuildChildren(data, name, b, rank)
              case Err(x) => Err(x)
              case Ok(cb) => Ok(ca + cb)
  {
    if a == [] {
      assert a + b == b;
      match BuildChildren(data, name, b, rank)
      case Err(x) =>
      case Ok(cb) => assert [] + cb == cb;
    } else {
      assert a[0] in a;
      assert (a + b)[0] == a[0];
      assert (a + b)[1..] == a[1..] + b;
      BuildAppend(data, name, a[1..], b, rank);
      match MakeChild(data, name, a[0], rank)
      case Err(x) =>
      case Ok(c) =>
        match BuildChildren(data, name, a[1..], rank)
        case Err(x) =>
        case Ok(ca) =>
          match BuildChildren(data, name, b, rank)
          case Err(x) =>
          case Ok(cb) =>
            assert [c] + (ca + cb) == ([c] + ca) + cb;
    }
  }

  /**
   * Child `c` is what the builder makes for edge `e`: it is named after the
   * source, carries the catalog-entry count of the first molecule with that
   * SMILES and the reaction's name and template, is a leaf when that molecule
   * is a building block and is otherwise expanded by the same rule.
   */
  predicate ChildFor(data: Route, name: string, e: Edge, c: TreeNode, rank: map<string, nat>)
    requires Ranked(data, rank) && name in rank && EdgeOf(data, name, e)
  {
    c.name == e.source &&
    match FindMolecule(data.molecules, e.source)
    case None => false
    case Some(m) =>
      c.attributes == ChildAttributes(m, e) &&
      (m.isBuildingBlock ==> c.children == []) &&
      (!m.isBuildingBlock ==> Expand(data, e.source, rank) == Ok(c.children))
  }

  /** The children built for `es` match its edges one to one, in order, each as `ChildFor` describes. */
  lemma {:induction false} BuildChildrenShape(data: Route, name: string, es: seq<Edge>, rank: map<string, nat>, cs: seq<TreeNode>)
    requires Ranked(data, rank) && name in rank
    requires forall e :: e in es ==> EdgeOf(data, name, e)
    requires BuildChildren(data, name, es, rank) == Ok(cs)
    ensures |cs| == |es|
    ensures forall k :: 0 <= k < |es| ==> es[k] in es && ChildFor(data, name, es[k], cs[k], rank)
  {
    if es != [] {
      var c := MakeChild(data, name, es[0], rank).value;
      var rest := BuildChildren(data, name, es[1..], rank).value;
      BuildChildrenShape(data, name, es[1..], rank, rest);
      assert cs == [c] + rest;
      assert ChildFor(data, name, es[0], c, rank);
    }
  }

  /**
   * The children of a node named `name` correspond one to one, in order, to its
   * edges: reactions targeting `name` in list order, then their sources in list
   * order. So there are exactly `SourceCount` of them, and each is the child
   * made for its edge.
   */
  lemma ExpandChildren(data: Route, name: string, rank: map<string, nat>, cs: seq<TreeNode>)
    requires Ranked(data, rank) && name in rank
    requires Expand(data, name, rank) == Ok(cs)
    ensures |cs| == |Edges(data.reactions, name)| == SourceCount(data.reactions, name)
    ensures forall k :: 0 <= k < |cs| ==>
      var e := Edges(data.reactions, name)[k];
      EdgeOf(data, name, e) && ChildFor(data, name, e, cs[k], rank)
  {
    BuildChildrenShape(data, name, Edges(data.reactions, name), rank, cs);
    EdgesCount(data.reactions, name);
  }

  /** The tree does not depend on which ranking witnesses termination. */
  lemma {:induction false} BuildRankIndependent(data: Route, name: string, es: seq<Edge>, rank1: map<string, nat>, rank2: map<string, nat>)
    requires Ranked(data, rank1) && Ranked(data, rank2) && name in rank1 && name in rank2
    requires forall e :: e in es ==> EdgeOf(data, name, e)
    ensures BuildChildren(data, name, es, rank1) == BuildChildren(data, name, es, rank2)
    decreases rank1[name], |es|
  {
    if es != [] {
      var e := es[0];
      assert e in es;
      if Expandable(data, e.source) {
        assert rank1[e.source] < rank1[name];
        BuildRankIndependent(data, e.source, Edges(data.reactions, e.source), rank1, rank2);
      }
      assert MakeChild(data, name, e, rank1) == MakeChild(data, name, e, rank2);
      BuildRankIndependent(data, name, es[1..], rank1, rank2);
    }
  }

  /** Building the same tree twice, under any rankings, gives the same result. */
  lemma ExpandRankIndependent(data: Route, name: string, rank1: map<string, nat>, rank2: map<string, nat>)
    requires Ranked(data, rank1) && Ranked(data, rank2) && name in rank1 && name in rank2
    ensures Expand(data, name, rank1) == Expand(data, name, rank2)
  {
    BuildRankIndependent(data, name, Edges(data.reactions, name), rank1, rank2);
  }

  /** Every source of every reaction names some molecule of the route. */
  predicate Resolved(data: Route) {
    forall r, s :: r in data.reactions && s in r.sources ==> FindMolecule(data.molecules, s).Some?
  }

  /** When every source resolves, building the children of any edges of `name` never fails. */
  lemma {:induction false} BuildTotal(data: Route, name: string, es: seq<Edge>, rank: map<string, nat>)
    requires Ranked(data, rank) && Resolved(data) && name in rank
    requires forall e :: e in es ==> EdgeOf(data, name, e)
    ensures BuildChildren(data, name, es, rank).Ok?
    decreases rank[name], |es|
  {
    if es != [] {
      var e := es[0];
      assert e in es;
      assert FindMolecule(data.molecules, e.source).Some?;
      if Expandable(data, e.source) {
        assert rank[e.source] < rank[name];
        BuildTotal(data, e.source, Edges(data.reactions, e.source), rank);
      }
      assert MakeChild(data, name, e, rank).Ok?;
      BuildTotal(data, name, es[1..], rank);
    }
  }

  /** When every source resolves, building never fails. */
  lemma ExpandTotal(data: Route, name: string, rank: map<string, nat>)
    requires Ranked(data, rank) && Resolved(data) && name in rank
    ensures Expand(data, name, rank).Ok?
  {
    BuildTotal(data, name, Edges(data.reactions, name), rank);
  }

  /** A failure building the children of `es` names a reaction source that no molecule has. */
  lemma {:induction false} BuildFailure(data: Route, name: string, es: seq<Edge>, rank: map<string, nat>)
    requires Ranked(data, rank) && name in rank
    requires forall e :: e in es ==> EdgeOf(data, name, e)
    requires BuildChildren(data, name, es, rank).Err?
    ensures exists r, s :: r in data.reactions && s in r.sources &&
                           BuildChildren(data, name, es, rank).error == LookupFailure(s) &&
                           FindMolecule(data.molecules, s).None?
    decreases rank[name], |es|
  {
    var e := es[0];
    assert e in es;
    var made := MakeChild(data, name, e, rank);
    if FindMolecule(data.molecules, e.source).None? {
      assert BuildChildren(data, name, es, rank).error == LookupFailure(e.source);
    } else if made.Err? {
      assert Expandable(data, e.source);
      assert rank[e.source] < rank[name];
      assert Expand(data, e.source, rank).Err?;
      assert BuildChildren(data, name, es, rank).error == Expand(data, e.source, rank).error;
      BuildFailure(data, e.source, Edges(data.reactions, e.source), rank);
    } else {
      BuildFailure(data, name, es[1..], rank);
    }
  }

  /** A failure always names a reaction source that no molecule of the route has. */
  lemma ExpandFailure(data: Route, name: string, rank: map<string, nat>)
    requires Ranked(data, rank) && name in rank
    requires Expand(data, name, rank).Err?
    ensures exists r, s :: r in data.reactions && s in r.sources &&
                           Expand(data, name, rank).error == LookupFailure(s) &&
                           FindMolecule(data.molecules, s).None?
  {
    BuildFailure(data, name, Edges(data.reactions, name), rank);
  }

  /** Every source of every reaction targeting `name` gives an edge of `name`. */
  lemma {:induction false} EdgeInEdges(rs: seq<Reaction>, name: string, r: Reaction, s: string)
    requires r in rs && r.target == name && s in r.sources
    ensures Edge(r, s) in Edges(rs, name)
  {
    if rs[0] == r {
      var j :| 0 <= j < |r.sources| && r.sources[j] == s;
      assert ReactionEdges(r)[j] == Edge(r, s);
    } else {
      EdgeInEdges(rs[1..], name, r, s);
    }
  }

  /** An edge among `es` whose source resolves to nothing makes building the children of `es` fail. */
  lemma {:induction false} BuildMissing(data: Route, name: string, es: seq<Edge>, rank: map<string, nat>, e: Edge)
    requires Ranked(data, rank) && name in rank
    requires forall e :: e in es ==> EdgeOf(data, name, e)
    requires e in es && FindMolecule(data.molecules, e.source).None?
    ensures BuildChildren(data, name, es, rank).Err?
  {
    assert es[0] in es;
    if es[0] != e {
      BuildMissing(data, name, es[1..], rank, e);
    }
  }

  /** A reaction producing `name` with a source that resolves to nothing makes building `name` fail. */
  lemma MissingSourceFails(data: Route, name: string, rank: map<string, nat>, r: Reaction, s: string)
    requires Ranked(data, rank) && name in rank
    requires r in data.reactions && r.target == name && s in r.sources
    requires FindMolecule(data.molecules, s).None?
    ensures Expand(data, name, rank).Err?
  {
    EdgeInEdges(data.reactions, name, r, s);
    BuildMissing(data, name, Edges(data.reactions, name), rank, Edge(r, s));
  }

  /**
   * The same missing SMILES makes `get_molecule_details` fail: the builder and
   * the details endpoint share one lookup.
   */
  lemma LookupAgreesWithBuilder(routesData: seq<Route>, index: nat, name: string, rank: map<string, nat>)
    requires index < |routesData| && Ranked(routesData[index], rank) && name in rank
    requires Expand(routesData[index], name, rank).Err?
    ensures GetMoleculeDetails(routesData, Expand(routesData[index], name, rank).error.smiles, index) ==
            Err(Expand(routesData[index], name, rank).error)
  {
    ExpandFailure(routesData[index], name, rank);
  }

  /** Every source of every reaction resolves to a building block. */
  predicate AllSourcesBuildingBlocks(data: Route) {
    forall r, s :: r in data.reactions && s in r.sources ==>
      FindMolecule(data.molecules, s).Some? && FindMolecule(data.molecules, s).value.isBuildingBlock
  }

  /**
   * When every source is a building block the tree has depth one: building
   * succeeds and no child has children of its own.
   */
  lemma FlatWhenAllBuildingBlocks(data: Route, name: string, rank: map<string, nat>)
    requires Ranked(data, rank) && AllSourcesBuildingBlocks(data) && name in rank
    ensures Expand(data, name, rank).Ok?
    ensures forall c :: c in Expand(data, name, rank).value ==> c.children == []
  {
    ExpandTotal(data, name, rank);
    var cs := Expand(data, name, rank).value;
    ExpandChildren(data, name, rank, cs);
    forall c | c in cs ensures c.children == [] {
      var k :| 0 <= k < |cs| && cs[k] == c;
      var e := Edges(data.reactions, name)[k];
      assert ChildFor(data, name, e, cs[k], rank);
    }
  }
}

/** The builder on small concrete routes. */
module RouteTreeExamples {
  import opened Wrappers
  import opened Routes
  import opened RouteTreeSpec
  import opened RouteTreeFacts

  /** A node that no reaction of `rs` produces has no edges. */
  lemma {:induction false} NoEdges(rs: seq<Reaction>, name: string)
    requires forall r :: r in rs ==> r.target != name
    ensures Edges(rs, name) == []
  {
    if rs != [] {
      assert rs[0] in rs;
      NoEdges(rs[1..], name);
    }
  }

  /**
   * The root is fixed: a route none of whose reactions produces the hard-coded
   * root SMILES gets a tree with no children, whatever molecules it holds.
   */
  lemma RootIgnoresRoute(route: Route, rank: map<string, nat>)
    requires Ranked(route, rank) && RootSmiles in rank
    requires forall r :: r in route.reactions ==> r.target != RootSmiles
    ensures BuildRoute(route, rank) == Ok(route.(tree := Some(RouteTree(RootSmiles, RootSmiles, []))))
  {
    NoEdges(route.reactions, RootSmiles);
    assert Expand(route, RootSmiles, rank) == Ok([]);
  }

  /**
   * A root produced by a single reaction from a single building block gets
   * exactly one leaf child, carrying the building block's catalog-entry count
   * and the reaction's name and template.
   */
  lemma OneReactionOneLeaf(route: Route, rank: map<string, nat>, r: Reaction, s: string, m: Molecule)
    requires Ranked(route, rank) && RootSmiles in rank
    requires route.reactions == [r] && r.target == RootSmiles && r.sources == [s]
    requires FindMolecule(route.molecules, s) == Some(m) && m.isBuildingBlock
    ensures BuildRoute(route, rank) ==
      Ok(route.(tree := Some(RouteTree(RootSmiles, RootSmiles, [TreeNode(s, ChildAttributes(m, Edge(r, s)), [])]))))
  {
    var e := Edge(r, s);
    assert route.reactions[1..] == [];
    assert ReactionEdges(r) == [e];
    assert Edges(route.reactions, RootSmiles) == [e] + Edges([], RootSmiles);
    assert Edges(route.reactions, RootSmiles) == [e];
    var leaf := TreeNode(s, ChildAttributes(m, e), []);
    assert MakeChild(route, RootSmiles, e, rank) == Ok(leaf);
    assert [e][1..] == [];
    assert BuildChildren(route, RootSmiles, [], rank) == Ok([]);
    assert [leaf] + [] == [leaf];
    assert BuildChildren(route, RootSmiles, [e], rank) == Ok([leaf]);
    assert Expand(route, RootSmiles, rank) == Ok([leaf]);
  }

  /** Two non-building-block molecules, each made from the other; nothing makes the root. */
  function CycleRoute(): Route {
    Route(0.0, [Molecule("A", [], false), Molecule("B", [], false)],
          [Reaction("A", ["B"], "ab", "T1"), Reaction("B", ["A"], "ba", "T2")], None)
  }

  /**
   * Only what the root reaches has to be acyclic: a cycle the walk from the
   * root never enters does not stop a tree from being built, and that tree is
   * empty.
   */
  lemma UnreachableCycleAllowed()
    ensures Ranked(CycleRoute(), map[RootSmiles := 0])
    ensures BuildRoute(CycleRoute(), map[RootSmiles := 0]) ==
            Ok(CycleRoute().(tree := Some(RouteTree(RootSmiles, RootSmiles, []))))
  {
    var route := CycleRoute();
    assert route.reactions[0].target == "A" && route.reactions[1].target == "B";
    assert "A" != RootSmiles && "B" != RootSmiles;
    assert forall r :: r in route.reactions ==> r.target != RootSmiles;
    RootIgnoresRoute(route, map[RootSmiles := 0]);
  }
}
