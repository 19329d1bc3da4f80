/** A report without blockers is exactly the unfolding of the root manifest (src/application_plan.rs:843-1046). */
module Unfolding {
  import opened Basics
  import opened Upstream
  import opened Resolver
  import opened Planner
  import opened PlanPaths

  /** One application of the unfolded tree below the root: what it is, and the manifest edge it comes from. */
  datatype Node = Node(application: Kappa, parent: nat, position: U32, capabilities: Kappa)

  function NodeOf(a: Admission): Node {
    Node(a.application, a.parentIndex, a.position, a.delegated.kappa)
  }

  function Nodes(admissions: seq<Admission>): seq<Node> {
    seq(|admissions|, i requires 0 <= i < |admissions| => NodeOf(admissions[i]))
  }

  /** The applications in index order: the root, then one per admission. */
  function Applications(root: Kappa, nodes: seq<Node>): seq<Kappa> {
    [root] + seq(|nodes|, i requires 0 <= i < |nodes| => nodes[i].application)
  }

  /** The first `count` child edges of a manifest, as nodes below one parent. */
  function Edges(parent: nat, children: seq<ChildEdge>, count: nat): seq<Node>
    requires count <= |children|
  {
    seq(count, p requires 0 <= p < count => Node(children[p].application, parent, U32Of(p), children[p].capabilities))
  }

  function EdgesBelow(g: Graph, parent: nat, application: Kappa): seq<Node> {
    match g.ManifestOf(application)
    case None => []
    case Some(m) => Edges(parent, m.children, |m.children|)
  }

  /** All child edges of the first `count` applications, parents in order and positions in order. */
  function EdgesOfAll(g: Graph, applications: seq<Kappa>, count: nat): seq<Node>
    requires count <= |applications|
  {
    if count == 0 then []
    else EdgesOfAll(g, applications, count - 1) + EdgesBelow(g, count - 1, applications[count - 1])
  }

  /** A node list unfolds the graph when it lists exactly the child edges of all its applications, parents
      before children. */
  ghost predicate Unfolds(g: Graph, nodes: seq<Node>) {
    && ParentsFirst(nodes)
    && nodes == EdgesOfAll(g, Applications(g.root, nodes), |nodes| + 1)
  }

  /** Node i is application i + 1, so its parent is at most i. */
  ghost predicate ParentsFirst(nodes: seq<Node>) {
    forall i :: 0 <= i < |nodes| ==> nodes[i].parent <= i
  }

  /** A queued application occupies the next free index and points at its own admission. */
  ghost predicate Slot(g: Graph, admissions: seq<Admission>, p: Pending, index: nat) {
    && p.index == index
    && (index == 0 <==> p.depth == 0)
    && (index == 0 ==> p.admission == None && p.application == g.root)
    && (index > 0 ==> p.admission == Some(index - 1) && index <= |admissions| && admissions[index - 1].application == p.application)
  }

  ghost predicate ContentsResolved(closure: State, manifest: AppManifest) {
    forall i :: 0 <= i < |manifest.layers| ==> manifest.layers[i].content in closure.objects
  }

  /** A visited application has its request decoded, its layers planned and its contents resolved. */
  ghost predicate Filled(g: Graph, s: Plan, index: nat)
    requires index <= |s.admissions|
  {
    if index == 0 then s.requested.Some? && ContentsResolved(s.closure, g.manifest)
    else
      var a := s.admissions[index - 1];
      var m := g.ManifestOf(a.application);
      && m.Some? && a.requested.Some? && ContentsResolved(s.closure, m.value)
      && a.primary == m.value.primary && a.layers == PlannedLayers(m.value)
  }

  /** The plan's tables while `visited` applications have been taken off the queue: the admissions are the
      child edges of the first `complete` of them followed by `partial`. */
  ghost predicate Tidy(g: Graph, s: Plan, visited: nat, complete: nat, partial: seq<Node>) {
    && |s.admissions| + 1 == s.applicationCount == visited + |s.pending|
    && complete <= visited
    && (forall j :: 0 <= j < |s.pending| ==> Slot(g, s.admissions, s.pending[j], visited + j))
    && (forall i :: 0 <= i < |s.admissions| ==> s.admissions[i].index == i + 1 && s.admissions[i].parentIndex <= i)
    && (forall i :: 0 <= i < visited ==> Filled(g, s, i))
    && Nodes(s.admissions) == EdgesOfAll(g, Applications(g.root, Nodes(s.admissions)), complete) + partial
  }

  lemma {:induction false} EdgesOfAllPrefix(g: Graph, a: seq<Kappa>, b: seq<Kappa>, count: nat)
    requires count <= |a| <= |b| && b[..|a|] == a
    ensures EdgesOfAll(g, a, count) == EdgesOfAll(g, b, count)
    decreases count
  {
    if count > 0 {
      EdgesOfAllPrefix(g, a, b, count - 1);
      assert b[count - 1] == b[..|a|][count - 1];
    }
  }

  lemma {:induction false} EdgesBelowParent(g: Graph, parent: nat, application: Kappa)
    ensures forall i :: 0 <= i < |EdgesBelow(g, parent, application)| ==> EdgesBelow(g, parent, application)[i].parent == parent
  {
  }

  lemma {:induction false} EdgesOfAllParents(g: Graph, applications: seq<Kappa>, m: nat, n: nat)
    requires m <= n <= |applications|
    ensures EdgesOfAll(g, applications, m) <= EdgesOfAll(g, applications, n)
    ensures var all := EdgesOfAll(g, applications, n);
      forall i :: |EdgesOfAll(g, applications, m)| <= i < |all| ==> all[i].parent >= m
    decreases n
  {
    hide EdgesBelow;
    if m < n {
      EdgesOfAllParents(g, applications, m, n - 1);
      EdgesBelowParent(g, n - 1, applications[n - 1]);
    }
  }

  /** In an unfolding, the node at i is decided by the applications up to i alone. */
  lemma {:induction false} NodeDecided(g: Graph, nodes: seq<Node>, i: nat)
    requires Unfolds(g, nodes) && i < |nodes|
    ensures var known := EdgesOfAll(g, Applications(g.root, nodes[..i]), i + 1);
      i < |known| && known[i] == nodes[i]
  {
    hide EdgesOfAll;
    var all, known := Applications(g.root, nodes), Applications(g.root, nodes[..i]);
    EdgesOfAllParents(g, all, i + 1, |nodes| + 1);
    assert nodes[i].parent <= i;
    assert i < |EdgesOfAll(g, all, i + 1)|;
    assert all[..i + 1] == known;
    EdgesOfAllPrefix(g, known, all, i + 1);
  }

  lemma {:induction false} PrefixAgrees(g: Graph, a: seq<Node>, b: seq<Node>, n: nat)
    requires Unfolds(g, a) && Unfolds(g, b) && n <= |a| <= |b|
    ensures a[..n] == b[..n]
    decreases n
  {
    hide EdgesOfAll, Unfolds, Applications;
    if n > 0 {
      PrefixAgrees(g, a, b, n - 1);
      NodeDecided(g, a, n - 1);
      NodeDecided(g, b, n - 1);
      assert a[..n] == a[..n - 1] + [a[n - 1]] && b[..n] == b[..n - 1] + [b[n - 1]];
    }
  }

  lemma {:induction false} NotLonger(g: Graph, a: seq<Node>, b: seq<Node>)
    requires Unfolds(g, a) && Unfolds(g, b) && |a| <= |b|
    ensures a == b
  {
    PrefixAgrees(g, a, b, |a|);
    if |a| < |b| {
      assert b[..|a|] == a;
      NodeDecided(g, b, |a|);
    }
  }

  /** The unfolding of a graph is unique: two node lists that unfold it are the same list. */
  lemma {:induction false} UnfoldingUnique(g: Graph, a: seq<Node>, b: seq<Node>)
    requires Unfolds(g, a) && Unfolds(g, b)
    ensures a == b
  {
    if |a| <= |b| {
      NotLonger(g, a, b);
    } else {
      NotLonger(g, b, a);
    }
  }

  /** Where the children of an application start in the node list. */
  ghost function FirstChild(g: Graph, nodes: seq<Node>, a: nat): nat
    requires a <= |nodes| + 1
  {
    |EdgesOfAll(g, Applications(g.root, nodes), a)|
  }

  /** Every child edge of every application has its node, at the place its position says. */
  lemma {:induction false} EdgeHasNode(g: Graph, nodes: seq<Node>, a: nat, p: nat)
    requires Unfolds(g, nodes) && a <= |nodes|
    requires g.ManifestOf(Applications(g.root, nodes)[a]).Some?
    requires p < |g.ManifestOf(Applications(g.root, nodes)[a]).value.children|
    ensures var edge := g.ManifestOf(Applications(g.root, nodes)[a]).value.children[p];
      var i := FirstChild(g, nodes, a) + p;
      i < |nodes| && nodes[i] == Node(edge.application, a, U32Of(p), edge.capabilities)
  {
    hide Graph.ManifestOf, EdgesOfAll, Unfolds, Applications;
    BlockOf(g, nodes, a);
    var all := Applications(g.root, nodes);
    InsidePrefix(EdgesOfAll(g, all, a), EdgesBelow(g, a, all[a]), nodes, p);
  }

  /** The children of an application are one block of the node list. */
  lemma {:induction false} BlockOf(g: Graph, nodes: seq<Node>, a: nat)
    requires Unfolds(g, nodes) && a <= |nodes|
    ensures var all := Applications(g.root, nodes);
      a < |all| && EdgesOfAll(g, all, a) + EdgesBelow(g, a, all[a]) <= nodes
  {
    hide Graph.ManifestOf, EdgesBelow;
    var all := Applications(g.root, nodes);
    EdgesOfAllParents(g, all, a + 1, |nodes| + 1);
    assert EdgesOfAll(g, all, a + 1) == EdgesOfAll(g, all, a) + EdgesBelow(g, a, all[a]);
  }

  lemma InsidePrefix(a: seq<Node>, b: seq<Node>, c: seq<Node>, p: nat)
    requires a + b <= c && p < |b|
    ensures |a| + p < |c| && c[|a| + p] == b[p]
  {
    assert (a + b)[|a| + p] == b[p];
  }

  /** Every node comes from exactly one child edge: the one its parent and its place name. */
  lemma {:induction false} NodeHasEdge(g: Graph, nodes: seq<Node>, i: nat)
    requires Unfolds(g, nodes) && i < |nodes|
    ensures var a := nodes[i].parent;
      && a <= i && FirstChild(g, nodes, a) <= i < FirstChild(g, nodes, a + 1)
      && var m := g.ManifestOf(Applications(g.root, nodes)[a]);
      var p := i - FirstChild(g, nodes, a);
      && m.Some? && p < |m.value.children|
      && nodes[i] == Node(m.value.children[p].application, a, U32Of(p), m.value.children[p].capabilities)
  {
    hide Graph.ManifestOf;
    var all := Applications(g.root, nodes);
    var a := nodes[i].parent;
    EdgesOfAllParents(g, all, a + 1, |nodes| + 1);
    NodesBefore(g, all, a);
    EdgesOfAllParents(g, all, a, |nodes| + 1);
    assert EdgesOfAll(g, all, a + 1) == EdgesOfAll(g, all, a) + EdgesBelow(g, a, all[a]);
  }

  lemma {:induction false} NodesBefore(g: Graph, applications: seq<Kappa>, n: nat)
    requires n <= |applications|
    ensures forall i :: 0 <= i < |EdgesOfAll(g, applications, n)| ==> EdgesOfAll(g, applications, n)[i].parent < n
    decreases n
  {
    hide EdgesBelow;
    if n > 0 {
      NodesBefore(g, applications, n - 1);
      EdgesBelowParent(g, n - 1, applications[n - 1]);
    }
  }
}
