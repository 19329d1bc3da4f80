/** The tables of an unblocked planning run line up: child row i, admission i and application i + 1 are one child edge,
    and depths are counted along parents (src/application_plan.rs:869-1046). */
module PlanRows {
  import opened Basics
  import opened Upstream
  import opened Resolver
  import opened Planner
  import opened PlanPaths
  import opened Unfolding
  import opened PlanShape
  import opened PlanTables

  /** The label of an application by its index. */
  function LabelAt(g: Graph, admissions: seq<Admission>, index: nat): Kappa
    requires index <= |admissions|
  {
    if index == 0 then g.root else admissions[index - 1].application
  }

  /** The depth of an application by its index. */
  function DepthAt(children: seq<ChildReference>, index: nat): U32
    requires index <= |children|
  {
    if index == 0 then 0 else children[index - 1].depth
  }

  /** A row and an admission that record one child edge below application `parentIndex`. */
  ghost predicate SameEdge(row: ChildReference, a: Admission, parent: Kappa, depth: U32) {
    && a.parent == parent && row.parent == parent
    && row.position == a.position && row.application == a.application && row.capabilities == a.delegated.kappa
    && Saturated(row.depth, depth + 1)
    && row.required.Some? && row.layerCount.Some? && row.applicationSource.Some? && row.capabilitiesSource.Some?
  }

  /** Row i and admission i are in line, below an application that comes before them. */
  ghost predicate Fits(g: Graph, admissions: seq<Admission>, children: seq<ChildReference>, i: nat)
    requires i < |admissions| && i < |children|
  {
    var p := admissions[i].parentIndex;
    p <= i && SameEdge(children[i], admissions[i], LabelAt(g, admissions, p), DepthAt(children, p))
  }

  ghost predicate Aligned(g: Graph, s: Plan) {
    && |s.children| == |s.admissions| && s.applicationCount == |s.admissions| + 1
    && forall i :: 0 <= i < |s.admissions| ==> Fits(g, s.admissions, s.children, i)
  }

  /** Rows and admissions added behind do not matter, nor what an admission plans or requests. */
  lemma {:induction false} FitsStays(g: Graph, admissions: seq<Admission>, children: seq<ChildReference>,
      more: seq<Admission>, rows: seq<ChildReference>, i: nat)
    requires i < |admissions| == |children| && Fits(g, admissions, children, i)
    requires |children| <= |rows| && rows[..|children|] == children && |admissions| <= |more|
    requires forall j :: 0 <= j <= i ==>
      more[j] == admissions[j].(requested := more[j].requested, primary := more[j].primary, layers := more[j].layers)
    ensures Fits(g, more, rows, i)
  {
    var p := admissions[i].parentIndex;
    assert rows[i] == rows[..|children|][i];
    assert more[i].parentIndex == p;
    if p > 0 {
      assert rows[p - 1] == rows[..|children|][p - 1];
      assert more[p - 1].application == admissions[p - 1].application;
    }
  }

  /** The greatest depth so far, as a row states it. */
  ghost predicate Deepest(s: Plan) {
    && (forall i :: 0 <= i < |s.children| ==> s.children[i].depth <= s.maxDepth)
    && (s.maxDepth == 0 || exists i :: 0 <= i < |s.children| && Saturated(s.children[i].depth, s.maxDepth))
  }

  /** An application that is queued or visited carries its label and its depth. */
  ghost predicate Known(g: Graph, s: Plan, p: Pending) {
    && p.index <= |s.admissions| && p.index <= |s.children|
    && p.application == LabelAt(g, s.admissions, p.index) && Saturated(DepthAt(s.children, p.index), p.depth)
  }

  ghost predicate Lined(g: Graph, s: Plan) {
    && Aligned(g, s) && Deepest(s)
    && (forall j :: 0 <= j < |s.pending| ==> Known(g, s, s.pending[j]))
  }

  /** While nothing is blocked. */
  ghost predicate InLine(g: Graph, s: Plan) {
    && (s.applicationsLimited ==> s.closure.blockers != [])
    && (s.closure.blockers == [] ==> Lined(g, s))
  }

  /** Visiting an application's contents touches no row, and of the admissions only what is planned and requested. */
  ghost predicate SameRows(s: Plan, t: Plan) {
    && t.children == s.children && t.maxDepth == s.maxDepth && t.applicationCount == s.applicationCount
    && t.pending == s.pending && t.applicationsLimited == s.applicationsLimited
    && |t.admissions| == |s.admissions|
    && forall i :: 0 <= i < |s.admissions| ==>
      t.admissions[i] == s.admissions[i].(requested := t.admissions[i].requested, primary := t.admissions[i].primary, layers := t.admissions[i].layers)
  }

  lemma {:induction false} ContentsSameRows(env: Sources, s: Plan, app: Pending)
    ensures SameRows(s, Open(s, app))
    ensures var r := VisitContents(env, Open(s, app), app); r.Ok? ==> SameRows(s, r.value)
  {
    hide Resolution, DecodeCapabilities, ResolveLayers, PlannedLayers;
  }

  lemma {:induction false} SameRowsLined(g: Graph, s: Plan, t: Plan)
    requires SameRows(s, t) && Lined(g, s)
    ensures Lined(g, t)
  {
    hide Fits, Known;
    forall i | 0 <= i < |t.admissions|
      ensures Fits(g, t.admissions, t.children, i)
    {
      assert t.children[..|s.children|] == s.children;
      FitsStays(g, s.admissions, s.children, t.admissions, t.children, i);
    }
    forall j | 0 <= j < |t.pending|
      ensures Known(g, t, t.pending[j])
    {
      SameRowsKnown(g, s, t, s.pending[j]);
    }
  }

  lemma {:induction false} SameRowsKnown(g: Graph, s: Plan, t: Plan, app: Pending)
    requires SameRows(s, t) && Known(g, s, app)
    ensures Known(g, t, app)
  {
  }

  /** What following a child edge added, when nothing was blocked. */
  ghost predicate AddedRow(s: Plan, t: Plan, app: Pending) {
    var n, m := |s.admissions|, |s.pending|;
    && |t.admissions| == n + 1 && t.admissions[..n] == s.admissions
    && |t.children| == |s.children| + 1 && t.children[..|s.children|] == s.children
    && t.applicationCount == s.applicationCount + 1
    && t.maxDepth == (if s.maxDepth < app.depth + 1 then app.depth + 1 else s.maxDepth)
    && var row, a := t.children[|s.children|], t.admissions[n];
    && a.parentIndex == app.index && a.parent == app.application && row.parent == app.application
    && row.position == a.position && row.application == a.application && row.capabilities == a.delegated.kappa
    && Saturated(row.depth, app.depth + 1)
    && row.required.Some? && row.layerCount.Some? && row.applicationSource.Some? && row.capabilitiesSource.Some?
    && |t.pending| == m + 1 && t.pending[..m] == s.pending
    && t.pending[m].index == s.applicationCount && t.pending[m].application == a.application && t.pending[m].depth == app.depth + 1
  }

  lemma {:induction false} AdmitAddsRow(g: Graph, s: Plan, app: Pending, position: nat)
    requires Consistent(g.env, s.closure) && position < |app.manifest.children|
    ensures var r := AdmitChild(g.env, s, app, position, app.manifest.children[position]);
      r.Ok? && r.value.closure.blockers == [] ==> AddedRow(s, r.value, app)
  {
    hide Consistent, Resolution, DecodeCapabilities, DecodeChildManifest;
    var edge := app.manifest.children[position];
    var at := DelegatedCapabilities(app.application, U32Of(position));
    DelegateClean(g.env, s.closure, app, position, edge);
    ResolutionClean(g.env, s.closure, edge.capabilities, at);
    var d := Delegate(g.env, s.closure, app, position, edge);
    if d.Ok? {
      ResolutionClean(g.env, d.value.closure, edge.application, ChildApplication(app.application, U32Of(position)));
    }
  }

  lemma {:induction false} AddedKnown(g: Graph, s: Plan, t: Plan, app: Pending, p: Pending)
    requires AddedRow(s, t, app) && Known(g, s, p)
    ensures Known(g, t, p)
  {
    var n, k := |s.admissions|, |s.children|;
    if p.index > 0 {
      assert t.admissions[p.index - 1] == t.admissions[..n][p.index - 1];
      assert t.children[p.index - 1] == t.children[..k][p.index - 1];
    }
  }

  lemma {:induction false} AddedLined(g: Graph, s: Plan, t: Plan, app: Pending)
    requires AddedRow(s, t, app) && Lined(g, s) && Known(g, s, app)
    ensures Lined(g, t) && Known(g, t, app)
  {
    hide Known, Fits, LabelAt, DepthAt;
    AddedAligned(g, s, t, app);
    AddedDeepest(s, t, app);
    AddedKnown(g, s, t, app, app);
    var m := |s.pending|;
    forall j | 0 <= j < |t.pending|
      ensures Known(g, t, t.pending[j])
    {
      if j < m {
        assert t.pending[j] == t.pending[..m][j];
        AddedKnown(g, s, t, app, s.pending[j]);
      } else {
        NewKnown(g, s, t, app);
      }
    }
  }

  lemma {:induction false} NewKnown(g: Graph, s: Plan, t: Plan, app: Pending)
    requires AddedRow(s, t, app) && Aligned(g, s)
    ensures Known(g, t, t.pending[|s.pending|])
  {
    hide Fits;
  }

  lemma {:induction false} AddedAligned(g: Graph, s: Plan, t: Plan, app: Pending)
    requires AddedRow(s, t, app) && Aligned(g, s) && Known(g, s, app)
    ensures Aligned(g, t)
  {
    var n := |s.admissions|;
    forall i | 0 <= i < |t.admissions|
      ensures Fits(g, t.admissions, t.children, i)
    {
      if i < n {
        assert forall j :: 0 <= j <= i ==> t.admissions[j] == t.admissions[..n][j];
        hide Fits;
        FitsStays(g, s.admissions, s.children, t.admissions, t.children, i);
      } else {
        AddedKnown(g, s, t, app, app);
      }
    }
  }

  lemma {:induction false} AddedDeepest(s: Plan, t: Plan, app: Pending)
    requires AddedRow(s, t, app) && Deepest(s)
    ensures Deepest(t)
  {
    var n := |s.children|;
    assert forall i :: 0 <= i < n ==> t.children[i] == t.children[..n][i];
    if t.maxDepth == app.depth + 1 {
      assert Saturated(t.children[n].depth, t.maxDepth);
    } else if s.maxDepth > 0 {
      var i :| 0 <= i < n && Saturated(s.children[i].depth, s.maxDepth);
      assert Saturated(t.children[i].depth, t.maxDepth);
    }
  }

  lemma {:induction false} VisitChildrenInLine(g: Graph, s: Plan, app: Pending, from: nat)
    requires Consistent(g.env, s.closure) && InLine(g, s)
    requires s.closure.blockers == [] ==> Known(g, s, app)
    ensures var r := VisitChildren(g.env, s, app, from); r.Ok? ==> InLine(g, r.value)
    decreases |app.manifest.children| - from
  {
    hide Consistent, Lined, Known, AdmitChild, RefuseChild, Refuse, Appended, AddedRow, Grows;
    if from < |app.manifest.children| {
      VisitChildClean(g, s, app, from);
      AdmitAddsRow(g, s, app, from);
      var s1 := VisitChild(g.env, s, app, from);
      if s1.Ok? {
        if s1.value.closure.blockers == [] {
          CleanBefore(s.closure, s1.value.closure);
          if !Refuse(g.env, s, app, app.manifest.children[from]).Follow? {
            RefusedBlocks(g, s, app, from);
          }
          AddedLined(g, s, s1.value, app);
        }
        VisitChildrenInLine(g, s1.value, app, from + 1);
      }
    }
  }

  lemma {:induction false} RefusedBlocks(g: Graph, s: Plan, app: Pending, from: nat)
    requires from < |app.manifest.children| && !Refuse(g.env, s, app, app.manifest.children[from]).Follow?
    requires s.applicationsLimited ==> s.closure.blockers != []
    ensures var edge := app.manifest.children[from];
      RefuseChild(g.env, s, app, from, edge, Refuse(g.env, s, app, edge)).closure.blockers != []
  {
  }

  lemma {:induction false} VisitInLine(g: Graph, s: Plan)
    requires s.pending != [] && InLine(g, s) && Consistent(g.env, s.closure)
    ensures var r := Visit(g.env, s.(pending := s.pending[1..]), s.pending[0]); r.Ok? ==> InLine(g, r.value.plan)
  {
    hide Consistent, Lined, Known, Advances, Open, VisitContents, VisitChildren, SameRows, Grows;
    var app := s.pending[0];
    var rest := s.(pending := s.pending[1..]);
    var begun := Open(rest, app);
    RestLined(g, s);
    ContentsSameRows(g.env, rest, app);
    OpenKeepsClosure(rest, app);
    SameRowsLimited(rest, begun);
    if begun.totalLayers <= g.env.limits.maxLayers {
      VisitContentsAdvances(g.env, begun, app);
      AdvancesConsistent(g.env, begun, VisitContents(g.env, begun, app));
      var s1 := VisitContents(g.env, begun, app);
      if s1.Ok? {
        SameRowsLimited(rest, s1.value);
        if s.closure.blockers != [] {
          GrownBlocked(s.closure, s1.value.closure);
        } else {
          SameRowsLined(g, rest, s1.value);
          SameRowsKnown(g, rest, s1.value, app);
        }
        VisitChildrenInLine(g, s1.value, app, 0);
      }
    }
  }

  lemma {:induction false} SameRowsLimited(s: Plan, t: Plan)
    requires SameRows(s, t)
    ensures t.applicationsLimited == s.applicationsLimited
  {
  }

  lemma {:induction false} OpenKeepsClosure(s: Plan, app: Pending)
    ensures Open(s, app).closure == s.closure
  {
  }

  lemma {:induction false} AdvancesConsistent(env: Sources, s: Plan, r: Result<Plan>)
    requires Consistent(env, s.closure) && (r.Ok? ==> Advances(env, s.closure, r.value.closure))
    ensures r.Ok? ==> Consistent(env, r.value.closure) && Grows(s.closure, r.value.closure)
  {
    hide Consistent, Grows;
  }

  lemma {:induction false} GrownBlocked(s: State, t: State)
    requires Grows(s, t) && s.blockers != []
    ensures t.blockers != []
  {
  }

  lemma {:induction false} RestLined(g: Graph, s: Plan)
    requires s.pending != []
    ensures Lined(g, s) ==> Lined(g, s.(pending := s.pending[1..])) && Known(g, s.(pending := s.pending[1..]), s.pending[0])
  {
    hide Fits, LabelAt, DepthAt;
    if Lined(g, s) {
      assert Known(g, s, s.pending[0]);
      forall j | 0 <= j < |s.pending[1..]|
        ensures Known(g, s.(pending := s.pending[1..]), s.pending[1..][j])
      {
        assert Known(g, s, s.pending[j + 1]);
      }
    }
  }

  lemma {:induction false} StartInLine(g: Graph)
    ensures InLine(g, Start(g.env, g.root, g.manifest))
  {
  }

  /** A run that ends without blockers ends with its rows, admissions, labels and depths in line. */
  lemma {:induction false} RunInLine(g: Graph, s: Plan)
    requires InLine(g, s) && g.Bounded(s) && Consistent(g.env, s.closure)
    ensures var r := Run(g.env, s); r.Ok? ==> InLine(g, r.value)
    decreases Room(g.env, s)
  {
    hide InLine, Consistent, Visit, Graph.Reached;
    if s.pending != [] {
      var rest := s.(pending := s.pending[1..]);
      VisitRoom(g.env, rest, s.pending[0]);
      VisitKeeps(g, rest, s.pending[0]);
      VisitInLine(g, s);
      var turn := Visit(g.env, rest, s.pending[0]);
      if turn.Ok? && !turn.value.stop {
        RunInLine(g, turn.value.plan);
      }
    }
  }
}
