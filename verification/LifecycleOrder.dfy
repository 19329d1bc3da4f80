/** The order in which a planned tree is prepared and started (src/holo_provider.rs:735-763). */
module LifecycleOrder {
  import opened Basics
  import opened PlanReport

  /** The first `count` applications below a parent, in index order. */
  function Siblings(children: seq<ResolvedChild>, parent: nat, count: nat): (r: seq<nat>)
    requires Indexed(children) && count <= |children|
    ensures forall i :: 0 <= i < |r| ==> parent < r[i] <= count && children[r[i] - 1].parentIndex == parent
  {
    if count == 0 then []
    else
      var rest := Siblings(children, parent, count - 1);
      if children[count - 1].parentIndex == parent then rest + [count] else rest
  }

  /** Recursive preorder: an application, then the preorders of its children in manifest order. */
  function Preorder(children: seq<ResolvedChild>, i: nat): seq<nat>
    requires Indexed(children) && i <= |children|
    decreases |children| - i, 1
  {
    [i] + Forest(children, Siblings(children, i, |children|), i)
  }

  function Forest(children: seq<ResolvedChild>, roots: seq<nat>, ghost above: int): seq<nat>
    requires Indexed(children) && above <= |children|
    requires forall k :: 0 <= k < |roots| ==> above < roots[k] <= |children|
    decreases |children| - above, 0, |roots|
  {
    if roots == [] then []
    else Preorder(children, roots[0]) + Forest(children, roots[1..], above)
  }

  ghost predicate Below(children: seq<ResolvedChild>, roots: seq<nat>, above: int) {
    above <= |children| && forall k :: 0 <= k < |roots| ==> above < roots[k] <= |children|
  }

  lemma {:induction false} ForestIrrelevant(children: seq<ResolvedChild>, roots: seq<nat>, a: int, b: int)
    requires Indexed(children) && Below(children, roots, a) && Below(children, roots, b)
    ensures Forest(children, roots, a) == Forest(children, roots, b)
    decreases |roots|
  {
    if roots != [] {
      ForestIrrelevant(children, roots[1..], a, b);
    }
  }

  lemma {:induction false} ForestAppend(children: seq<ResolvedChild>, left: seq<nat>, right: seq<nat>, above: int)
    requires Indexed(children) && Below(children, left, above) && Below(children, right, above)
    ensures Forest(children, left + right, above) == Forest(children, left, above) + Forest(children, right, above)
    decreases |left|
  {
    if left == [] {
      assert left + right == right;
    } else {
      assert (left + right)[1..] == left[1..] + right;
      ForestAppend(children, left[1..], right, above);
    }
  }

  // ---------- The preorder visits every application once ----------

  /** The child of `a` on the way down to its descendant `x`. */
  ghost function Toward(children: seq<ResolvedChild>, a: nat, x: nat): (r: nat)
    requires Indexed(children) && x <= |children| && a != x && Ancestor(children, a, x)
    ensures a < r <= x && children[r - 1].parentIndex == a && Ancestor(children, r, x)
    decreases x
  {
    AncestorBefore(children, a, x);
    var p := children[x - 1].parentIndex;
    if p == a then x else Toward(children, a, p)
  }

  lemma {:induction false} TowardUnique(children: seq<ResolvedChild>, a: nat, s: nat, x: nat)
    requires Indexed(children) && 0 < s <= x <= |children|
    requires children[s - 1].parentIndex == a && Ancestor(children, s, x)
    ensures a != x && Ancestor(children, a, x) && Toward(children, a, x) == s
    decreases x
  {
    if s != x {
      var p := children[x - 1].parentIndex;
      AncestorBefore(children, s, p);
      TowardUnique(children, a, s, p);
    }
  }

  lemma {:induction false} PreorderCount(children: seq<ResolvedChild>, a: nat, x: nat)
    requires Indexed(children) && a <= |children| && x <= |children|
    ensures multiset(Preorder(children, a))[x] == if Ancestor(children, a, x) then 1 else 0
    decreases |children| - a, 1, 0
  {
    SiblingsCount(children, a, |children|, x);
  }

  lemma {:induction false} SiblingsCount(children: seq<ResolvedChild>, a: nat, count: nat, x: nat)
    requires Indexed(children) && a <= |children| && count <= |children| && x <= |children|
    ensures multiset(Forest(children, Siblings(children, a, count), a))[x]
      == if a != x && Ancestor(children, a, x) && Toward(children, a, x) <= count then 1 else 0
    decreases |children| - a, 0, count
  {
    hide Preorder, Forest, Ancestor;
    if count == 0 {
      ForestOfNone(children, a);
    } else {
      SiblingsCount(children, a, count - 1, x);
      if children[count - 1].parentIndex == a {
        var rest := Siblings(children, a, count - 1);
        ForestAppend(children, rest, [count], a);
        ForestOfOne(children, count, a);
        assert multiset(Forest(children, rest + [count], a))[x]
          == multiset(Forest(children, rest, a))[x] + multiset(Preorder(children, count))[x];
        PreorderCount(children, count, x);
        if Ancestor(children, count, x) {
          AncestorBefore(children, count, x);
          TowardUnique(children, a, count, x);
        }
      }
    }
  }

  lemma {:induction false} ForestOfNone(children: seq<ResolvedChild>, above: int)
    requires Indexed(children) && above <= |children|
    ensures Forest(children, [], above) == []
  {
  }

  lemma {:induction false} ForestOfOne(children: seq<ResolvedChild>, i: nat, above: int)
    requires Indexed(children) && above < i <= |children|
    ensures Forest(children, [i], above) == Preorder(children, i)
  {
    ForestOfNone(children, above);
  }

  /** All application indices of a plan with `n` children. */
  ghost function Indices(n: nat): set<nat> {
    if n == 0 then {0} else Indices(n - 1) + {n}
  }

  lemma {:induction false} IndicesAre(n: nat)
    ensures |Indices(n)| == n + 1
    ensures forall x: nat :: x in Indices(n) <==> x <= n
  {
    if n > 0 {
      IndicesAre(n - 1);
    }
  }

  lemma {:induction false} RootIsAncestor(children: seq<ResolvedChild>, x: nat)
    requires Indexed(children) && x <= |children|
    ensures Ancestor(children, 0, x)
    decreases x
  {
    if x > 0 {
      RootIsAncestor(children, children[x - 1].parentIndex);
    }
  }

  lemma {:induction false} PreorderInRange(children: seq<ResolvedChild>, a: nat)
    requires Indexed(children) && a <= |children|
    ensures forall k :: 0 <= k < |Preorder(children, a)| ==> Preorder(children, a)[k] <= |children|
    decreases |children| - a, 1, 0
  {
    ForestInRange(children, Siblings(children, a, |children|), a);
  }

  lemma {:induction false} ForestInRange(children: seq<ResolvedChild>, roots: seq<nat>, above: int)
    requires Indexed(children) && Below(children, roots, above)
    ensures forall k :: 0 <= k < |Forest(children, roots, above)| ==> Forest(children, roots, above)[k] <= |children|
    decreases |children| - above, 0, |roots|
  {
    if roots != [] {
      PreorderInRange(children, roots[0]);
      ForestInRange(children, roots[1..], above);
    }
  }

  /** The preorder of the root is a permutation of all application indices. */
  lemma {:induction false} PreorderIsPermutation(children: seq<ResolvedChild>)
    requires Indexed(children)
    ensures multiset(Preorder(children, 0)) == multiset(Indices(|children|))
    ensures |Preorder(children, 0)| == |children| + 1
    ensures Preorder(children, 0)[0] == 0
  {
    hide Forest, Ancestor, Indices;
    IndicesAre(|children|);
    var order := Preorder(children, 0);
    var visited: multiset<nat>, all: multiset<nat> := multiset(order), multiset(Indices(|children|));
    forall x: nat
      ensures visited[x] == all[x]
    {
      if x <= |children| {
        PreorderCount(children, 0, x);
        RootIsAncestor(children, x);
      } else {
        PreorderInRange(children, 0);
        assert x !in order;
      }
    }
    assert |visited| == |order|;
  }

  /** The subtree of every application is one contiguous block, and the block starts with the application
      itself, so a parent always comes before all its descendants. */
  lemma {:induction false} SubtreeIsContiguous(children: seq<ResolvedChild>, x: nat) returns (at: nat)
    requires Indexed(children) && x <= |children|
    ensures at + |Preorder(children, x)| <= |Preorder(children, 0)|
    ensures Preorder(children, 0)[at..at + |Preorder(children, x)|] == Preorder(children, x)
    ensures Preorder(children, x)[0] == x
    decreases x
  {
    hide Forest, Siblings;
    if x == 0 {
      at := 0;
    } else {
      var p := children[x - 1].parentIndex;
      var up := SubtreeIsContiguous(children, p);
      var inside := ChildBlock(children, p, x);
      at := up + inside;
      var whole, parent, own := Preorder(children, 0), Preorder(children, p), Preorder(children, x);
      SliceOfSlice(whole, up, up + |parent|, inside, inside + |own|);
    }
  }

  lemma {:induction false} SliceOfSlice(s: seq<nat>, a: nat, b: nat, c: nat, d: nat)
    requires a <= b <= |s| && c <= d <= b - a
    ensures s[a..b][c..d] == s[a + c..a + d]
  {
    forall i | 0 <= i < d - c
      ensures s[a..b][c..d][i] == s[a + c..a + d][i]
    {
      assert s[a..b][c + i] == s[a + c + i];
    }
  }

  lemma {:induction false} ChildBlock(children: seq<ResolvedChild>, p: nat, x: nat) returns (at: nat)
    requires Indexed(children) && 0 < x <= |children| && children[x - 1].parentIndex == p
    ensures at + |Preorder(children, x)| <= |Preorder(children, p)|
    ensures Preorder(children, p)[at..at + |Preorder(children, x)|] == Preorder(children, x)
  {
    PreorderIs(children, p);
    var inside := SiblingBlock(children, p, |children|, x);
    at := 1 + inside;
    hide *;
    var forest := Forest(children, Siblings(children, p, |children|), p);
    Shift([p], forest, inside, inside + |Preorder(children, x)|);
  }

  lemma Shift(a: seq<nat>, b: seq<nat>, from: nat, to: nat)
    requires from <= to <= |b|
    ensures (a + b)[|a| + from..|a| + to] == b[from..to]
  {
  }

  lemma {:induction false} PreorderIs(children: seq<ResolvedChild>, i: nat)
    requires Indexed(children) && i <= |children|
    ensures Preorder(children, i) == [i] + Forest(children, Siblings(children, i, |children|), i)
  {
  }

  lemma {:induction false} SiblingBlock(children: seq<ResolvedChild>, p: nat, count: nat, x: nat) returns (at: nat)
    requires Indexed(children) && 0 < x <= count <= |children| && children[x - 1].parentIndex == p
    ensures var forest := Forest(children, Siblings(children, p, count), p);
      at + |Preorder(children, x)| <= |forest| && forest[at..at + |Preorder(children, x)|] == Preorder(children, x)
    decreases count
  {
    hide Preorder, Forest;
    var rest := Siblings(children, p, count - 1);
    var before, own := Forest(children, rest, p), Preorder(children, x);
    if children[count - 1].parentIndex == p {
      ForestAppend(children, rest, [count], p);
      ForestOfOne(children, count, p);
    }
    if x == count {
      at := |before|;
      Shift(before, own, 0, |own|);
    } else {
      at := SiblingBlock(children, p, count - 1, x);
      if children[count - 1].parentIndex == p {
        Inside(before, Preorder(children, count), at, at + |own|);
      }
    }
  }

  lemma Inside(a: seq<nat>, b: seq<nat>, from: nat, to: nat)
    requires from <= to <= |a|
    ensures (a + b)[from..to] == a[from..to]
  {
  }

  // ---------- The traversal ----------

  /** The sort key of an application: its position in the parent's manifest, then its index. */
  predicate KeyAtMost(children: seq<ResolvedChild>, a: nat, b: nat) {
    if 0 < a <= |children| && 0 < b <= |children| then
      var p, q := children[a - 1].position, children[b - 1].position;
      p < q || (p == q && children[a - 1].index <= children[b - 1].index)
    else a <= b
  }

  function InsertByKey(children: seq<ResolvedChild>, sorted: seq<nat>, x: nat): seq<nat> {
    var n := |sorted|;
    if n == 0 || KeyAtMost(children, sorted[n - 1], x) then sorted + [x]
    else InsertByKey(children, sorted[..n - 1], x) + [sorted[n - 1]]
  }

  /** `sort_by_key` */
  function SortByKey(children: seq<ResolvedChild>, list: seq<nat>): seq<nat> {
    if list == [] then []
    else InsertByKey(children, SortByKey(children, list[..|list| - 1]), list[|list| - 1])
  }

  lemma {:induction false} KeysAreOrdered(children: seq<ResolvedChild>, a: nat, b: nat, c: nat)
    ensures KeyAtMost(children, a, b) && KeyAtMost(children, b, c) ==> KeyAtMost(children, a, c)
    ensures KeyAtMost(children, a, b) || KeyAtMost(children, b, a)
  {
  }

  lemma {:induction false} ByKeySnoc(children: seq<ResolvedChild>, list: seq<nat>, x: nat)
    requires ByKey(children, list) && forall i :: 0 <= i < |list| ==> KeyAtMost(children, list[i], x)
    ensures ByKey(children, list + [x])
  {
    hide KeyAtMost;
  }

  lemma {:induction false} InsertKeeps(children: seq<ResolvedChild>, sorted: seq<nat>, x: nat)
    requires ByKey(children, sorted)
    ensures ByKey(children, InsertByKey(children, sorted, x))
    ensures multiset(InsertByKey(children, sorted, x)) == multiset(sorted) + multiset{x}
    decreases |sorted|
  {
    hide KeyAtMost;
    var n := |sorted|;
    if n == 0 || KeyAtMost(children, sorted[n - 1], x) {
      forall i | 0 <= i < n
        ensures KeyAtMost(children, sorted[i], x)
      {
        KeysAreOrdered(children, sorted[i], sorted[n - 1], x);
      }
      ByKeySnoc(children, sorted, x);
    } else {
      var init, last := sorted[..n - 1], sorted[n - 1];
      assert sorted == init + [last];
      InsertKeeps(children, init, x);
      var inner := InsertByKey(children, init, x);
      KeysAreOrdered(children, last, x, x);
      forall i | 0 <= i < |inner|
        ensures KeyAtMost(children, inner[i], last)
      {
        InsertedFrom(init, x, inner, i);
      }
      ByKeySnoc(children, inner, last);
    }
  }

  lemma {:induction false} InsertedFrom(init: seq<nat>, x: nat, inner: seq<nat>, i: nat)
    requires i < |inner| && multiset(inner) == multiset(init) + multiset{x}
    ensures inner[i] == x || inner[i] in init
  {
    assert inner[i] in multiset(inner);
  }

  ghost predicate ByKey(children: seq<ResolvedChild>, list: seq<nat>) {
    forall i, j :: 0 <= i < j < |list| ==> KeyAtMost(children, list[i], list[j])
  }

  /** `sort_by_key` yields a permutation in key order. */
  lemma {:induction false} SortIsOrderedPermutation(children: seq<ResolvedChild>, list: seq<nat>)
    ensures ByKey(children, SortByKey(children, list)) && multiset(SortByKey(children, list)) == multiset(list)
    decreases |list|
  {
    hide InsertByKey, ByKey;
    if list == [] {
      EmptyByKey(children);
    } else {
      var n := |list| - 1;
      assert list == list[..n] + [list[n]];
      SortIsOrderedPermutation(children, list[..n]);
      InsertKeeps(children, SortByKey(children, list[..n]), list[n]);
    }
  }

  lemma {:induction false} EmptyByKey(children: seq<ResolvedChild>)
    ensures ByKey(children, [])
  {
  }

  /** Siblings are already in key order, even where positions saturate. */
  lemma {:induction false} SiblingsSorted(children: seq<ResolvedChild>, parent: nat, count: nat)
    requires Indexed(children) && SiblingsOrdered(children) && count <= |children|
    ensures SortByKey(children, Siblings(children, parent, count)) == Siblings(children, parent, count)
    decreases count
  {
    hide InsertByKey, SortByKey;
    if count == 0 {
      SortEmpty(children);
    } else {
      SiblingsSorted(children, parent, count - 1);
      var rest := Siblings(children, parent, count - 1);
      if children[count - 1].parentIndex == parent {
        assert rest == [] || KeyAtMost(children, rest[|rest| - 1], count);
        SortSnoc(children, rest, count);
      }
    }
  }

  lemma {:induction false} SortEmpty(children: seq<ResolvedChild>)
    ensures SortByKey(children, []) == []
  {
  }

  lemma {:induction false} SortSnoc(children: seq<ResolvedChild>, list: seq<nat>, x: nat)
    requires SortByKey(children, list) == list
    requires list == [] || KeyAtMost(children, list[|list| - 1], x)
    ensures SortByKey(children, list + [x]) == list + [x]
  {
    hide KeyAtMost;
    assert (list + [x])[..|list|] == list;
  }

  /** The preorders of the applications on a stack, top of the stack first. */
  function StackForest(children: seq<ResolvedChild>, stack: seq<nat>): seq<nat>
    requires Indexed(children) && forall k :: 0 <= k < |stack| ==> stack[k] <= |children|
  {
    if stack == [] then []
    else Preorder(children, stack[|stack| - 1]) + StackForest(children, stack[..|stack| - 1])
  }

  function Reversed(list: seq<nat>): (r: seq<nat>)
    ensures |r| == |list| && forall k :: 0 <= k < |list| ==> r[k] == list[|list| - 1 - k]
  {
    if list == [] then [] else Reversed(list[1..]) + [list[0]]
  }

  lemma {:induction false} StackTop(children: seq<ResolvedChild>, stack: seq<nat>, top: nat)
    requires Indexed(children) && top <= |children| && forall k :: 0 <= k < |stack| ==> stack[k] <= |children|
    ensures StackForest(children, stack + [top]) == Preorder(children, top) + StackForest(children, stack)
  {
    hide Preorder;
    assert (stack + [top])[..|stack|] == stack;
  }

  /** Pushing children in reverse puts their forest on top of the stack. */
  lemma {:induction false} PushReversed(children: seq<ResolvedChild>, stack: seq<nat>, list: seq<nat>, above: int)
    requires Indexed(children) && Below(children, list, above)
    requires forall k :: 0 <= k < |stack| ==> stack[k] <= |children|
    ensures StackForest(children, stack + Reversed(list)) == Forest(children, list, above) + StackForest(children, stack)
    decreases |list|
  {
    hide Preorder, StackForest;
    if list == [] {
      assert stack + Reversed(list) == stack;
    } else {
      PushReversed(children, stack, list[1..], above);
      var below := stack + Reversed(list[1..]);
      assert stack + Reversed(list) == below + [list[0]];
      StackTop(children, below, list[0]);
    }
  }

  /** Popping an application and pushing its children in reverse keeps what is still to be visited. */
  lemma {:induction false} StackStep(children: seq<ResolvedChild>, order: seq<nat>, stack: seq<nat>)
    requires Indexed(children) && stack != [] && forall k :: 0 <= k < |stack| ==> stack[k] <= |children|
    ensures var top, rest := stack[|stack| - 1], stack[..|stack| - 1];
      var pushed := rest + Reversed(Siblings(children, top, |children|));
      && (forall k :: 0 <= k < |pushed| ==> pushed[k] <= |children|)
      && (order + [top]) + StackForest(children, pushed) == order + StackForest(children, stack)
  {
    hide Preorder;
    var top, rest := stack[|stack| - 1], stack[..|stack| - 1];
    var sibs := Siblings(children, top, |children|);
    PreorderIs(children, top);
    PushReversed(children, rest, sibs, top);
    var below, after := Forest(children, sibs, top), StackForest(children, rest);
    assert (order + [top]) + (below + after) == order + (([top] + below) + after);
  }

  /** `lifecycle_application_order`: on every planner-made plan the stack traversal ends, visits the preorder of
      the root, and its "reached k of n" conflict is never returned. */
  method LifecycleApplicationOrder(plan: ApplicationPlan) returns (r: Result<seq<nat>>)
    requires Indexed(plan.children) && SiblingsOrdered(plan.children)
    ensures r == Ok(Preorder(plan.children, 0))
  {
    var children := plan.children;
    var byParent := GroupByParent(children);
    hide Preorder, Siblings, Reversed;
    var order: seq<nat>, stack: seq<nat> := [], [0];
    ghost var whole := Preorder(children, 0);
    PreorderIsPermutation(children);
    assert StackForest(children, [0]) == whole + StackForest(children, []);
    while stack != []
      invariant forall k :: 0 <= k < |stack| ==> stack[k] <= |children|
      invariant order + StackForest(children, stack) == whole
      decreases |whole| - |order|
    {
      var top := stack[|stack| - 1];
      StackStep(children, order, stack);
      stack := stack[..|stack| - 1];
      order := order + [top];
      if top in byParent {
        stack := stack + Reversed(byParent[top]);
      } else {
        assert stack + Reversed([]) == stack;
      }
    }
    assert order + [] == order;
    if |order| != |children| + 1 {
      return Err(Conflict);
    }
    return Ok(order);
  }

  /** The children of every parent, sorted by key. */
  method GroupByParent(children: seq<ResolvedChild>) returns (byParent: map<nat, seq<nat>>)
    requires Indexed(children) && SiblingsOrdered(children)
    ensures forall p: nat :: Siblings(children, p, |children|) == if p in byParent then byParent[p] else []
  {
    var grouped: map<nat, seq<nat>> := map[];
    for i := 0 to |children|
      invariant forall p: nat :: Siblings(children, p, i) == if p in grouped then grouped[p] else []
    {
      var p := children[i].parentIndex;
      grouped := grouped[p := (if p in grouped then grouped[p] else []) + [children[i].index]];
    }
    byParent := map p | p in grouped :: SortByKey(children, grouped[p]);
    forall p: nat
      ensures Siblings(children, p, |children|) == if p in byParent then byParent[p] else []
    {
      SiblingsSorted(children, p, |children|);
    }
  }
}
