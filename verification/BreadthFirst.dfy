/** Breadth-first order of a graph, level by level: the reference for the storage-graph search. */
module BreadthFirst {
  import opened Basics

  /** References of every object, and the roots. */
  datatype Web = Web(refs: Kappa -> seq<Kappa>, roots: seq<Kappa>)

  /** `acc`, then the members of `list` that are new, in first-seen order. */
  function Extend(acc: seq<Kappa>, list: seq<Kappa>): seq<Kappa>
    decreases |list|
  {
    if list == [] then acc
    else if list[0] in acc then Extend(acc, list[1..])
    else Extend(acc + [list[0]], list[1..])
  }

  /** All references of a list of objects, in order. */
  function Flat(w: Web, list: seq<Kappa>): seq<Kappa> {
    if list == [] then [] else Flat(w, list[..|list| - 1]) + w.refs(list[|list| - 1])
  }

  /** Everything within `n` edges of a root, breadth first. */
  function Order(w: Web, n: nat): seq<Kappa>
    decreases n, 0
  {
    if n == 0 then Extend([], w.roots) else Extend(Order(w, n - 1), Flat(w, Level(w, n - 1)))
  }

  function Before(w: Web, n: nat): seq<Kappa>
    decreases n, 0
  {
    if n == 0 then [] else Order(w, n - 1)
  }

  /** The objects first met at distance `n`. */
  function Level(w: Web, n: nat): seq<Kappa>
    decreases n, 1
  {
    if |Before(w, n)| <= |Order(w, n)| then Order(w, n)[|Before(w, n)|..] else []
  }

  /** There is a walk of at most `n` edges from a root. */
  ghost predicate Within(w: Web, k: Kappa, n: nat)
    decreases n
  {
    if n == 0 then k in w.roots
    else Within(w, k, n - 1) || exists p :: Within(w, p, n - 1) && k in w.refs(p)
  }

  ghost predicate Reachable(w: Web, k: Kappa) {
    exists n: nat :: Within(w, k, n)
  }

  /** The shortest walk from a root has exactly `n` edges. */
  ghost predicate AtDistance(w: Web, k: Kappa, n: nat) {
    Within(w, k, n) && forall m :: 0 <= m < n ==> !Within(w, k, m)
  }

  // ---------- Extend ----------

  lemma {:induction false} ExtendIs(acc: seq<Kappa>, list: seq<Kappa>)
    ensures acc <= Extend(acc, list)
    ensures forall k :: k in Extend(acc, list) <==> k in acc || k in list
    ensures NoDuplicates(acc) ==> NoDuplicates(Extend(acc, list))
    decreases |list|
  {
    if list != [] {
      assert list == [list[0]] + list[1..];
      if list[0] in acc {
        ExtendIs(acc, list[1..]);
      } else {
        ExtendIs(acc + [list[0]], list[1..]);
      }
    }
  }

  lemma {:induction false} ExtendSeen(acc: seq<Kappa>, list: seq<Kappa>)
    requires forall k :: k in list ==> k in acc
    ensures Extend(acc, list) == acc
    decreases |list|
  {
    if list != [] {
      ExtendSeen(acc, list[1..]);
    }
  }

  lemma {:induction false} FlatHas(w: Web, list: seq<Kappa>, p: Kappa, k: Kappa)
    requires p in list && k in w.refs(p)
    ensures k in Flat(w, list)
    decreases |list|
  {
    var last := |list| - 1;
    assert list == list[..last] + [list[last]];
    if p != list[last] {
      FlatHas(w, list[..last], p, k);
    }
  }

  lemma {:induction false} FlatSource(w: Web, list: seq<Kappa>, k: Kappa) returns (p: Kappa)
    requires k in Flat(w, list)
    ensures p in list && k in w.refs(p)
    decreases |list|
  {
    var last := |list| - 1;
    if k in w.refs(list[last]) {
      p := list[last];
    } else {
      p := FlatSource(w, list[..last], k);
    }
  }

  lemma {:induction false} FlatEmpty(w: Web, list: seq<Kappa>)
    ensures Flat(w, list) == [] <==> forall k :: k in list ==> w.refs(k) == []
    decreases |list|
  {
    if list != [] {
      var last := |list| - 1;
      FlatEmpty(w, list[..last]);
      assert list == list[..last] + [list[last]];
    }
  }

  // ---------- Levels ----------

  lemma {:induction false} OrderStep(w: Web, n: nat)
    ensures Before(w, n) <= Order(w, n)
    ensures Order(w, n) == Before(w, n) + Level(w, n)
    ensures NoDuplicates(Order(w, n))
    ensures Order(w, n + 1) == Extend(Order(w, n), Flat(w, Level(w, n)))
    decreases n
  {
    hide Extend, Flat;
    if n == 0 {
      ExtendIs([], w.roots);
    } else {
      OrderStep(w, n - 1);
      ExtendIs(Order(w, n - 1), Flat(w, Level(w, n - 1)));
    }
  }

  lemma {:induction false} OrderGrows(w: Web, n: nat, m: nat)
    requires n <= m
    ensures Order(w, n) <= Order(w, m)
    decreases m
  {
    hide Order, Level;
    if n < m {
      OrderGrows(w, n, m - 1);
      OrderStep(w, m);
    }
  }

  /** The references of everything within `n` edges are within `n + 1`. */
  lemma {:induction false} RefsNext(w: Web, n: nat, p: Kappa, k: Kappa)
    requires p in Order(w, n) && k in w.refs(p)
    ensures k in Order(w, n + 1)
    decreases n
  {
    hide Order, Level, Extend, Flat;
    OrderStep(w, n);
    ExtendIs(Order(w, n), Flat(w, Level(w, n)));
    if p in Level(w, n) {
      FlatHas(w, Level(w, n), p, k);
    } else {
      RefsNext(w, n - 1, p, k);
    }
  }

  /** The order lists exactly what is within `n` edges. */
  lemma {:induction false} OrderIsWithin(w: Web, n: nat, k: Kappa)
    ensures k in Order(w, n) <==> Within(w, k, n)
    decreases n
  {
    hide Order, Level, Extend, Flat;
    if n == 0 {
      OrderZero(w);
      ExtendIs([], w.roots);
    } else {
      OrderIsWithin(w, n - 1, k);
      OrderStep(w, n - 1);
      var level := Level(w, n - 1);
      ExtendIs(Order(w, n - 1), Flat(w, level));
      if k in Flat(w, level) {
        var p := FlatSource(w, level, k);
        OrderIsWithin(w, n - 1, p);
      }
      if exists p :: Within(w, p, n - 1) && k in w.refs(p) {
        var p :| Within(w, p, n - 1) && k in w.refs(p);
        OrderIsWithin(w, n - 1, p);
        RefsNext(w, n - 1, p, k);
      }
    }
  }

  lemma {:induction false} OrderZero(w: Web)
    ensures Order(w, 0) == Extend([], w.roots)
  {
  }

  lemma {:induction false} WithinGrows(w: Web, k: Kappa, n: nat, m: nat)
    requires n <= m && Within(w, k, n)
    ensures Within(w, k, m)
    decreases m
  {
    if n < m {
      WithinGrows(w, k, n, m - 1);
    }
  }

  /** A level is exactly the objects at that distance. */
  lemma {:induction false} LevelIsDistance(w: Web, n: nat, k: Kappa)
    ensures k in Level(w, n) <==> AtDistance(w, k, n)
  {
    hide Order, Level, Within;
    OrderStep(w, n);
    OrderIsWithin(w, n, k);
    if n > 0 {
      BeforeIs(w, n);
      OrderIsWithin(w, n - 1, k);
      if k in Level(w, n) {
        LevelIsNew(w, n, k);
        forall m | 0 <= m < n
          ensures !Within(w, k, m)
        {
          if Within(w, k, m) {
            WithinGrows(w, k, m, n - 1);
          }
        }
      }
    } else {
      BeforeNone(w);
    }
  }

  lemma {:induction false} BeforeIs(w: Web, n: nat)
    requires n > 0
    ensures Before(w, n) == Order(w, n - 1)
  {
  }

  lemma {:induction false} BeforeNone(w: Web)
    ensures Before(w, 0) == []
  {
  }

  lemma {:induction false} LevelIsNew(w: Web, n: nat, k: Kappa)
    requires k in Level(w, n)
    ensures k !in Before(w, n)
  {
    hide Order, Level, Before;
    OrderStep(w, n);
    var before, level := Before(w, n), Level(w, n);
    var j :| 0 <= j < |level| && level[j] == k;
    assert Order(w, n)[|before| + j] == k;
    forall i | 0 <= i < |before|
      ensures before[i] != k
    {
      assert Order(w, n)[i] == before[i];
    }
  }

  /** A level without references is the last one. */
  lemma {:induction false} Settled(w: Web, n: nat, m: nat)
    requires n <= m && Flat(w, Level(w, n)) == []
    ensures Order(w, m) == Order(w, n) && Flat(w, Level(w, m)) == []
    ensures n < m ==> Level(w, m) == []
    decreases m
  {
    hide Order, Level, Flat;
    if n < m {
      Settled(w, n, m - 1);
      OrderStep(w, m - 1);
      OrderStep(w, m);
      BeforeIs(w, m);
      ExtendSeen(Order(w, m - 1), []);
      FlatEmpty(w, []);
    }
  }

  /** When level `n` has no references, everything reachable is within `n` edges. */
  lemma {:induction false} SettledIsReachable(w: Web, n: nat, k: Kappa)
    requires Flat(w, Level(w, n)) == []
    ensures Reachable(w, k) <==> k in Order(w, n)
  {
    hide Order, Level, Flat, Within;
    OrderIsWithin(w, n, k);
    if Reachable(w, k) {
      var m: nat :| Within(w, k, m);
      OrderIsWithin(w, m, k);
      if m < n {
        WithinGrows(w, k, m, n);
      } else {
        Settled(w, n, m);
      }
    }
  }

  // ---------- Sums ----------

  function Sum(weight: Kappa -> nat, list: seq<Kappa>): nat {
    if list == [] then 0 else Sum(weight, list[..|list| - 1]) + weight(list[|list| - 1])
  }

  lemma {:induction false} SumGrows(weight: Kappa -> nat, list: seq<Kappa>, more: seq<Kappa>)
    requires list <= more
    ensures Sum(weight, list) <= Sum(weight, more)
    decreases |more|
  {
    if |list| == |more| {
      assert list == more;
    } else {
      SumGrows(weight, list, more[..|more| - 1]);
    }
  }

  lemma {:induction false} SumSnoc(weight: Kappa -> nat, list: seq<Kappa>, k: Kappa)
    ensures Sum(weight, list + [k]) == Sum(weight, list) + weight(k)
  {
    assert (list + [k])[..|list|] == list;
  }

  lemma {:induction false} FlatSnoc(w: Web, list: seq<Kappa>, k: Kappa)
    ensures Flat(w, list + [k]) == Flat(w, list) + w.refs(k)
  {
    assert (list + [k])[..|list|] == list;
  }
}
