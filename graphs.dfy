// Hop distances in an undirected station graph, as values: the layered
// breadth-first searches of RouteFinder.getShortestPathLength and
// RouteFinder.getTreePath and what they compute (hop distances, the
// sentinel 12, distance trees). Stations are of any type with equality.

module Graphs {
  import opened Wrappers

  /** For every station, its neighbours. */
  type Graph<V> = map<V, set<V>>

  datatype SearchError = NullPointer | RouteNotFound

  /** b is a neighbour of a. */
  predicate Linked<V(==)>(g: Graph<V>, a: V, b: V)
  {
    a in g && b in g[a]
  }

  /** Both directions of every link are present. */
  ghost predicate Symmetric<V>(g: Graph<V>)
  {
    forall a, b | a in g && b in g[a] :: Linked(g, b, a)
  }

  // ---------------------------------------------------------------------------
  // layers of a breadth-first search

  /** The stations one link away from some station of s. */
  function Step<V(==)>(g: Graph<V>, s: set<V>): (t: set<V>)
    ensures t <= g.Keys
  {
    set u, n | u in s && u in g && n in g[u] && n in g :: n
  }

  /** The stations at most k links away from s. */
  function Within<V(==)>(g: Graph<V>, s: V, k: nat): set<V>
  {
    if k == 0 then {s} else Within(g, s, k - 1) + Step(g, Within(g, s, k - 1))
  }

  /** The stations exactly k links away from s. */
  function Layer<V(==)>(g: Graph<V>, s: V, k: nat): set<V>
  {
    if k == 0 then {s} else Within(g, s, k) - Within(g, s, k - 1)
  }

  /** d is the hop distance from s to e. */
  ghost predicate IsDistance<V>(g: Graph<V>, s: V, e: V, d: nat)
  {
    e in Within(g, s, d) && (d == 0 || e !in Within(g, s, d - 1))
  }

  ghost predicate Reachable<V>(g: Graph<V>, s: V, e: V)
  {
    exists k: nat :: e in Within(g, s, k)
  }

  lemma {:induction false} WithinMono<V>(g: Graph<V>, s: V, j: nat, k: nat)
    requires j <= k
    ensures Within(g, s, j) <= Within(g, s, k)
    decreases k
  {
    if j < k {
      WithinMono(g, s, j, k - 1);
    }
  }

  lemma WithinInGraph<V>(g: Graph<V>, s: V, k: nat)
    requires s in g
    ensures Within(g, s, k) <= g.Keys
  {
  }

  /** A distance is the least number of links that reaches the station. */
  lemma DistanceIsLeast<V>(g: Graph<V>, s: V, e: V, d: nat, k: nat)
    requires IsDistance(g, s, e, d) && e in Within(g, s, k)
    ensures d <= k
  {
    if k < d {
      WithinMono(g, s, k, d - 1);
    }
  }

  lemma DistanceUnique<V>(g: Graph<V>, s: V, e: V, d1: nat, d2: nat)
    requires IsDistance(g, s, e, d1) && IsDistance(g, s, e, d2)
    ensures d1 == d2
  {
    DistanceIsLeast(g, s, e, d1, d2);
    DistanceIsLeast(g, s, e, d2, d1);
  }

  /** Once a layer adds nothing, no later one does. */
  lemma {:induction false} WithinStable<V>(g: Graph<V>, s: V, k: nat, j: nat)
    requires Within(g, s, k + 1) == Within(g, s, k)
    ensures Within(g, s, j) <= Within(g, s, k)
    decreases j
  {
    if j <= k {
      WithinMono(g, s, j, k);
    } else {
      WithinStable(g, s, k, j - 1);
      if j - 1 == k {
      } else {
        WithinMono(g, s, k, j - 1);
        assert Within(g, s, j - 1) == Within(g, s, k);
      }
    }
  }

  /** Expanding the newest layer gives the next layer. */
  lemma NextLayer<V>(g: Graph<V>, s: V, k: nat)
    ensures Step(g, Layer(g, s, k)) - Within(g, s, k) == Within(g, s, k + 1) - Within(g, s, k)
  {
    var w := Within(g, s, k);
    forall n | n in Within(g, s, k + 1) - w ensures n in Step(g, Layer(g, s, k)) {
      var u :| u in w && u in g && n in g[u] && n in g;
      if k > 0 && u in Within(g, s, k - 1) {
        assert false;
      }
    }
    if k > 0 {
      assert Layer(g, s, k) <= w;
    }
  }

  lemma DiffTwice<V>(a: set<V>, b: set<V>, c: set<V>)
    ensures a - b - c == a - (b + c)
  {
  }

  lemma CardShrinks<V>(a: set<V>, b: set<V>)
    requires b <= a && b != {}
    ensures |a - b| < |a|
  {
    var x :| x in b;
    assert a - b <= a - {x};
    assert |a - {x}| == |a| - 1;
    SubsetCard(a - b, a - {x});
  }

  /** Adding new stations to the visited ones leaves fewer to visit. */
  lemma ShrinkKeys<V>(keys: set<V>, visited: set<V>, added: set<V>)
    requires added <= keys - visited && added != {}
    ensures |keys - (visited + added)| < |keys - visited|
  {
    assert keys - (visited + added) == (keys - visited) - added;
    CardShrinks(keys - visited, added);
  }

  lemma {:induction false} SubsetCard<V>(a: set<V>, b: set<V>)
    requires a <= b
    ensures |a| <= |b|
    decreases |b|
  {
    if a != {} {
      var x :| x in a;
      SubsetCard(a - {x}, b - {x});
    }
  }

  // ---------------------------------------------------------------------------
  // getShortestPathLength

  /** Expanding one more station adds its neighbours that are stations. */
  lemma StepAdd<V>(g: Graph<V>, done: set<V>, s: V)
    requires s in g
    ensures Step(g, done + {s}) == Step(g, done) + g[s] * g.Keys
  {
  }

  /** The frontier loop of getShortestPathLength, from `len` layers on. */
  function BfsLoop<V(==)>(g: Graph<V>, end: V, visited: set<V>, frontier: set<V>, len: nat): nat
    decreases |g.Keys - visited|
  {
    if g.Keys - visited == {} then len
    else
      var added := Step(g, frontier) - visited;
      if end in added then len + 1
      else if added == {} then 12
      else
        ShrinkKeys(g.Keys, visited, added);
        BfsLoop(g, end, visited + added, added, len + 1)
  }

  /** One round of the loop, in the terms of the loop's own variables. */
  lemma BfsLoopStep<V>(g: Graph<V>, end: V, visited: set<V>, frontier: set<V>, len: nat, added: set<V>)
    requires g.Keys - visited != {} && added == Step(g, frontier) - visited
    ensures BfsLoop(g, end, visited, frontier, len) ==
      if end in added then len + 1
      else if added == {} then 12
      else BfsLoop(g, end, visited + added, added, len + 1)
  {
  }

  /**
   * getShortestPathLength: 0 for the same station; a NullPointerException
   * when the start is not a station of a non-empty graph; otherwise the
   * layered search.
   */
  function ShortestPathLength<V(==)>(g: Graph<V>, start: V, end: V): Result<nat, SearchError>
  {
    if start == end then Ok(0)
    else if start !in g then (if g.Keys == {} then Ok(0) else Err(NullPointer))
    else Ok(BfsLoop(g, end, {start}, {start}, 0))
  }

  /** One round of the search: it stops at the next layer, stops with 12, or goes on from the next layer. */
  lemma BfsLoopUnfold<V>(g: Graph<V>, s: V, e: V, len: nat)
    requires s in g && e in g && e !in Within(g, s, len)
    ensures BfsLoop(g, e, Within(g, s, len), Layer(g, s, len), len) ==
      if e in Within(g, s, len + 1) then len + 1
      else if Within(g, s, len + 1) == Within(g, s, len) then 12
      else BfsLoop(g, e, Within(g, s, len + 1), Layer(g, s, len + 1), len + 1)
  {
    var w := Within(g, s, len);
    var added := Step(g, Layer(g, s, len)) - w;
    NextLayer(g, s, len);
    assert e in g.Keys - w;
    assert w + added == Within(g, s, len + 1);
    if e !in added && added != {} {
      assert Layer(g, s, len + 1) == added;
    }
  }

  /** A layer that adds stations leaves fewer to visit. */
  lemma LayerShrinks<V>(g: Graph<V>, s: V, len: nat)
    requires s in g && Within(g, s, len + 1) != Within(g, s, len)
    ensures |g.Keys - Within(g, s, len + 1)| < |g.Keys - Within(g, s, len)|
  {
    var w := Within(g, s, len);
    var w1 := Within(g, s, len + 1);
    WithinInGraph(g, s, len + 1);
    WithinMono(g, s, len, len + 1);
    assert w + (w1 - w) == w1;
    ShrinkKeys(g.Keys, w, w1 - w);
  }

  lemma CannotReachAfterFixpoint<V>(g: Graph<V>, s: V, e: V, len: nat)
    requires e !in Within(g, s, len) && Within(g, s, len + 1) == Within(g, s, len)
    ensures !Reachable(g, s, e)
  {
    if Reachable(g, s, e) {
      var k: nat :| e in Within(g, s, k);
      WithinStable(g, s, len, k);
    }
  }

  lemma {:induction false} BfsLoopMeaning<V>(g: Graph<V>, s: V, e: V, len: nat)
    requires s in g && e in g && e !in Within(g, s, len)
    ensures var r := BfsLoop(g, e, Within(g, s, len), Layer(g, s, len), len);
      (Reachable(g, s, e) ==> IsDistance(g, s, e, r)) && (!Reachable(g, s, e) ==> r == 12)
    decreases |g.Keys - Within(g, s, len)|
  {
    var w, w1 := Within(g, s, len), Within(g, s, len + 1);
    if e in w1 {
      BfsLoopUnfold(g, s, e, len);
      assert e in Within(g, s, len + 1);
    } else if w1 == w {
      BfsLoopUnfold(g, s, e, len);
      CannotReachAfterFixpoint(g, s, e, len);
    } else {
      BfsLoopNext(g, s, e, len);
      LayerShrinks(g, s, len);
      BfsLoopMeaning(g, s, e, len + 1);
    }
  }

  /** When the next layer neither holds the end nor is empty, the search goes on from it with the same answer. */
  lemma BfsLoopNext<V>(g: Graph<V>, s: V, e: V, len: nat)
    requires s in g && e in g && e !in Within(g, s, len + 1) && Within(g, s, len + 1) != Within(g, s, len)
    ensures e !in Within(g, s, len)
    ensures BfsLoop(g, e, Within(g, s, len), Layer(g, s, len), len)
      == BfsLoop(g, e, Within(g, s, len + 1), Layer(g, s, len + 1), len + 1)
  {
    WithinMono(g, s, len, len + 1);
    BfsLoopUnfold(g, s, e, len);
  }

  /**
   * For two different stations of the graph, getShortestPathLength is the
   * hop distance when the end is reachable and 12 when it is not.
   */
  lemma ShortestPathLengthMeaning<V>(g: Graph<V>, s: V, e: V)
    requires s in g && e in g && s != e
    ensures ShortestPathLength(g, s, e).Ok?
    ensures Reachable(g, s, e) ==> IsDistance(g, s, e, ShortestPathLength(g, s, e).value)
    ensures !Reachable(g, s, e) ==> ShortestPathLength(g, s, e).value == 12
  {
    BfsLoopMeaning(g, s, e, 0);
  }

  /** A station is at distance 0 from itself. */
  lemma ShortestPathLengthSame<V>(g: Graph<V>, s: V)
    ensures ShortestPathLength(g, s, s) == Ok(0) && IsDistance(g, s, s, 0)
  {
  }

  /** Prepending a link to a path: whatever u reaches in k - 1 links, a neighbour e of u reaches in k. */
  lemma {:induction false} WithinPrepend<V>(g: Graph<V>, e: V, u: V, x: V, k: nat)
    requires k >= 1 && Linked(g, e, u) && u in g
    requires x in Within(g, u, k - 1)
    ensures x in Within(g, e, k)
    decreases k
  {
    if k == 1 {
      assert x == u;
      assert u in Step(g, Within(g, e, 0));
    } else if x in Within(g, u, k - 2) {
      WithinPrepend(g, e, u, x, k - 1);
      WithinMono(g, e, k - 1, k);
    } else {
      StepWitness(g, Within(g, u, k - 2), x);
      var v :| v in Within(g, u, k - 2) && Linked(g, v, x);
      WithinPrepend(g, e, u, v, k - 1);
      assert x in Step(g, Within(g, e, k - 1));
    }
  }

  lemma LinkBack<V>(g: Graph<V>, a: V, b: V)
    requires Symmetric(g) && Linked(g, a, b)
    ensures Linked(g, b, a)
  {
  }

  /** A station one link away from s is a neighbour of some station of s. */
  lemma StepWitness<V>(g: Graph<V>, s: set<V>, n: V)
    requires n in Step(g, s)
    ensures exists u :: u in s && Linked(g, u, n)
  {
  }

  lemma {:induction false} WithinSymmetric<V>(g: Graph<V>, s: V, e: V, k: nat)
    requires Symmetric(g) && s in g
    requires e in Within(g, s, k)
    ensures s in Within(g, e, k)
    decreases k
  {
    if k > 0 {
      var w := Within(g, s, k - 1);
      assert Within(g, s, k) == w + Step(g, w);
      if e in w {
        WithinSymmetric(g, s, e, k - 1);
        WithinMono(g, e, k - 1, k);
      } else {
        StepWitness(g, w, e);
        var u :| u in w && Linked(g, u, e);
        WithinSymmetric(g, s, u, k - 1);
        LinkBack(g, u, e);
        WithinPrepend(g, e, u, s, k);
      }
    }
  }

  lemma DistanceSymmetric<V>(g: Graph<V>, s: V, e: V, d: nat)
    requires Symmetric(g) && s in g && e in g
    ensures IsDistance(g, s, e, d) <==> IsDistance(g, e, s, d)
  {
    if e in Within(g, s, d) { WithinSymmetric(g, s, e, d); }
    if s in Within(g, e, d) { WithinSymmetric(g, e, s, d); }
    if d > 0 {
      if e in Within(g, s, d - 1) { WithinSymmetric(g, s, e, d - 1); }
      if s in Within(g, e, d - 1) { WithinSymmetric(g, e, s, d - 1); }
    }
  }

  lemma ReachableSymmetric<V>(g: Graph<V>, a: V, b: V)
    requires Symmetric(g) && a in g && Reachable(g, a, b)
    ensures Reachable(g, b, a)
  {
    var k: nat :| b in Within(g, a, k);
    WithinSymmetric(g, a, b, k);
  }

  /** On a symmetric graph the hop count from a to b is the hop count from b to a. */
  lemma ShortestPathLengthSymmetric<V>(g: Graph<V>, a: V, b: V)
    requires Symmetric(g) && a in g && b in g
    ensures ShortestPathLength(g, a, b) == ShortestPathLength(g, b, a)
  {
    if a != b {
      ShortestPathLengthMeaning(g, a, b);
      ShortestPathLengthMeaning(g, b, a);
      if Reachable(g, a, b) {
        ReachableSymmetric(g, a, b);
        var r1 := ShortestPathLength(g, a, b).value;
        DistanceSymmetric(g, a, b, r1);
        DistanceUnique(g, b, a, r1, ShortestPathLength(g, b, a).value);
      } else if Reachable(g, b, a) {
        ReachableSymmetric(g, b, a);
      }
    }
  }

  // ---------------------------------------------------------------------------
  // getTreePath and getShortestPath

  /** The map records, for the stations within d links of root, their hop distance. */
  ghost predicate IsDistanceTree<V>(g: Graph<V>, root: V, tree: map<V, nat>, d: nat)
  {
    tree.Keys == Within(g, root, d) && forall v :: v in tree ==> IsDistance(g, root, v, tree[v])
  }

  /** The map with the stations of `added` recorded at distance d. */
  function Extend<V(==)>(tree: map<V, nat>, added: set<V>, d: nat): (t: map<V, nat>)
    ensures t.Keys == tree.Keys + added
    ensures forall v :: v in added ==> t[v] == d
    ensures forall v :: v in tree && v !in added ==> t[v] == tree[v]
  {
    tree + map n | n in added :: d
  }

  /** Recording one more station. */
  lemma ExtendOne<V>(tree: map<V, nat>, added: set<V>, x: V, d: nat)
    ensures Extend(tree, added + {x}, d) == Extend(tree, added, d)[x := d]
  {
  }

  /** Expanding one more station s, whose neighbours are stations, adds its neighbours not yet seen. */
  lemma StepGrow<V>(g: Graph<V>, done: set<V>, s: V, seen: set<V>, before: set<V>)
    requires s in g && g[s] <= g.Keys && before == Step(g, done) - seen
    ensures Step(g, done + {s}) - seen == before + (g[s] - (seen + before))
  {
    StepAdd(g, done, s);
  }

  /** Recording two batches at the same distance is recording both at once. */
  lemma ExtendTwice<V>(tree: map<V, nat>, a: set<V>, b: set<V>, d: nat)
    ensures Extend(Extend(tree, a, d), b, d) == Extend(tree, a + b, d)
  {
  }

  /** Every neighbour is itself a station. */
  ghost predicate Closed<V>(g: Graph<V>)
  {
    forall a | a in g :: g[a] <= g.Keys
  }

  /** The frontier loop of getTreePath, from `len` layers on. */
  function TreeLoop<V(==)>(g: Graph<V>, start: V, processed: map<V, nat>, frontier: set<V>, len: nat)
    : Result<(nat, map<V, nat>), SearchError>
    decreases |g.Keys - processed.Keys|
  {
    // processed only holds stations, so equal sizes mean equal key sets
    if processed.Keys == g.Keys then Ok((len, processed))
    else
      var added := Step(g, frontier) - processed.Keys;
      var next := Extend(processed, added, len + 1);
      if start in added then Ok((len + 1, next))
      else if added == {} then Err(RouteNotFound)
      else
        ShrinkKeys(g.Keys, processed.Keys, added);
        TreeLoop(g, start, next, added, len + 1)
  }

  /** getTreePath: the search from end that stops once start is reached. */
  function TreePath<V(==)>(g: Graph<V>, start: V, end: V): Result<(nat, map<V, nat>), SearchError>
  {
    TreeLoop(g, start, map[end := 0], {end}, 0)
  }

  /** Recording the next layer at its distance extends a distance tree by one layer. */
  lemma ExtendIsDistanceTree<V>(g: Graph<V>, root: V, tree: map<V, nat>, len: nat)
    requires IsDistanceTree(g, root, tree, len)
    ensures IsDistanceTree(g, root, Extend(tree, Within(g, root, len + 1) - Within(g, root, len), len + 1), len + 1)
  {
    var added := Within(g, root, len + 1) - Within(g, root, len);
    var next := Extend(tree, added, len + 1);
    WithinMono(g, root, len, len + 1);
    assert next.Keys == Within(g, root, len + 1);
    forall v | v in next ensures IsDistance(g, root, v, next[v]) {
      if v !in added {
        assert next[v] == tree[v];
      }
    }
  }

  /** One round of the tree search, from a distance tree of `len` layers. */
  lemma TreeLoopUnfold<V>(g: Graph<V>, start: V, root: V, tree: map<V, nat>, len: nat)
    requires start in g && root in g
    requires start !in Within(g, root, len)
    requires IsDistanceTree(g, root, tree, len)
    ensures var next := Extend(tree, Within(g, root, len + 1) - Within(g, root, len), len + 1);
      IsDistanceTree(g, root, next, len + 1)
      && TreeLoop(g, start, tree, Layer(g, root, len), len) ==
        if start in Within(g, root, len + 1) then Ok((len + 1, next))
        else if Within(g, root, len + 1) == Within(g, root, len) then Err(RouteNotFound)
        else TreeLoop(g, start, next, Layer(g, root, len + 1), len + 1)
  {
    var w := Within(g, root, len);
    var w1 := Within(g, root, len + 1);
    var added := Step(g, Layer(g, root, len)) - tree.Keys;
    NextLayer(g, root, len);
    WithinMono(g, root, len, len + 1);
    ExtendIsDistanceTree(g, root, tree, len);
    assert added == w1 - w;
    var next := Extend(tree, added, len + 1);
    assert tree.Keys != g.Keys by {
      assert start in g.Keys - w;
    }
    assert TreeLoop(g, start, tree, Layer(g, root, len), len) ==
      if start in added then Ok((len + 1, next))
      else if added == {} then Err(RouteNotFound)
      else TreeLoop(g, start, next, added, len + 1);
    assert (start in added) == (start in w1);
    assert (added == {}) == (w1 == w);
    assert added == Layer(g, root, len + 1);
  }

  lemma {:induction false} TreeLoopMeaning<V>(g: Graph<V>, start: V, root: V, tree: map<V, nat>, len: nat)
    requires start in g && root in g
    requires start !in Within(g, root, len)
    requires IsDistanceTree(g, root, tree, len)
    ensures var r := TreeLoop(g, start, tree, Layer(g, root, len), len);
      (Reachable(g, root, start) ==> (r.Ok? && IsDistance(g, root, start, r.value.0)
        && IsDistanceTree(g, root, r.value.1, r.value.0)))
      && (!Reachable(g, root, start) ==> r == Err(RouteNotFound))
    decreases |g.Keys - tree.Keys|
  {
    TreeLoopUnfold(g, start, root, tree, len);
    var w := Within(g, root, len);
    var w1 := Within(g, root, len + 1);
    var next := Extend(tree, w1 - w, len + 1);
    if start in w1 {
      assert Reachable(g, root, start);
    } else if w1 == w {
      CannotReachAfterFixpoint(g, root, start, len);
    } else {
      LayerShrinks(g, root, len);
      TreeLoopMeaning(g, start, root, next, len + 1);
    }
  }

  /**
   * getTreePath, for two different stations: when start is reachable from
   * end it returns their hop distance and the distances of every station
   * within it; otherwise RouteNotFoundException.
   */
  lemma TreePathMeaning<V>(g: Graph<V>, start: V, end: V)
    requires start in g && end in g && start != end
    ensures Reachable(g, end, start) ==> (TreePath(g, start, end).Ok?
      && IsDistance(g, end, start, TreePath(g, start, end).value.0)
      && IsDistanceTree(g, end, TreePath(g, start, end).value.1, TreePath(g, start, end).value.0))
    ensures !Reachable(g, end, start) ==> TreePath(g, start, end) == Err(RouteNotFound)
  {
    assert IsDistanceTree(g, end, map[end := 0], 0);
    TreeLoopMeaning(g, start, end, map[end := 0], 0);
  }

  /** A station i + 1 links from the root has a neighbour i links from it. */
  lemma NeighbourCloser<V>(g: Graph<V>, root: V, v: V, i: nat)
    requires Symmetric(g) && root in g
    requires IsDistance(g, root, v, i + 1)
    ensures v in g
    ensures exists u :: u in g[v] && IsDistance(g, root, u, i)
  {
    WithinInGraph(g, root, i + 1);
    var u :| u in Within(g, root, i) && u in g && v in g[u] && v in g;
    assert Linked(g, u, v);
    if i > 0 && u in Within(g, root, i - 1) {
      assert false;
    }
    assert IsDistance(g, root, u, i);
  }

  /** Consecutive stations of the path are linked. */
  ghost predicate IsWalk<V>(g: Graph<V>, path: seq<V>)
  {
    forall j :: 0 <= j < |path| - 1 ==> path[j] in g && path[j + 1] in g[path[j]]
  }

  /** A walk followed by a neighbour of its last station is a walk. */
  lemma WalkExtend<V>(g: Graph<V>, path: seq<V>, x: V)
    requires IsWalk(g, path) && |path| >= 1 && Linked(g, path[|path| - 1], x)
    ensures IsWalk(g, path + [x])
  {
  }


  /** A station recorded at distance i + 1 in a distance tree has a neighbour recorded at distance i. */
  lemma TreeNeighbour<V>(g: Graph<V>, root: V, tree: map<V, nat>, len: nat, v: V, i: nat)
    requires Symmetric(g) && root in g
    requires IsDistanceTree(g, root, tree, len)
    requires v in tree && tree[v] == i + 1
    ensures v in g
    ensures exists u :: u in g[v] && u in tree && tree[u] == i
  {
    assert IsDistance(g, root, v, i + 1);
    DistanceIsLeast(g, root, v, i + 1, len);
    NeighbourCloser(g, root, v, i);
    var u :| u in g[v] && IsDistance(g, root, u, i);
    TreeRecorded(g, root, tree, len, u, i);
  }

  /** A distance tree of len layers records every station within len links at its distance. */
  lemma TreeRecorded<V>(g: Graph<V>, root: V, tree: map<V, nat>, len: nat, u: V, i: nat)
    requires IsDistanceTree(g, root, tree, len)
    requires IsDistance(g, root, u, i) && i <= len
    ensures u in tree && tree[u] == i
  {
    WithinMono(g, root, i, len);
    DistanceUnique(g, root, u, i, tree[u]);
  }

  /** The only station recorded at distance 0 is the root. */
  lemma TreeRoot<V>(g: Graph<V>, root: V, tree: map<V, nat>, len: nat, v: V)
    requires IsDistanceTree(g, root, tree, len)
    requires v in tree && tree[v] == 0
    ensures v == root
  {
    assert IsDistance(g, root, v, 0);
  }

  /**
   * getTreePath between two different stations of a symmetric graph, as
   * getShortestPath uses it: RouteNotFoundException exactly when they are
   * not connected, and otherwise their hop distance and a distance tree
   * from end that records start at that distance.
   */
  lemma TreePathOutcome<V>(g: Graph<V>, start: V, end: V)
    requires Symmetric(g) && start in g && end in g && start != end
    ensures TreePath(g, start, end).Err? <==> !Reachable(g, start, end)
    ensures TreePath(g, start, end).Err? ==> TreePath(g, start, end).error == RouteNotFound
    ensures TreePath(g, start, end).Ok? ==>
      var (len, tree) := TreePath(g, start, end).value;
      IsDistanceTree(g, end, tree, len) && start in tree && tree[start] == len
      && IsDistance(g, start, end, len)
  {
    TreePathMeaning(g, start, end);
    if Reachable(g, end, start) {
      ReachableSymmetric(g, end, start);
      var (len, tree) := TreePath(g, start, end).value;
      TreeRecorded(g, end, tree, len, start, len);
      DistanceSymmetric(g, start, end, len);
    }
    if Reachable(g, start, end) {
      ReachableSymmetric(g, start, end);
    }
  }

  /** path is a walk from s to e with as few links as possible. */
  ghost predicate IsShortestWalk<V>(g: Graph<V>, s: V, e: V, path: seq<V>)
  {
    |path| >= 1 && path[0] == s && path[|path| - 1] == e && IsWalk(g, path)
    && IsDistance(g, s, e, |path| - 1)
  }

  /** A shortest walk between two different stations has getShortestPathLength links. */
  lemma ShortestWalkLength<V>(g: Graph<V>, s: V, e: V, path: seq<V>)
    requires s in g && e in g && s != e
    requires IsShortestWalk(g, s, e, path)
    ensures ShortestPathLength(g, s, e) == Ok(|path| - 1)
  {
    ShortestPathLengthMeaning(g, s, e);
    assert Reachable(g, s, e);
    DistanceUnique(g, s, e, |path| - 1, ShortestPathLength(g, s, e).value);
  }
}
