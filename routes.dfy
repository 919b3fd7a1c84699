// RouteFinder and Station: the station objects that stationGenerator
// creates and links, and the searches over them. Each Station's `next` map
// is keyed by the neighbour's name; names are the keys of the station map,
// so this is the same as keying by the Station object.

module Routes {
  import opened Wrappers
  import opened Text
  import opened Graphs
  import opened RouteGraph
  import opened Lists

  class Station {
    /** The station's name; it never changes. */
    const name: string
    /** Every route this station was listed on, once per listing. */
    var routes: seq<string>
    /** Neighbour name to the route the link was last labelled with. */
    var next: map<string, string>

    /** A station first seen on `route`: that route only, and no neighbours. */
    constructor (route: string, name: string)
      ensures this.name == name && routes == [route] && next == map[]
    {
      this.name := name;
      routes := [route];
      next := map[];
    }

    /** Station.addRoute: appends, even when the route is already listed. */
    method AddRoute(route: string)
      modifies this
      ensures routes == old(routes) + [route]
      ensures next == old(next)
    {
      routes := routes + [route];
    }

    /** Station.addNext: one entry per neighbour; linking it again replaces the label. */
    method AddNext(station: Station, line: string)
      modifies this
      ensures next == old(next)[station.name := line]
      ensures routes == old(routes)
    {
      next := next[station.name := line];
    }
  }

  // ---------------------------------------------------------------------------
  // stationGenerator

  /** A new station starts with no neighbours. */
  lemma EmptyLinksAdd(names: set<string>, n: string)
    ensures EmptyLinks(names)[n := map[]] == EmptyLinks(names + {n})
  {
  }

  /** The first pass over one route: every station on it is created, or has the route listed once more. */
  method FileStations(links0: Links, lists0: map<string, seq<string>>, route: string, st: seq<string>)
      returns (links: Links, lists: map<string, seq<string>>)
    requires links0 == EmptyLinks(lists0.Keys)
    ensures lists == ListRoute(lists0, route, st, |st|)
    ensures links == EmptyLinks(lists.Keys)
  {
    links, lists := links0, lists0;
    var k := 0;
    while k < |st|
      invariant k <= |st|
      invariant lists == ListRoute(lists0, route, st, k)
      invariant links == EmptyLinks(lists.Keys)
    {
      var newStation := st[k];
      if newStation !in links {
        EmptyLinksAdd(lists.Keys, newStation);
        assert [] + [route] == [route];
        links := links[newStation := map[]];
        lists := lists[newStation := [route]];
      } else {
        lists := lists[newStation := lists[newStation] + [route]];
      }
      k := k + 1;
    }
  }

  /** The second pass over one route: each station is linked to the next and the previous one, labelled with the route. */
  method LinkStations(links0: Links, routeName: string, st: seq<string>) returns (links: Links)
    requires forall j :: 0 <= j < |st| ==> st[j] in links0
    ensures links == LinkRoute(links0, routeName, st, |st|)
  {
    links := links0;
    var k := 0;
    while k < |st|
      invariant k <= |st|
      invariant links == LinkRoute(links0, routeName, st, k)
    {
      var station := st[k];
      if k < |st| - 1 {
        links := links[station := links[station][st[k + 1] := routeName]];
      }
      if k > 0 {
        links := links[station := links[station][st[k - 1] := routeName]];
      }
      k := k + 1;
    }
  }

  /** The first pass of stationGenerator: the stations of every route, none linked yet. */
  method CreateStations(all: RouteTable, order: seq<string>)
      returns (links: Links, lists: map<string, seq<string>>)
    requires IsOrderOf(all, order)
    ensures lists == ListRoutes(all, order, |order|)
    ensures links == EmptyLinks(StationsOn(all, order, |order|))
  {
    links, lists := map[], map[];
    var i := 0;
    while i < |order|
      invariant i <= |order|
      invariant lists == ListRoutes(all, order, i)
      invariant links == EmptyLinks(lists.Keys)
    {
      links, lists := FileStations(links, lists, order[i], all[order[i]]);
      i := i + 1;
    }
    ListRoutesSpec(all, order, |order|);
  }

  /** The second pass of stationGenerator: consecutive stations of every route are linked both ways. */
  method ConnectStations(all: RouteTable, order: seq<string>, empty: Links) returns (links: Links)
    requires IsOrderOf(all, order)
    requires empty == EmptyLinks(StationsOn(all, order, |order|))
    ensures links == BuildLinks(all, order)
  {
    links := empty;
    var i := 0;
    assert empty.Keys == StationsOn(all, order, |order|);
    while i < |order|
      invariant i <= |order|
      invariant links == LinkRoutes(empty, all, order, i)
    {
      var st := all[order[i]];
      LinkRoutesStep(empty, all, order, i + 1);
      links := LinkStations(links, order[i], st);
      assert links == LinkRoutes(empty, all, order, i + 1);
      i := i + 1;
    }
  }

  /**
   * stationGenerator on values: the stations of the chosen routes, each with
   * the routes it is listed on (`lists`, each Station's routes) and its
   * neighbours with their route labels (`links`, each Station's next).
   * `order` is the iteration order of the chosen route map's keys.
   */
  method StationGenerator(kind: string, subway: RouteTable, bus: RouteTable, order: seq<string>)
      returns (links: Links, lists: map<string, seq<string>>)
    requires IsOrderOf(SelectRoutes(kind, subway, bus), order)
    ensures links == BuildLinks(SelectRoutes(kind, subway, bus), order)
    ensures lists == ListRoutes(SelectRoutes(kind, subway, bus), order, |order|)
  {
    var all := SelectRoutes(kind, subway, bus);
    var empty;
    empty, lists := CreateStations(all, order);
    links := ConnectStations(all, order, empty);
  }

  // ---------------------------------------------------------------------------
  // getShortestPathLength, on any station graph

  /** One station of the layer being expanded: its neighbours still to process are taken from toProcess into newlyAdded. */
  method ExpandStation<V(==)>(g: Graph<V>, s: V, end: V, toProcess0: set<V>, newlyAdded0: set<V>, hasEnd0: bool)
      returns (toProcess: set<V>, newlyAdded: set<V>, hasEnd: bool)
    requires s in g
    ensures newlyAdded == newlyAdded0 + g[s] * toProcess0
    ensures toProcess == toProcess0 - g[s]
    ensures hasEnd == (hasEnd0 || end in g[s] * toProcess0)
  {
    toProcess, newlyAdded, hasEnd := toProcess0, newlyAdded0, hasEnd0;
    var nbrs := g[s];
    while nbrs != {}
      invariant nbrs <= g[s]
      invariant newlyAdded == newlyAdded0 + (g[s] - nbrs) * toProcess0
      invariant toProcess == toProcess0 - (g[s] - nbrs)
      invariant hasEnd == (hasEnd0 || end in (g[s] - nbrs) * toProcess0)
    {
      var nxt :| nxt in nbrs;
      if nxt in toProcess {
        newlyAdded := newlyAdded + {nxt};
        toProcess := toProcess - {nxt};
        if nxt == end {
          hasEnd := true;
        }
      }
      nbrs := nbrs - {nxt};
    }
  }

  /** One layer of getShortestPathLength: every station of toExpand is expanded in turn. */
  method ExpandLayer<V(==)>(g: Graph<V>, toExpand: set<V>, end: V, toProcess0: set<V>, ghost visited: set<V>)
      returns (toProcess: set<V>, newlyAdded: set<V>, hasEnd: bool)
    requires toExpand <= g.Keys && toProcess0 == g.Keys - visited
    ensures newlyAdded == Step(g, toExpand) - visited
    ensures toProcess == toProcess0 - newlyAdded
    ensures hasEnd == (end in newlyAdded)
  {
    toProcess, newlyAdded, hasEnd := toProcess0, {}, false;
    var rest := toExpand;
    while rest != {}
      invariant rest <= toExpand
      invariant newlyAdded == Step(g, toExpand - rest) * toProcess0
      invariant toProcess == toProcess0 - newlyAdded
      invariant hasEnd == (end in newlyAdded)
    {
      var s :| s in rest;
      toProcess, newlyAdded, hasEnd := ExpandStation(g, s, end, toProcess, newlyAdded, hasEnd);
      StepAdd(g, toExpand - rest, s);
      assert toExpand - rest + {s} == toExpand - (rest - {s});
      rest := rest - {s};
    }
    assert Step(g, toExpand) * toProcess0 == Step(g, toExpand) - visited;
  }

  /**
   * The search of getShortestPathLength: from start, each round expands the
   * newest layer; it stops when end is reached, with 12 when a layer adds
   * nothing, or when no station is left to process.
   */
  method SearchLength<V(==)>(g: Graph<V>, start: V, end: V) returns (r: Result<nat, SearchError>)
    ensures r == ShortestPathLength(g, start, end)
  {
    if start == end {
      return Ok(0);
    }
    if start !in g {
      // with no stations the search loop never runs; otherwise its first
      // round looks up the missing Station of start
      return if g.Keys == {} then Ok(0) else Err(NullPointer);
    }
    var len := 0;
    var hasEnd := false;
    var toProcess := g.Keys - {start};
    var toExpand := {start};
    ghost var visited := {start};
    ghost var target := BfsLoop(g, end, visited, toExpand, len);
    while toProcess != {} && !hasEnd
      invariant toProcess == g.Keys - visited && toExpand <= g.Keys
      invariant !hasEnd ==> target == BfsLoop(g, end, visited, toExpand, len)
      invariant hasEnd ==> target == len
      decreases |toProcess|
    {
      var rest, newlyAdded, found := ExpandLayer(g, toExpand, end, toProcess, visited);
      BfsLoopStep(g, end, visited, toExpand, len, newlyAdded);
      toExpand, hasEnd := newlyAdded, found;
      if toExpand == {} && !hasEnd {
        return Ok(12);
      }
      CardShrinks(toProcess, newlyAdded);
      DiffTwice(g.Keys, visited, newlyAdded);
      toProcess := rest;
      visited := visited + newlyAdded;
      len := len + 1;
    }
    return Ok(len);
  }

  // ---------------------------------------------------------------------------
  // getTreePath and getShortestPath, on any station graph

  /** One station of the layer being expanded: its neighbours not yet processed are recorded at distance len + 1. */
  method ExpandTreeStation<V(==)>(g: Graph<V>, s: V, start: V, len: nat,
                                  processed0: map<V, nat>, newlyAdded0: set<V>, hasFound0: bool)
      returns (processed: map<V, nat>, newlyAdded: set<V>, hasFound: bool)
    requires s in g
    ensures newlyAdded == newlyAdded0 + (g[s] - processed0.Keys)
    ensures processed == Extend(processed0, g[s] - processed0.Keys, len + 1)
    ensures hasFound == (hasFound0 || start in g[s] - processed0.Keys)
  {
    processed, newlyAdded, hasFound := processed0, newlyAdded0, hasFound0;
    var nbrs := g[s];
    ghost var done: set<V> := {};
    ghost var added: set<V> := {};
    while nbrs != {}
      invariant done + nbrs == g[s] && done !! nbrs
      invariant added == done - processed0.Keys
      invariant newlyAdded == newlyAdded0 + added
      invariant processed == Extend(processed0, added, len + 1)
      invariant hasFound == (hasFound0 || start in added)
    {
      var nxt :| nxt in nbrs;
      if nxt !in processed {
        ExtendOne(processed0, added, nxt, len + 1);
        newlyAdded := newlyAdded + {nxt};
        processed := processed[nxt := len + 1];
        added := added + {nxt};
        if nxt == start {
          hasFound := true;
        }
      }
      done := done + {nxt};
      nbrs := nbrs - {nxt};
    }
  }

  /** One layer of getTreePath: every station of toExpand is expanded in turn. */
  method ExpandTreeLayer<V(==)>(g: Graph<V>, toExpand: set<V>, start: V, len: nat, processed0: map<V, nat>)
      returns (processed: map<V, nat>, newlyAdded: set<V>, hasFound: bool)
    requires toExpand <= g.Keys && Closed(g)
    ensures newlyAdded == Step(g, toExpand) - processed0.Keys
    ensures processed == Extend(processed0, newlyAdded, len + 1)
    ensures hasFound == (start in newlyAdded)
  {
    processed, newlyAdded, hasFound := processed0, {}, false;
    var rest := toExpand;
    ghost var done: set<V> := {};
    while rest != {}
      invariant done + rest == toExpand && done !! rest
      invariant newlyAdded == Step(g, done) - processed0.Keys
      invariant processed == Extend(processed0, newlyAdded, len + 1)
      invariant hasFound == (start in newlyAdded)
    {
      var s :| s in rest;
      ghost var before := newlyAdded;
      ghost var added := g[s] - processed.Keys;
      assert processed.Keys == processed0.Keys + before;
      processed, newlyAdded, hasFound := ExpandTreeStation(g, s, start, len, processed, newlyAdded, hasFound);
      ExtendTwice(processed0, before, added, len + 1);
      StepGrow(g, done, s, processed0.Keys, before);
      done := done + {s};
      rest := rest - {s};
    }
  }

  /**
   * The search of getTreePath: from end, layer by layer, recording every
   * station's distance, until start is recorded or every station is.
   */
  method SearchTree<V(==)>(g: Graph<V>, start: V, end: V) returns (r: Result<(nat, map<V, nat>), SearchError>)
    requires end in g && Closed(g)
    ensures r == TreePath(g, start, end)
  {
    var len := 0;
    var hasFound := false;
    var processed := map[end := 0];
    var toExpand := {end};
    ghost var target := TreeLoop(g, start, processed, toExpand, len);
    // processed only holds stations, so comparing its size with the number
    // of stations is comparing the two key sets
    while !hasFound && processed.Keys != g.Keys
      invariant processed.Keys <= g.Keys && toExpand <= g.Keys
      invariant !hasFound ==> target == TreeLoop(g, start, processed, toExpand, len)
      invariant hasFound ==> target == Ok((len, processed))
      decreases |g.Keys - processed.Keys|
    {
      var next, newlyAdded, found := ExpandTreeLayer(g, toExpand, start, len, processed);
      toExpand, hasFound := newlyAdded, found;
      if toExpand == {} && !hasFound {
        return Err(RouteNotFound);
      }
      ShrinkKeys(g.Keys, processed.Keys, newlyAdded);
      processed := next;
      len := len + 1;
    }
    return Ok((len, processed));
  }

  /**
   * The loop of getShortestPath: from start, len links from end, it steps
   * each time to some neighbour recorded one link closer to end, until it
   * reaches end after len steps.
   */
  method WalkDown<V(==)>(g: Graph<V>, end: V, tree: map<V, nat>, len: nat, start: V) returns (path: seq<V>)
    requires Symmetric(g) && end in g
    requires IsDistanceTree(g, end, tree, len) && start in tree && tree[start] == len
    ensures |path| == len + 1 && path[0] == start && path[len] == end
    ensures IsWalk(g, path)
  {
    path := [start];
    var startPoint := start;
    var i := len - 1;
    while i >= 0
      invariant -1 <= i < len
      invariant |path| == len - i && path[0] == start && path[|path| - 1] == startPoint
      invariant startPoint in tree && tree[startPoint] == i + 1
      invariant IsWalk(g, path)
    {
      TreeNeighbour(g, end, tree, len, startPoint, i);
      var station :| station in g[startPoint] && station in tree && tree[station] == i;
      WalkExtend(g, path, station);
      path := path + [station];
      startPoint := station;
      i := i - 1;
    }
    TreeRoot(g, end, tree, len, startPoint);
  }

  /** getShortestPath: the distance tree from end, then the walk down it from start. */
  method TracePath<V(==)>(g: Graph<V>, start: V, end: V) returns (r: Result<seq<V>, SearchError>)
    requires Symmetric(g) && start in g && end in g && start != end
    ensures r.Err? <==> !Reachable(g, start, end)
    ensures r.Err? ==> r.error == RouteNotFound
    ensures r.Ok? ==> IsShortestWalk(g, start, end, r.value)
  {
    var tp := SearchTree(g, start, end);
    TreePathOutcome(g, start, end);
    if tp.Err? {
      return Err(tp.error);
    }
    var path := WalkDown(g, end, tp.value.1, tp.value.0, start);
    return Ok(path);
  }

  // ---------------------------------------------------------------------------
  // getOptimalPath and getRoutePlan

  /** The stations of a labelled path. */
  function Stations<L>(target: seq<(string, L)>): (path: seq<string>)
    ensures |path| == |target| && forall k :: 0 <= k < |target| ==> path[k] == target[k].0
  {
    seq(|target|, k requires 0 <= k < |target| => target[k].0)
  }

  /**
   * Route labels along a path of at least two stations: each station from
   * the second on carries the label of the link that reaches it, and the
   * first carries the label of the second.
   */
  ghost predicate Labelled<L>(links: map<string, map<string, L>>, target: seq<(string, L)>)
  {
    |target| >= 2 && target[0].1 == target[1].1
    && forall k :: 0 <= k < |target| - 1 ==>
      target[k].0 in links && target[k + 1].0 in links[target[k].0]
      && target[k + 1].1 == links[target[k].0][target[k + 1].0]
  }

  /** The labelling loops of getOptimalPath. */
  method LabelPath<L>(links: map<string, map<string, L>>, path: seq<string>) returns (target: seq<(string, L)>)
    requires |path| >= 2
    requires forall k :: 0 <= k < |path| - 1 ==> path[k] in links && path[k + 1] in links[path[k]]
    ensures Stations(target) == path
    ensures Labelled(links, target)
  {
    var route := links[path[0]][path[1]];
    target := [(path[0], route), (path[1], route)];
    var i := 2;
    while i < |path|
      invariant 2 <= i <= |path| && |target| == i
      invariant forall k :: 0 <= k < i ==> target[k].0 == path[k]
      invariant Labelled(links, target)
    {
      target := target + [(path[i], links[path[i - 1]][path[i]])];
      i := i + 1;
    }
  }

  /** The text added for step i of a plan: a transfer where the label changes, then the next station. */
  function PlanStep(target: seq<(string, string)>, i: nat): string
    requires i + 1 < |target|
  {
    (if target[i].1 != target[i + 1].1
     then NL + "Transfer to " + target[i + 1].1 + NL + target[i].0
     else "")
    + " --> " + target[i + 1].0
  }

  /** The steps of a plan for stations 0 .. i. */
  function PlanSteps(target: seq<(string, string)>, i: nat): string
    requires i < |target|
  {
    if i == 0 then "" else PlanSteps(target, i - 1) + PlanStep(target, i - 1)
  }

  /** The itinerary getRoutePlan prints for a labelled path. */
  function RoutePlan(target: seq<(string, string)>): string
    requires |target| >= 1
  {
    "Start at " + target[0].0 + NL + "Take " + target[0].1 + NL + target[0].0
    + PlanSteps(target, |target| - 1) + NL
  }

  /** The loop of getRoutePlan, appending step by step. */
  method BuildPlan(target: seq<(string, string)>) returns (plan: string)
    requires |target| >= 1
    ensures plan == RoutePlan(target)
  {
    var result := "Start at " + target[0].0 + NL + "Take " + target[0].1 + NL + target[0].0;
    ghost var head := result;
    var i := 0;
    while i < |target| - 1
      invariant 0 <= i <= |target| - 1
      invariant result == head + PlanSteps(target, i)
    {
      var step := "";
      if target[i].1 != target[i + 1].1 {
        step := NL + "Transfer to " + target[i + 1].1 + NL + target[i].0;
      }
      step := step + " --> " + target[i + 1].0;
      assert step == PlanStep(target, i);
      AppendAssoc(head, PlanSteps(target, i), step);
      result := result + step;
      i := i + 1;
    }
    plan := result + NL;
  }

  /** On a single route the plan is the route's name and its stations joined by arrows, with no transfer. */
  lemma {:induction false} PlanStepsOneRoute(target: seq<(string, string)>, i: nat)
    requires i < |target|
    requires forall k :: 0 <= k < |target| ==> target[k].1 == target[0].1
    ensures target[0].0 + PlanSteps(target, i) == Join(" --> ", Stations(target)[..i + 1])
  {
    if i > 0 {
      PlanStepsOneRoute(target, i - 1);
      var x := target[i].0;
      assert PlanStep(target, i - 1) == " --> " + x;
      AppendAssoc(target[0].0, PlanSteps(target, i - 1), " --> " + x);
      JoinSnoc(" --> ", Stations(target)[..i], x);
      AppendAssoc(Join(" --> ", Stations(target)[..i]), " --> ", x);
      assert Stations(target)[..i + 1] == Stations(target)[..i] + [x];
    }
  }

  lemma RoutePlanOneRoute(target: seq<(string, string)>)
    requires |target| >= 1
    requires forall k :: 0 <= k < |target| ==> target[k].1 == target[0].1
    ensures RoutePlan(target) ==
      "Start at " + target[0].0 + NL + "Take " + target[0].1 + NL + Join(" --> ", Stations(target)) + NL
  {
    PlanStepsOneRoute(target, |target| - 1);
    assert Stations(target)[..|target|] == Stations(target);
  }

  // ---------------------------------------------------------------------------
  // RouteFinder

  /**
   * A RouteFinder for one kind of route ("Subway" or "All"). Its Station
   * objects are held as the two tables they make up: `links`, every
   * station's neighbours and their labels, and `lists`, every station's
   * routes.
   */
  class RouteFinder {
    const links: Links
    const lists: map<string, seq<string>>
    /** The routes the stations were generated from, and their iteration order. */
    ghost const routeTable: RouteTable
    ghost const order: seq<string>

    ghost predicate Valid()
    {
      IsOrderOf(routeTable, order)
      && links == BuildLinks(routeTable, order)
      && lists == ListRoutes(routeTable, order, |order|)
    }

    /** The station graph: each station's neighbours. */
    function Adjacency(): Graph<string>
    {
      GraphOf(links)
    }

    constructor (kind: string, subway: RouteTable, bus: RouteTable, order: seq<string>)
      requires IsOrderOf(SelectRoutes(kind, subway, bus), order)
      ensures routeTable == SelectRoutes(kind, subway, bus) && this.order == order
      ensures Valid()
    {
      var l, t := StationGenerator(kind, subway, bus, order);
      links, lists := l, t;
      routeTable := SelectRoutes(kind, subway, bus);
      this.order := order;
    }

    /** Every link of the station graph goes both ways, so every neighbour is a station. */
    lemma AdjacencySymmetric()
      requires Valid()
      ensures Symmetric(Adjacency()) && Closed(Adjacency())
    {
      BuildLinksSymmetric(routeTable, order);
    }

    /** getShortestPathLength on the station graph. */
    method GetShortestPathLength(start: string, end: string) returns (r: Result<nat, SearchError>)
      ensures r == ShortestPathLength(Adjacency(), start, end)
    {
      r := SearchLength(Adjacency(), start, end);
    }

    /** getTreePath on the station graph (getShortestPath passes a station as end). */
    method GetTreePath(start: string, end: string) returns (r: Result<(nat, map<string, nat>), SearchError>)
      requires Valid() && end in Adjacency()
      ensures r == TreePath(Adjacency(), start, end)
    {
      AdjacencySymmetric();
      r := SearchTree(Adjacency(), start, end);
    }

    /**
     * getShortestPath between two different stations: a walk with the fewest
     * links, so its length agrees with getShortestPathLength;
     * RouteNotFoundException when they are not connected. The same station
     * as start and end is not modelled (the README says what the source
     * does then).
     */
    method GetShortestPath(start: string, end: string) returns (r: Result<seq<string>, SearchError>)
      requires Valid() && start in Adjacency() && end in Adjacency() && start != end
      ensures r.Err? <==> !Reachable(Adjacency(), start, end)
      ensures r.Err? ==> r.error == RouteNotFound
      ensures r.Ok? ==> IsShortestWalk(Adjacency(), start, end, r.value)
      ensures r.Ok? ==> ShortestPathLength(Adjacency(), start, end) == Ok(|r.value| - 1)
    {
      AdjacencySymmetric();
      r := TracePath(Adjacency(), start, end);
      if r.Ok? {
        ShortestWalkLength(Adjacency(), start, end, r.value);
      }
    }

    /**
     * getOptimalPath: a shortest path with each station labelled by the
     * route of the link that reaches it.
     */
    method GetOptimalPath(start: string, end: string) returns (r: Result<seq<(string, string)>, SearchError>)
      requires Valid() && start in Adjacency() && end in Adjacency() && start != end
      ensures r.Err? <==> !Reachable(Adjacency(), start, end)
      ensures r.Err? ==> r.error == RouteNotFound
      ensures r.Ok? ==> IsShortestWalk(Adjacency(), start, end, Stations(r.value)) && Labelled(links, r.value)
    {
      var path := GetShortestPath(start, end);
      if path.Err? {
        return Err(path.error);
      }
      var p := path.value;
      assert |p| >= 2;
      forall k | 0 <= k < |p| - 1
        ensures p[k] in links && p[k + 1] in links[p[k]]
      {
        assert p[k] in Adjacency() && p[k + 1] in Adjacency()[p[k]];
      }
      var target := LabelPath(links, p);
      return Ok(target);
    }

    /** getRoutePlan: the itinerary of an optimal path. */
    method GetRoutePlan(start: string, end: string) returns (r: Result<string, SearchError>)
      requires Valid() && start in Adjacency() && end in Adjacency() && start != end
      ensures r.Err? <==> !Reachable(Adjacency(), start, end)
      ensures r.Ok? ==> exists target ::
        (IsShortestWalk(Adjacency(), start, end, Stations(target))
         && Labelled(links, target) && r.value == RoutePlan(target))
    {
      var target := GetOptimalPath(start, end);
      if target.Err? {
        return Err(target.error);
      }
      var plan := BuildPlan(target.value);
      return Ok(plan);
    }

    /**
     * The label of a link names a route on which the two stations are
     * consecutive: the last such route in the order the routes were read.
     */
    lemma LabelIsRoute(a: string, b: string)
      requires Valid() && a in links && b in links[a]
      ensures links[a][b] in routeTable && RouteLinks(routeTable[links[a][b]], a, b)
      ensures links[a][b] == order[LastLinker(routeTable, order, |order|, a, b)]
    {
      BuildLinksSpec(routeTable, order, a, b);
      var r :| r in routeTable && RouteLinks(routeTable[r], a, b);
      var j :| 0 <= j < |order| && order[j] == r;
    }
  }
}
