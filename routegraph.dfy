// The station graph RouteFinder builds, as values: route tables, the choice
// of routes by kind, and the neighbour-to-route tables that stationGenerator
// fills, with what they mean (who neighbours whom, and which route labels
// each link).

module RouteGraph {
  import opened Wrappers
  import opened Graphs
  import opened Lists

  /** Route name to its ordered station names (BusSubTrip.busRoutes, SubwaySubTrip.subwayRoutes). */
  type RouteTable = map<string, seq<string>>

  /** For every station, its neighbours' names and the route each link is labelled with (Station.next). */
  type Links = map<string, map<string, string>>


  // ---------------------------------------------------------------------------
  // building the graph

  /**
   * The routes RouteFinder(kind) works on: the subway routes for "Subway",
   * subway and bus routes for "All" (a bus route replaces a subway route of
   * the same name), none otherwise.
   */
  function SelectRoutes(kind: string, subway: RouteTable, bus: RouteTable): (all: RouteTable)
    ensures kind == "Subway" ==> all == subway
    ensures kind == "All" ==> (all.Keys == subway.Keys + bus.Keys
      && (forall r :: r in bus ==> all[r] == bus[r])
      && (forall r :: r in subway && r !in bus ==> all[r] == subway[r]))
    ensures kind != "Subway" && kind != "All" ==> all == map[]
  {
    if kind == "Subway" then subway else if kind == "All" then subway + bus else map[]
  }

  /** `order` lists every route name of the table exactly once (a HashMap's key iteration order). */
  predicate IsOrderOf(all: RouteTable, order: seq<string>)
  {
    (forall i, j :: 0 <= i < j < |order| ==> order[i] != order[j])
    && (forall i :: 0 <= i < |order| ==> order[i] in all)
    && (forall r :: r in all ==> r in order)
  }

  /** The stations named on the routes order[..i]. */
  function StationsOn(all: RouteTable, order: seq<string>, i: nat): set<string>
    requires i <= |order|
    requires forall j :: 0 <= j < |order| ==> order[j] in all
  {
    if i == 0 then {} else StationsOn(all, order, i - 1) + Elems(all[order[i - 1]])
  }

  lemma {:induction false} StationsOnHas(all: RouteTable, order: seq<string>, i: nat, j: nat)
    requires j < i <= |order|
    requires forall j :: 0 <= j < |order| ==> order[j] in all
    ensures Elems(all[order[j]]) <= StationsOn(all, order, i)
  {
    if j < i - 1 {
      StationsOnHas(all, order, i - 1, j);
    }
  }

  /** A station is on one of the routes order[..i] exactly when some of them lists it. */
  lemma {:induction false} StationsOnMember(all: RouteTable, order: seq<string>, i: nat, n: string)
    requires i <= |order|
    requires forall j :: 0 <= j < |order| ==> order[j] in all
    ensures n in StationsOn(all, order, i) <==> exists j :: 0 <= j < i && n in all[order[j]]
  {
    if i > 0 {
      StationsOnMember(all, order, i - 1, n);
    }
  }

  /** Every station named on some route of the table. */
  ghost function StationSet(all: RouteTable): set<string>
  {
    set r, k | r in all && 0 <= k < |all[r]| :: all[r][k]
  }

  /** The stations named on one route. */
  function Elems(st: seq<string>): (names: set<string>)
    ensures forall n :: n in names <==> n in st
  {
    set j | 0 <= j < |st| :: st[j]
  }

  /** The route name r once for every time station n is listed on route st (Station.addRoute never checks for repeats). */
  function Mentions(r: string, st: seq<string>, n: string): (rs: seq<string>)
    ensures |rs| <= |st|
    ensures forall j :: 0 <= j < |rs| ==> rs[j] == r
    ensures n !in st <==> rs == []
  {
    if st == [] then []
    else Mentions(r, st[..|st| - 1], n) + (if st[|st| - 1] == n then [r] else [])
  }

  lemma MentionsSnoc(r: string, st: seq<string>, x: string, n: string)
    ensures Mentions(r, st + [x], n) == Mentions(r, st, n) + (if x == n then [r] else [])
  {
    assert (st + [x])[..|st|] == st;
  }

  /** The routes list of station n once the routes order[..i] have been read. */
  function RoutesOf(all: RouteTable, order: seq<string>, i: nat, n: string): (rs: seq<string>)
    requires i <= |order|
    requires forall j :: 0 <= j < |order| ==> order[j] in all
    ensures rs == [] <==> n !in StationsOn(all, order, i)
  {
    if i == 0 then []
    else
      RoutesOf(all, order, i - 1, n) + Mentions(order[i - 1], all[order[i - 1]], n)
  }

  /** What the first loop of stationGenerator does to the routes lists for positions 0 .. k - 1 of route r. */
  function ListRoute(t: map<string, seq<string>>, r: string, st: seq<string>, k: nat): map<string, seq<string>>
    requires k <= |st|
  {
    if k == 0 then t
    else
      var t0 := ListRoute(t, r, st, k - 1);
      var n := st[k - 1];
      t0[n := (if n in t0 then t0[n] else []) + [r]]
  }

  /** The routes lists once the routes order[..i] have been read. */
  function ListRoutes(all: RouteTable, order: seq<string>, i: nat): map<string, seq<string>>
    requires i <= |order|
    requires forall j :: 0 <= j < |order| ==> order[j] in all
  {
    if i == 0 then map[]
    else ListRoute(ListRoutes(all, order, i - 1), order[i - 1], all[order[i - 1]], |all[order[i - 1]]|)
  }

  lemma {:induction false} ListRouteSpec(t: map<string, seq<string>>, r: string, st: seq<string>, k: nat)
    requires k <= |st|
    ensures ListRoute(t, r, st, k).Keys == t.Keys + Elems(st[..k])
    ensures forall n :: n in ListRoute(t, r, st, k) ==>
      ListRoute(t, r, st, k)[n] == (if n in t then t[n] else []) + Mentions(r, st[..k], n)
  {
    var t1 := ListRoute(t, r, st, k);
    forall n ensures n in t1 <==> n in t || n in Elems(st[..k]) {
      ListRouteAt(t, r, st, k, n);
    }
    forall n | n in t1 ensures t1[n] == (if n in t then t[n] else []) + Mentions(r, st[..k], n) {
      ListRouteAt(t, r, st, k, n);
    }
  }

  /** The routes list of one station after the first k positions of route r. */
  lemma {:induction false} ListRouteAt(t: map<string, seq<string>>, r: string, st: seq<string>, k: nat, n: string)
    requires k <= |st|
    ensures n in ListRoute(t, r, st, k) <==> n in t || n in st[..k]
    ensures n in ListRoute(t, r, st, k) ==>
      ListRoute(t, r, st, k)[n] == (if n in t then t[n] else []) + Mentions(r, st[..k], n)
  {
    if k > 0 {
      ListRouteAt(t, r, st, k - 1, n);
      var t0, t1, x := ListRoute(t, r, st, k - 1), ListRoute(t, r, st, k), st[k - 1];
      var listed := (if x in t0 then t0[x] else []) + [r];
      assert t1 == t0[x := listed];
      assert st[..k] == st[..k - 1] + [x];
      MentionsSnoc(r, st[..k - 1], x, n);
      if n != x {
        assert Mentions(r, st[..k], n) == Mentions(r, st[..k - 1], n);
        UpdateOther(t0, x, listed, n);
        InSnoc(st[..k - 1], x, n);
      } else if n in t0 {
        AppendAssoc(if n in t then t[n] else [], Mentions(r, st[..k - 1], n), [r]);
      } else {
        assert n !in t && n !in st[..k - 1];
        assert Mentions(r, st[..k - 1], n) == [];
        assert Mentions(r, st[..k], n) == [r];
        assert t1[n] == [r];
      }
    }
  }

  /** Every station of the routes read so far lists them, once per listing. */
  lemma {:induction false} ListRoutesSpec(all: RouteTable, order: seq<string>, i: nat)
    requires i <= |order|
    requires forall j :: 0 <= j < |order| ==> order[j] in all
    ensures ListRoutes(all, order, i).Keys == StationsOn(all, order, i)
    ensures forall n :: n in ListRoutes(all, order, i) ==> ListRoutes(all, order, i)[n] == RoutesOf(all, order, i, n)
  {
    if i > 0 {
      ListRoutesSpec(all, order, i - 1);
      var st := all[order[i - 1]];
      var prev := ListRoutes(all, order, i - 1);
      ListRouteSpec(prev, order[i - 1], st, |st|);
      assert st[..|st|] == st;
      forall n | n in ListRoutes(all, order, i) ensures ListRoutes(all, order, i)[n] == RoutesOf(all, order, i, n) {
        if n !in prev {
          assert RoutesOf(all, order, i - 1, n) == [];
        }
      }
    }
  }

  /** Stations with no neighbours yet. */
  function EmptyLinks(names: set<string>): (l: Links)
    ensures l.Keys == names
  {
    map n | n in names :: map[]
  }

  /** What stationGenerator does at position k of route r: link st[k] to st[k + 1] and to st[k - 1]. */
  function LinkAt(l: Links, r: string, st: seq<string>, k: nat): (l': Links)
    requires k < |st| && st[k] in l
    ensures l'.Keys == l.Keys
  {
    var n := st[k];
    var l1 := if k < |st| - 1 then l[n := l[n][st[k + 1] := r]] else l;
    if k > 0 then l1[n := l1[n][st[k - 1] := r]] else l1
  }

  /** Positions 0 .. k - 1 of route r. */
  function LinkRoute(l: Links, r: string, st: seq<string>, k: nat): (l': Links)
    requires k <= |st|
    requires forall j :: 0 <= j < |st| ==> st[j] in l
    ensures l'.Keys == l.Keys
  {
    if k == 0 then l else LinkAt(LinkRoute(l, r, st, k - 1), r, st, k - 1)
  }

  /** The routes order[..i], one after another. */
  function LinkRoutes(l: Links, all: RouteTable, order: seq<string>, i: nat): (l': Links)
    requires i <= |order|
    requires forall j :: 0 <= j < |order| ==> order[j] in all
    requires StationsOn(all, order, |order|) <= l.Keys
    ensures l'.Keys == l.Keys
  {
    if i == 0 then l
    else
      var r := order[i - 1];
      var l0 := LinkRoutes(l, all, order, i - 1);
      StationsOnHas(all, order, |order|, i - 1);
      LinkRoute(l0, r, all[r], |all[r]|)
  }

  /** The neighbour tables stationGenerator builds when it visits the routes in the given order. */
  function BuildLinks(all: RouteTable, order: seq<string>): (l: Links)
    requires forall j :: 0 <= j < |order| ==> order[j] in all
    ensures l.Keys == StationsOn(all, order, |order|)
  {
    LinkRoutes(EmptyLinks(StationsOn(all, order, |order|)), all, order, |order|)
  }

  function GraphOf(l: Links): (g: Graph<string>)
    ensures g.Keys == l.Keys
  {
    map n | n in l :: l[n].Keys
  }

  /** Stations a and b are consecutive, in either direction, at position k of a route. */
  predicate Pair(st: seq<string>, k: int, a: string, b: string)
  {
    0 <= k < |st| - 1 && ((st[k] == a && st[k + 1] == b) || (st[k] == b && st[k + 1] == a))
  }

  ghost predicate RouteLinks(st: seq<string>, a: string, b: string)
  {
    exists k :: Pair(st, k, a, b)
  }

  /** Station a is at position j of the route, with b just before or just after it. */
  predicate Here(st: seq<string>, j: int, a: string, b: string)
  {
    0 <= j < |st| && st[j] == a && ((j + 1 < |st| && st[j + 1] == b) || (j > 0 && st[j - 1] == b))
  }

  /** Station a, at one of the positions 0 .. k - 1, has b just before or just after it. */
  ghost predicate Touched(st: seq<string>, k: int, a: string, b: string)
  {
    exists j :: 0 <= j < k && Here(st, j, a, b)
  }

  /** The last of order[..i] whose route links a and b, or -1. */
  ghost function LastLinker(all: RouteTable, order: seq<string>, i: nat, a: string, b: string): (j: int)
    requires i <= |order|
    requires forall j :: 0 <= j < |order| ==> order[j] in all
    ensures -1 <= j < i
    ensures j >= 0 ==> RouteLinks(all[order[j]], a, b)
    ensures forall m :: j < m < i ==> !RouteLinks(all[order[m]], a, b)
  {
    if i == 0 then -1
    else if RouteLinks(all[order[i - 1]], a, b) then i - 1
    else LastLinker(all, order, i - 1, a, b)
  }

  lemma LastLinkerStep(all: RouteTable, order: seq<string>, i: nat, a: string, b: string)
    requires 0 < i <= |order|
    requires forall j :: 0 <= j < |order| ==> order[j] in all
    ensures LastLinker(all, order, i, a, b)
      == if RouteLinks(all[order[i - 1]], a, b) then i - 1 else LastLinker(all, order, i - 1, a, b)
  {
  }

  /** The neighbours of a after position j of route r is linked, and their labels. */
  lemma LinkAtEffect(l: Links, r: string, st: seq<string>, j: nat, a: string, b: string)
    requires j < |st| && st[j] in l && a in l
    ensures var l' := LinkAt(l, r, st, j);
      (b in l'[a] <==> b in l[a] || Here(st, j, a, b))
      && (Here(st, j, a, b) ==> l'[a][b] == r)
      && (!Here(st, j, a, b) && b in l[a] ==> l'[a][b] == l[a][b])
  {
  }

  /** The neighbours of a after the first k positions of route r, and their labels. */
  lemma {:induction false} LinkRouteEffect(l: Links, r: string, st: seq<string>, k: nat, a: string, b: string)
    requires k <= |st|
    requires forall j :: 0 <= j < |st| ==> st[j] in l
    requires a in l
    ensures var l' := LinkRoute(l, r, st, k);
      (b in l'[a] <==> b in l[a] || Touched(st, k, a, b))
      && (Touched(st, k, a, b) ==> l'[a][b] == r)
      && (!Touched(st, k, a, b) && b in l[a] ==> l'[a][b] == l[a][b])
  {
    if k > 0 {
      LinkRouteEffect(l, r, st, k - 1, a, b);
      var p := LinkRoute(l, r, st, k - 1);
      LinkAtEffect(p, r, st, k - 1, a, b);
      if Here(st, k - 1, a, b) {
        assert Touched(st, k, a, b);
      } else {
        if Touched(st, k, a, b) {
          var i :| 0 <= i < k && Here(st, i, a, b);
          assert Touched(st, k - 1, a, b);
        }
        if Touched(st, k - 1, a, b) {
          var i :| 0 <= i < k - 1 && Here(st, i, a, b);
          assert Touched(st, k, a, b);
        }
      }
    }
  }

  /** Over a whole route, touching is being consecutive. */
  lemma TouchedWholeRoute(st: seq<string>, a: string, b: string)
    ensures Touched(st, |st|, a, b) <==> RouteLinks(st, a, b)
  {
    if Touched(st, |st|, a, b) {
      var j :| 0 <= j < |st| && Here(st, j, a, b);
      if j + 1 < |st| && st[j + 1] == b {
        assert Pair(st, j, a, b);
      } else {
        assert Pair(st, j - 1, a, b);
      }
    }
    if RouteLinks(st, a, b) {
      var k :| Pair(st, k, a, b);
      if st[k] == a && st[k + 1] == b {
        assert Here(st, k, a, b);
      } else {
        assert Here(st, k + 1, a, b);
      }
    }
  }

  /**
   * Over a whole route: a link to b is added, labelled r, exactly when the
   * route has a and b consecutive; otherwise the neighbours of a keep theirs.
   */
  lemma LinkWholeRoute(l: Links, r: string, st: seq<string>, a: string, b: string)
    requires forall j :: 0 <= j < |st| ==> st[j] in l
    requires a in l
    ensures var l' := LinkRoute(l, r, st, |st|);
      (RouteLinks(st, a, b) ==> b in l'[a] && l'[a][b] == r)
      && (!RouteLinks(st, a, b) ==> (b in l'[a] <==> b in l[a]) && (b in l[a] ==> l'[a][b] == l[a][b]))
  {
    LinkRouteEffect(l, r, st, |st|, a, b);
    TouchedWholeRoute(st, a, b);
  }

  /** Linking the routes order[..i] is linking order[..i - 1], then route order[i - 1]. */
  lemma LinkRoutesStep(l: Links, all: RouteTable, order: seq<string>, i: nat)
    requires 0 < i <= |order|
    requires forall j :: 0 <= j < |order| ==> order[j] in all
    requires StationsOn(all, order, |order|) <= l.Keys
    ensures var l0, st := LinkRoutes(l, all, order, i - 1), all[order[i - 1]];
      (forall j :: 0 <= j < |st| ==> st[j] in l0)
      && LinkRoutes(l, all, order, i) == LinkRoute(l0, order[i - 1], st, |st|)
  {
    StationsOnHas(all, order, |order|, i - 1);
  }

  /**
   * After the routes order[..i] are linked, b is a neighbour of a exactly when
   * one of those routes has them consecutive, and the link carries the name
   * of the last such route.
   */
  lemma {:induction false} LinkRoutesEffect(l: Links, all: RouteTable, order: seq<string>, i: nat, a: string, b: string)
    requires i <= |order|
    requires forall j :: 0 <= j < |order| ==> order[j] in all
    requires StationsOn(all, order, |order|) <= l.Keys
    requires a in l && l[a] == map[]
    ensures var l' := LinkRoutes(l, all, order, i);
      var last := LastLinker(all, order, i, a, b);
      (b in l'[a] <==> last >= 0) && (last >= 0 ==> l'[a][b] == order[last])
  {
    if i > 0 {
      LinkRoutesEffect(l, all, order, i - 1, a, b);
      var r := order[i - 1];
      var st := all[r];
      var l0 := LinkRoutes(l, all, order, i - 1);
      LinkRoutesStep(l, all, order, i);
      LinkWholeRoute(l0, r, st, a, b);
      LastLinkerStep(all, order, i, a, b);
    }
  }

  /**
   * The graph stationGenerator builds: its stations are those of the routes,
   * b is a neighbour of a exactly when some route has them consecutive (in
   * either direction, so the graph is symmetric and does not depend on the
   * order the routes are visited in), and the link is labelled with the last
   * such route in that order.
   */
  lemma BuildLinksSpec(all: RouteTable, order: seq<string>, a: string, b: string)
    requires IsOrderOf(all, order)
    ensures BuildLinks(all, order).Keys == StationSet(all)
    ensures a in StationSet(all) ==>
      (b in BuildLinks(all, order)[a] <==> exists r :: r in all && RouteLinks(all[r], a, b))
    ensures var last := LastLinker(all, order, |order|, a, b);
      a in StationSet(all) && last >= 0 ==> BuildLinks(all, order)[a][b] == order[last]
  {
    var names := StationsOn(all, order, |order|);
    assert names == StationSet(all) by {
      forall n | n in StationSet(all) ensures n in names {
        var r, k :| r in all && 0 <= k < |all[r]| && all[r][k] == n;
        var j :| 0 <= j < |order| && order[j] == r;
        StationsOnHas(all, order, |order|, j);
        assert n in Elems(all[order[j]]);
      }
      forall n | n in names ensures n in StationSet(all) {
        StationsOnMember(all, order, |order|, n);
        var j :| 0 <= j < |order| && n in all[order[j]];
        var k :| 0 <= k < |all[order[j]]| && all[order[j]][k] == n;
      }
    }
    if a in names {
      LinkRoutesEffect(EmptyLinks(names), all, order, |order|, a, b);
      var last := LastLinker(all, order, |order|, a, b);
      if exists r :: r in all && RouteLinks(all[r], a, b) {
        var r :| r in all && RouteLinks(all[r], a, b);
        var j :| 0 <= j < |order| && order[j] == r;
        assert last >= 0;
      }
    }
  }

  /** The graph of the routes is symmetric. */
  lemma BuildLinksSymmetric(all: RouteTable, order: seq<string>)
    requires IsOrderOf(all, order)
    ensures Symmetric(GraphOf(BuildLinks(all, order)))
  {
    var l := BuildLinks(all, order);
    forall a, b | a in l && b in l[a].Keys ensures b in l && a in l[b].Keys {
      BuildLinksSpec(all, order, a, b);
      var r :| r in all && RouteLinks(all[r], a, b);
      var k :| Pair(all[r], k, a, b);
      assert b in StationSet(all) by {
        if all[r][k] == b { } else { assert all[r][k + 1] == b; }
      }
      assert Pair(all[r], k, b, a);
      BuildLinksSpec(all, order, b, a);
    }
  }

  /** Whether two stations are linked does not depend on the order the routes were read in. */
  lemma LinkOrderFree(all: RouteTable, o1: seq<string>, o2: seq<string>, a: string, b: string)
    requires IsOrderOf(all, o1) && IsOrderOf(all, o2)
    ensures a in BuildLinks(all, o1) <==> a in BuildLinks(all, o2)
    ensures a in BuildLinks(all, o1) ==> (b in BuildLinks(all, o1)[a] <==> b in BuildLinks(all, o2)[a])
  {
    BuildLinksSpec(all, o1, a, b);
    BuildLinksSpec(all, o2, a, b);
  }

  /**
   * The neighbour sets do not depend on the order in which the routes were
   * read: only the labels do.
   */
  lemma GraphOrderFree(all: RouteTable, o1: seq<string>, o2: seq<string>)
    requires IsOrderOf(all, o1) && IsOrderOf(all, o2)
    ensures GraphOf(BuildLinks(all, o1)) == GraphOf(BuildLinks(all, o2))
  {
    var l1, l2 := BuildLinks(all, o1), BuildLinks(all, o2);
    forall a ensures a in l1 <==> a in l2 {
      LinkOrderFree(all, o1, o2, a, a);
    }
    forall a | a in l1 ensures l1[a].Keys == l2[a].Keys {
      forall b ensures b in l1[a] <==> b in l2[a] {
        LinkOrderFree(all, o1, o2, a, b);
      }
    }
    SameGraph(l1, l2);
  }

  /** Links with the same stations and the same neighbours give the same graph, whatever their labels. */
  lemma SameGraph(l1: Links, l2: Links)
    requires forall a :: a in l1 <==> a in l2
    requires forall a :: a in l1 ==> l1[a].Keys == l2[a].Keys
    ensures GraphOf(l1) == GraphOf(l2)
  {
    assert l1.Keys == l2.Keys;
  }
}
