// One leg of a journey (SubTrip, with its variants BusSubTrip and
// SubwaySubTrip). A leg is en route from the tap in to the tap out and
// finished afterwards. The Java object is updated in place; here each update
// is a function from the leg before to the leg after. The link to the next
// leg (`connection`) is the order of the legs in their Trip; the flag
// `connected` records whether the link has been set.

module Legs {
  import opened Wrappers
  import opened Clock
  import opened Graphs
  import opened RouteGraph

  datatype Mode = Bus | Subway

  /** The exceptions a leg raises. */
  datatype LegError = TripNotEnRoute | ExitNotSameRoute | TripEnRoute | NullPointer

  /**
   * A leg. `timeEnd` and `endPoint` are only meaningful once the leg is no
   * longer en route (the source holds null there before).
   */
  datatype SubTrip = SubTrip(
    mode: Mode,
    timeStart: DateTime,
    startPoint: string,
    routeName: string,
    timeEnd: DateTime,
    endPoint: string,
    enRoute: bool,
    fare: int,
    numOfStops: int,
    connected: bool)

  /**
   * The static state the leg classes share: the bus and subway route tables,
   * the order in which the subway table is iterated, and the bus fare per
   * trip and subway fare per station read from the rate table when each
   * class was initialised.
   */
  datatype Network = Network(
    busRoutes: RouteTable,
    subwayRoutes: RouteTable,
    subwayOrder: seq<string>,
    farePerTrip: int,
    farePerStation: int)

  predicate ValidNetwork(net: Network)
  {
    IsOrderOf(net.subwayRoutes, net.subwayOrder)
  }

  /** The graph of `new RouteFinder("Subway")`. */
  function SubwayGraph(net: Network): Graph<string>
    requires ValidNetwork(net)
  {
    GraphOf(BuildLinks(SelectRoutes("Subway", net.subwayRoutes, net.busRoutes), net.subwayOrder))
  }

  /** The subway graph is the same whatever order the subway table is iterated in. */
  lemma SubwayGraphOrderFree(net: Network, order: seq<string>)
    requires ValidNetwork(net) && IsOrderOf(net.subwayRoutes, order)
    ensures SubwayGraph(net) == SubwayGraph(net.(subwayOrder := order))
  {
    GraphOrderFree(net.subwayRoutes, net.subwayOrder, order);
  }

  /** The SubTrip constructors: en route, no fare, no stops, no connection. */
  function NewLeg(mode: Mode, timeStart: DateTime, startPoint: string, routeName: string): (leg: SubTrip)
    ensures leg.mode == mode && leg.timeStart == timeStart
    ensures leg.startPoint == startPoint && leg.routeName == routeName
    ensures leg.enRoute && leg.fare == 0 && leg.numOfStops == 0 && !leg.connected
  {
    SubTrip(mode, timeStart, startPoint, routeName, 0, "", true, 0, 0, false)
  }

  /** List.indexOf: the first position of the station on the route, or -1. */
  function IndexIn(route: seq<string>, station: string): (i: int)
    ensures -1 <= i < |route|
    ensures i == -1 <==> station !in route
    ensures i >= 0 ==> route[i] == station && forall k :: 0 <= k < i ==> route[k] != station
  {
    if |route| == 0 then -1
    else if route[0] == station then 0
    else
      var j := IndexIn(route[1..], station);
      if j < 0 then -1 else j + 1
  }

  /** getRoute: the stations of the entry route in the table of the leg's mode (null when absent). */
  function GetRoute(leg: SubTrip, net: Network): (r: Option<seq<string>>)
    ensures leg.mode == Bus ==> (r.Some? <==> leg.routeName in net.busRoutes)
    ensures leg.mode == Subway ==> (r.Some? <==> leg.routeName in net.subwayRoutes)
    ensures r.Some? && leg.mode == Bus ==> r.value == net.busRoutes[leg.routeName]
    ensures r.Some? && leg.mode == Subway ==> r.value == net.subwayRoutes[leg.routeName]
  {
    var table := if leg.mode == Bus then net.busRoutes else net.subwayRoutes;
    if leg.routeName in table then Some(table[leg.routeName]) else None
  }

  /**
   * endTrip: a bus leg may only end on the route it started on, a subway
   * leg on any subway route; otherwise nothing changes.
   */
  function EndTrip(leg: SubTrip, net: Network, timeEnd: DateTime, endPoint: string, route: string): (r: Result<SubTrip, LegError>)
  {
    if leg.mode == Bus && leg.routeName != route then Err(ExitNotSameRoute)
    else if leg.mode == Subway && route !in net.subwayRoutes then Err(ExitNotSameRoute)
    else Ok(leg.(enRoute := false, timeEnd := timeEnd, endPoint := endPoint))
  }

  /** The number of stops from the leg's start to its end, or the NullPointerException computing it raises. */
  function Stops(leg: SubTrip, net: Network): (r: Result<int, LegError>)
    requires ValidNetwork(net)
  {
    match leg.mode
    case Bus =>
      var route := GetRoute(leg, net);
      if route.None? then Err(LegError.NullPointer)
      else
        var d := IndexIn(route.value, leg.startPoint) - IndexIn(route.value, leg.endPoint);
        Ok(if d < 0 then -d else d)
    case Subway =>
      match ShortestPathLength(SubwayGraph(net), leg.startPoint, leg.endPoint)
      case Ok(n) => Ok(n)
      case Err(_) => Err(LegError.NullPointer)
  }

  /** setNumOfStops. */
  function SetNumOfStops(leg: SubTrip, net: Network): (r: Result<SubTrip, LegError>)
    requires ValidNetwork(net)
    ensures r.Ok? <==> Stops(leg, net).Ok?
    ensures r.Ok? ==> r.value == leg.(numOfStops := Stops(leg, net).value)
  {
    match Stops(leg, net)
    case Ok(n) => Ok(leg.(numOfStops := n))
    case Err(e) => Err(e)
  }

  /**
   * What finishTrip leaves behind: the leg afterwards, and the exception it
   * raised, if any. A NullPointerException from counting the stops comes
   * after the leg has already been ended.
   */
  datatype Finish = Finish(leg: SubTrip, failure: Option<LegError>)

  /**
   * finishTrip: a finished leg raises TripNotEnRouteException; an exit
   * endTrip rejects leaves the leg as it was; otherwise the leg ends at the
   * given time and place and its stops are counted.
   */
  function FinishTrip(leg: SubTrip, net: Network, timeEnd: DateTime, endPoint: string, route: string): (f: Finish)
    requires ValidNetwork(net)
    ensures !leg.enRoute ==> f == Finish(leg, Some(TripNotEnRoute))
    ensures leg.enRoute && EndTrip(leg, net, timeEnd, endPoint, route).Err? ==> f == Finish(leg, Some(ExitNotSameRoute))
    ensures var ended := leg.(enRoute := false, timeEnd := timeEnd, endPoint := endPoint);
      f.failure.None? ==> Stops(ended, net).Ok? && f.leg == ended.(numOfStops := Stops(ended, net).value)
    ensures f.failure == Some(LegError.NullPointer) ==> f.leg == leg.(enRoute := false, timeEnd := timeEnd, endPoint := endPoint)
    ensures f.failure.None? ==> leg.enRoute && !f.leg.enRoute
    ensures f.leg.connected == leg.connected && f.leg.fare == leg.fare
  {
    if !leg.enRoute then Finish(leg, Some(TripNotEnRoute))
    else match EndTrip(leg, net, timeEnd, endPoint, route)
      case Err(e) => Finish(leg, Some(e))
      case Ok(ended) =>
        match SetNumOfStops(ended, net)
        case Ok(counted) => Finish(counted, None)
        case Err(e) => Finish(ended, Some(e))
  }

  /**
   * calculateFare: the bus fare per trip for a bus leg, en route or not; for
   * a finished subway leg the fare per station times the fewest subway
   * links between its stations; TripEnRouteException for a subway leg en
   * route.
   */
  function CalculateFare(leg: SubTrip, net: Network): (r: Result<int, LegError>)
    requires ValidNetwork(net)
    ensures leg.mode == Bus ==> r == Ok(net.farePerTrip)
    ensures leg.mode == Subway && leg.enRoute ==> r == Err(TripEnRoute)
  {
    if leg.mode == Bus then Ok(net.farePerTrip)
    else if leg.enRoute then Err(TripEnRoute)
    else match Stops(leg, net)
      case Ok(n) => Ok(net.farePerStation * n)
      case Err(e) => Err(e)
  }

  /** setConnection: refused while the leg is en route. */
  function SetConnection(leg: SubTrip): (r: Result<SubTrip, LegError>)
    ensures leg.enRoute <==> r == Err(TripEnRoute)
    ensures r.Ok? ==> r.value == leg.(connected := true)
  {
    if leg.enRoute then Err(TripEnRoute) else Ok(leg.(connected := true))
  }

  /** setFare: overwrites the recorded fare and nothing else. */
  function SetFare(leg: SubTrip, fare: int): (r: SubTrip)
    ensures r.fare == fare
    ensures r.(fare := leg.fare) == leg
  {
    leg.(fare := fare)
  }

  /** getTimeEnd: refused while the leg is en route. */
  function GetTimeEnd(leg: SubTrip): (r: Result<DateTime, LegError>)
    ensures leg.enRoute <==> r.Err?
    ensures r.Err? ==> r.error == TripEnRoute
  {
    if leg.enRoute then Err(TripEnRoute) else Ok(leg.timeEnd)
  }

  // ---------------------------------------------------------------------------
  // properties

  /** A finished subway leg is charged for exactly the stops finishTrip counted. */
  lemma SubwayFareIsPerStop(leg: SubTrip, net: Network, timeEnd: DateTime, endPoint: string, route: string)
    requires leg.mode == Subway && ValidNetwork(net)
    requires FinishTrip(leg, net, timeEnd, endPoint, route).failure.None?
    ensures var f := FinishTrip(leg, net, timeEnd, endPoint, route);
      CalculateFare(f.leg, net) == Ok(net.farePerStation * f.leg.numOfStops)
  {
  }

  /**
   * A subway leg between two stations on the subway network counts the
   * fewest links between them; when they are not connected the search gives
   * up with 12.
   */
  lemma SubwayStopsAreDistance(leg: SubTrip, net: Network)
    requires leg.mode == Subway
    requires ValidNetwork(net)
    requires leg.startPoint in SubwayGraph(net) && leg.endPoint in SubwayGraph(net)
    ensures Stops(leg, net).Ok?
    ensures Reachable(SubwayGraph(net), leg.startPoint, leg.endPoint) ==>
      IsDistance(SubwayGraph(net), leg.startPoint, leg.endPoint, Stops(leg, net).value)
    ensures !Reachable(SubwayGraph(net), leg.startPoint, leg.endPoint) ==> Stops(leg, net).value == 12
  {
    var g, s, e := SubwayGraph(net), leg.startPoint, leg.endPoint;
    if s == e {
      ShortestPathLengthSame(g, s);
    } else {
      ShortestPathLengthMeaning(g, s, e);
    }
  }

  /**
   * A bus leg between two stations of its route counts how far apart they
   * are on it, the same whichever way it was travelled.
   */
  lemma BusStopsAreIndexDistance(leg: SubTrip, net: Network, i: nat, j: nat)
    requires leg.mode == Bus && leg.routeName in net.busRoutes && ValidNetwork(net)
    requires var route := net.busRoutes[leg.routeName];
      i < |route| && j < |route| && route[i] == leg.startPoint && route[j] == leg.endPoint
      && (forall k :: 0 <= k < i ==> route[k] != leg.startPoint)
      && (forall k :: 0 <= k < j ==> route[k] != leg.endPoint)
    ensures Stops(leg, net) == Ok(if i < j then j - i else i - j)
    ensures Stops(leg.(startPoint := leg.endPoint, endPoint := leg.startPoint), net) == Stops(leg, net)
  {
    var route := net.busRoutes[leg.routeName];
    assert IndexIn(route, leg.startPoint) == i;
    assert IndexIn(route, leg.endPoint) == j;
  }
}
