// A journey (Trip): a chain of legs, each starting where the previous one
// ended, within two hours of the first tap. The chain is held as the
// sequence of its legs in order; `start` is the first and `end` the last.

module Trips {
  import opened Wrappers
  import opened Clock
  import opened Text
  import opened Legs

  datatype Trip = Trip(legs: seq<SubTrip>)

  /** Only the last leg has no connection: every other leg links to the next. */
  predicate ValidTrip(t: Trip)
  {
    |t.legs| >= 1 && forall i :: 0 <= i < |t.legs| ==> (t.legs[i].connected <==> i < |t.legs| - 1)
  }

  function Start(t: Trip): SubTrip
    requires |t.legs| >= 1
  {
    t.legs[0]
  }

  function End(t: Trip): SubTrip
    requires |t.legs| >= 1
  {
    t.legs[|t.legs| - 1]
  }

  /** The Trip constructor: the leg is both the first and the last. */
  function NewTrip(leg: SubTrip): (t: Trip)
    requires !leg.connected
    ensures ValidTrip(t) && Start(t) == leg && End(t) == leg
  {
    Trip([leg])
  }

  /** The longest a journey may go on, in whole minutes after its first tap. */
  const MaxMinutes: int := 120

  datatype TripError = CanNotContinue | EnRoute

  /**
   * canContinue: TripEnRouteException while the last leg is en route;
   * otherwise whether the station is where the last leg ended and the time
   * is at most 120 whole minutes after the first leg started.
   */
  function CanContinue(t: Trip, time: DateTime, station: string): (r: Result<bool, TripError>)
    requires |t.legs| >= 1
  {
    if End(t).enRoute then Err(EnRoute)
    else if station != End(t).endPoint then Ok(false)
    else Ok(MinutesBetween(Start(t).timeStart, time) <= MaxMinutes)
  }

  /** Replaces the last leg. */
  function WithEnd(t: Trip, leg: SubTrip): (u: Trip)
    requires |t.legs| >= 1
    ensures |u.legs| == |t.legs| && End(u) == leg
    ensures forall i :: 0 <= i < |t.legs| - 1 ==> u.legs[i] == t.legs[i]
    ensures ValidTrip(t) && !leg.connected ==> ValidTrip(u)
  {
    Trip(t.legs[..|t.legs| - 1] + [leg])
  }

  /**
   * appendTrip: the leg joins the journey as its new last leg, linked from
   * the old last leg, when canContinue allows it; otherwise the journey is
   * left as it was and the exception says why.
   */
  function AppendTrip(t: Trip, leg: SubTrip): (r: Result<Trip, TripError>)
    requires ValidTrip(t) && !leg.connected
    ensures r == Err(EnRoute) <==> End(t).enRoute
    ensures r == Err(CanNotContinue) <==>
      !End(t).enRoute && !(leg.startPoint == End(t).endPoint && MinutesBetween(Start(t).timeStart, leg.timeStart) <= MaxMinutes)
    ensures r.Ok? ==> r.value.legs == t.legs[..|t.legs| - 1] + [End(t).(connected := true), leg]
    ensures r.Ok? ==> ValidTrip(r.value) && End(r.value) == leg && Start(r.value).timeStart == Start(t).timeStart
  {
    match CanContinue(t, leg.timeStart, leg.startPoint)
    case Err(e) => Err(e)
    case Ok(can) =>
      if !can then Err(CanNotContinue)
      else
        var linked := SetConnection(End(t)).value;
        Ok(Trip(WithEnd(t, linked).legs + [leg]))
  }

  // ---------------------------------------------------------------------------
  // totals along the chain

  /** The fares recorded on the legs, in chain order. */
  function FareSum(legs: seq<SubTrip>): int
  {
    if legs == [] then 0 else FareSum(legs[..|legs| - 1]) + legs[|legs| - 1].fare
  }

  /** The stops counted on the legs of one mode. */
  function StopSum(legs: seq<SubTrip>, mode: Mode): int
  {
    if legs == [] then 0
    else StopSum(legs[..|legs| - 1], mode) + (if legs[|legs| - 1].mode == mode then legs[|legs| - 1].numOfStops else 0)
  }

  /** getCurrentTotalFare: walks the chain adding up the recorded fares. */
  method CurrentTotalFare(t: Trip) returns (sum: int)
    ensures sum == FareSum(t.legs)
  {
    sum := 0;
    var i := 0;
    while i < |t.legs|
      invariant 0 <= i <= |t.legs|
      invariant sum == FareSum(t.legs[..i])
    {
      assert t.legs[..i + 1][..i] == t.legs[..i];
      sum := sum + t.legs[i].fare;
      i := i + 1;
    }
    assert t.legs[..i] == t.legs;
  }

  /** The walks of totalBusStop and totalSubwayStation. */
  method TotalStops(t: Trip, mode: Mode) returns (result: int)
    ensures result == StopSum(t.legs, mode)
  {
    result := 0;
    var i := 0;
    while i < |t.legs|
      invariant 0 <= i <= |t.legs|
      invariant result == StopSum(t.legs[..i], mode)
    {
      assert t.legs[..i + 1][..i] == t.legs[..i];
      if t.legs[i].mode == mode {
        result := result + t.legs[i].numOfStops;
      }
      i := i + 1;
    }
    assert t.legs[..i] == t.legs;
  }

  /** totalBusStop. */
  method TotalBusStop(t: Trip) returns (result: int)
    ensures result == StopSum(t.legs, Bus)
  {
    result := TotalStops(t, Bus);
  }

  /** totalSubwayStation. */
  method TotalSubwayStation(t: Trip) returns (result: int)
    ensures result == StopSum(t.legs, Subway)
  {
    result := TotalStops(t, Subway);
  }

  lemma {:induction false} FareSumConcat(a: seq<SubTrip>, b: seq<SubTrip>)
    ensures FareSum(a + b) == FareSum(a) + FareSum(b)
    decreases |b|
  {
    if b == [] {
      assert a + b == a;
    } else {
      assert (a + b)[..|a + b| - 1] == a + b[..|b| - 1];
      FareSumConcat(a, b[..|b| - 1]);
    }
  }

  /** Linking the old last leg changes no fare: the total grows by the new leg's fare. */
  lemma AppendAddsFare(t: Trip, leg: SubTrip)
    requires ValidTrip(t) && !leg.connected
    requires AppendTrip(t, leg).Ok?
    ensures FareSum(AppendTrip(t, leg).value.legs) == FareSum(t.legs) + leg.fare
  {
    var front, linked := t.legs[..|t.legs| - 1], End(t).(connected := true);
    var legs := AppendTrip(t, leg).value.legs;
    assert legs == front + [linked, leg];
    FareSumConcat(front, [linked, leg]);
    FareSumConcat(front, [End(t)]);
    assert t.legs == front + [End(t)];
    assert FareSum([linked, leg]) == End(t).fare + leg.fare by {
      assert [linked, leg][..1] == [linked];
      assert FareSum([linked]) == linked.fare;
    }
  }

  /** Overwriting the last leg's fare changes the total by the difference. */
  lemma SetEndFare(t: Trip, fare: int)
    requires |t.legs| >= 1
    ensures FareSum(WithEnd(t, SetFare(End(t), fare)).legs) == FareSum(t.legs) - End(t).fare + fare
  {
    assert WithEnd(t, SetFare(End(t), fare)).legs[..|t.legs| - 1] == t.legs[..|t.legs| - 1];
  }

  // ---------------------------------------------------------------------------
  // ordering

  /** compareTo: -1, 0 or 1 as the other journey starts whole minutes later, within the same minute, or earlier. */
  function CompareTo(a: Trip, b: Trip): (c: int)
    requires |a.legs| >= 1 && |b.legs| >= 1
  {
    var m := MinutesBetween(Start(a).timeStart, Start(b).timeStart);
    if m > 0 then -1 else if m == 0 then 0 else 1
  }

  /**
   * compareTo orders journeys by the minute their first leg started: two
   * that started less than a minute apart are equal, and swapping the two
   * negates the answer.
   */
  lemma CompareToMeaning(a: Trip, b: Trip)
    requires |a.legs| >= 1 && |b.legs| >= 1
    ensures var d := Start(b).timeStart - Start(a).timeStart;
      (CompareTo(a, b) == -1 <==> d >= NanosPerMinute)
      && (CompareTo(a, b) == 0 <==> -NanosPerMinute < d < NanosPerMinute)
      && (CompareTo(a, b) == 1 <==> d <= -NanosPerMinute)
    ensures CompareTo(b, a) == -CompareTo(a, b)
  {
    var x, y := Start(a).timeStart, Start(b).timeStart;
    assert MinutesBetween(y, x) == -MinutesBetween(x, y);
  }

  // ---------------------------------------------------------------------------
  // getEnumeratedTrips

  const Rule: string := "------------------------------------------------------------"

  /** The number of entries before the first missing one. */
  function Present(trips: seq<Option<Trip>>): (n: nat)
    ensures n <= |trips|
    ensures forall k :: 0 <= k < n ==> trips[k].Some?
    ensures n < |trips| ==> trips[n].None?
  {
    if trips == [] || trips[0].None? then 0 else 1 + Present(trips[1..])
  }

  /** The first n entries, numbered from 1, each on a line of its own. */
  function Numbered(trips: seq<Option<Trip>>, text: Trip -> string, n: nat): string
    requires n <= |trips| && forall k :: 0 <= k < n ==> trips[k].Some?
  {
    if n == 0 then ""
    else Numbered(trips, text, n - 1) + NatToString(n) + "." + text(trips[n - 1].value) + NL
  }

  /**
   * getEnumeratedTrips, given how each journey prints: the entries up to the
   * first missing one, between two rules; an empty array gives the notice
   * that there is no trip, followed by the closing rule.
   */
  function Enumerated(trips: seq<Option<Trip>>, text: Trip -> string): string
  {
    if |trips| == 0 then "There is no trip." + Rule
    else Rule + NL + Numbered(trips, text, Present(trips)) + Rule
  }

  /** The loop of getEnumeratedTrips, which breaks at the first missing entry. */
  method GetEnumeratedTrips(trips: seq<Option<Trip>>, text: Trip -> string) returns (result: string)
    ensures result == Enumerated(trips, text)
  {
    if |trips| == 0 {
      result := "There is no trip.";
    } else {
      result := Rule + NL;
      var i := 0;
      while i < |trips|
        invariant 0 <= i <= Present(trips)
        invariant result == Rule + NL + Numbered(trips, text, i)
        decreases |trips| - i
      {
        if trips[i].None? {
          break;
        }
        result := result + NatToString(i + 1) + "." + text(trips[i].value) + NL;
        i := i + 1;
      }
      assert i == Present(trips);
    }
    result := result + Rule;
  }

  /** Present on a sequence cut after a missing entry. */
  lemma {:induction false} PresentCut(trips: seq<Option<Trip>>, k: nat)
    requires k < |trips| && trips[k].None?
    ensures Present(trips[..k + 1]) == Present(trips)
  {
    if trips[0].Some? {
      assert trips[..k + 1][1..] == trips[1..][..k];
      PresentCut(trips[1..], k - 1);
    }
  }

  /** Numbered depends only on the entries it lists. */
  lemma {:induction false} NumberedPrefix(trips: seq<Option<Trip>>, m: nat, text: Trip -> string, n: nat)
    requires n <= m <= |trips| && forall k :: 0 <= k < n ==> trips[k].Some?
    ensures Numbered(trips[..m], text, n) == Numbered(trips, text, n)
  {
    if n > 0 {
      NumberedPrefix(trips, m, text, n - 1);
    }
  }

  /** Nothing after a missing entry is listed. */
  lemma EnumeratedStopsAtMissing(trips: seq<Option<Trip>>, text: Trip -> string, k: nat)
    requires k < |trips| && trips[k].None?
    ensures Enumerated(trips, text) == Enumerated(trips[..k + 1], text)
  {
    PresentCut(trips, k);
    NumberedPrefix(trips, k + 1, text, Present(trips));
  }
}
