// The rules of tapping, proved about the functions of module Tapping: what
// each kind of tap charges, where the charge is recorded, and which journey
// the leg ends up in.

module TapRules {
  import opened Wrappers
  import opened Clock
  import opened Passes
  import opened Legs
  import opened Trips
  import opened Logs
  import opened Tapping

  /** What payFare debits: nothing under a pass valid on the day, else the amount. */
  function Charge(s: CardState, amount: int, time: DateTime): int
  {
    if HasValid(s.passes, DateOf(time)) then 0 else amount
  }

  lemma WithEndSame(t: Trip)
    requires |t.legs| >= 1
    ensures WithEnd(t, End(t)) == t
  {
    assert WithEnd(t, End(t)).legs == t.legs;
  }

  lemma SetCurrentSame(s: CardState)
    requires |s.trips| >= 1
    ensures SetCurrent(s, CurrentTrip(s)) == s
  {
    assert SetCurrent(s, CurrentTrip(s)).trips == s.trips;
  }

  /**
   * Charging a leg debits the charge, logs it at the instant, records it as
   * the fare of the current journey's last leg (so the journey's total moves
   * by the difference) and leaves every earlier journey alone.
   */
  lemma ChargeLegEffect(s: CardState, amount: int, time: DateTime)
    requires Coherent(s) && |s.trips| >= 1
    ensures var r := ChargeLeg(s, amount, time);
      var charge := Charge(s, amount, time);
      r.balance == s.balance - charge
      && Get(r.transactions, time) == Some(charge)
      && r.current == s.current && r.passTransactions == s.passTransactions
      && |r.trips| == |s.trips| && r.trips[..|s.trips| - 1] == s.trips[..|s.trips| - 1]
      && CurrentTrip(r) == WithEnd(CurrentTrip(s), SetFare(End(CurrentTrip(s)), charge))
      && End(CurrentTrip(r)).fare == charge
      && FareSum(CurrentTrip(r).legs) == FareSum(CurrentTrip(s).legs) - End(CurrentTrip(s)).fare + charge
  {
    PayFareCharges(s, amount, time);
    SetEndFare(CurrentTrip(s), Charge(s, amount, time));
    var s1 := PayFare(s, amount, time).0;
    assert s1.trips == s.trips;
    var r := ChargeLeg(s, amount, time);
    assert r.trips[..|s.trips| - 1] == s.trips[..|s.trips| - 1];
  }

  /** The part of ChargeLegEffect about money: the balance and the journey's total. */
  lemma ChargeLegSum(s: CardState, amount: int, time: DateTime)
    requires Coherent(s) && |s.trips| >= 1
    ensures var r := ChargeLeg(s, amount, time);
      r.balance == s.balance - Charge(s, amount, time)
      && FareSum(CurrentTrip(r).legs) == FareSum(CurrentTrip(s).legs) - End(CurrentTrip(s)).fare + Charge(s, amount, time)
  {
    ChargeLegEffect(s, amount, time);
  }

  // ---------------------------------------------------------------------------
  // tapping in

  /**
   * A tap in while the last leg is still open: that leg is fined and the
   * fine recorded on it, and the new leg starts a journey of its own; the
   * journeys before are untouched.
   */
  lemma TapInFinesOpenLeg(s: CardState, leg: SubTrip, fine: int)
    requires Coherent(s) && !leg.connected
    requires s.current && End(CurrentTrip(s)).enRoute
    ensures var (r, continued) := JoinLeg(s, leg, fine);
      var charge := Charge(s, fine, leg.timeStart);
      !continued
      && r.balance == s.balance - charge
      && Get(r.transactions, leg.timeStart) == Some(charge)
      && r.trips == s.trips[..|s.trips| - 1] + [WithEnd(CurrentTrip(s), SetFare(End(CurrentTrip(s)), charge)), NewTrip(leg)]
  {
    ChargeLegEffect(s, fine, leg.timeStart);
    var s1 := ChargeLeg(s, fine, leg.timeStart);
    assert s1.trips == s1.trips[..|s.trips| - 1] + [CurrentTrip(s1)];
  }

  /** A tap in that cannot continue the journey starts a new one and charges nothing for it. */
  lemma TapInStartsJourney(s: CardState, leg: SubTrip, fine: int)
    requires Coherent(s) && !leg.connected
    requires !s.current || AppendTrip(CurrentTrip(s), leg) == Err(CanNotContinue)
    ensures JoinLeg(s, leg, fine) == (s.(current := true, trips := s.trips + [NewTrip(leg)]), false)
  {
  }

  /** A tap in that continues the journey: its leg is appended and nothing else changes. */
  lemma TapInContinues(s: CardState, leg: SubTrip, fine: int)
    requires Coherent(s) && !leg.connected
    requires s.current && AppendTrip(CurrentTrip(s), leg).Ok?
    ensures var (r, continued) := JoinLeg(s, leg, fine);
      continued && r == SetCurrent(s, AppendTrip(CurrentTrip(s), leg).value)
      && FareSum(CurrentTrip(r).legs) == FareSum(CurrentTrip(s).legs) + leg.fare
  {
    AppendAddsFare(CurrentTrip(s), leg);
  }

  /** Entering the subway charges nothing, unless an open leg has to be fined first. */
  lemma SubwayTapInFree(s: CardState, fine: int, time: DateTime, station: string, route: string)
    requires Coherent(s)
    requires !(s.current && End(CurrentTrip(s)).enRoute)
    ensures var r := TapIntoSubway(s, fine, time, station, route);
      r.balance == s.balance && r.transactions == s.transactions && r.passes == s.passes
  {
  }

  /**
   * A bus tap in that continues the journey charges the bus fare cut to
   * what is left under the cap, or nothing under a pass; the journey's total
   * grows by the charge, so without a pass it ends at the cap or below. The
   * cut is not floored: a journey already over the cap is refunded the
   * excess.
   */
  lemma BusTapInCap(s: CardState, net: Network, fine: int, maxFare: int, time: DateTime, station: string, route: string)
    requires Coherent(s)
    requires s.current && AppendTrip(CurrentTrip(s), NewLeg(Bus, time, station, route)).Ok?
    ensures var r := TapIntoBus(s, net, fine, maxFare, time, station, route);
      var sofar := FareSum(CurrentTrip(s).legs);
      var charge := Charge(s, Capped(sofar, net.farePerTrip, maxFare), time);
      r.balance == s.balance - charge
      && FareSum(CurrentTrip(r).legs) == sofar + charge
      && (!HasValid(s.passes, DateOf(time)) ==>
            FareSum(CurrentTrip(r).legs) == if sofar + net.farePerTrip > maxFare then maxFare else sofar + net.farePerTrip)
      && |r.trips| == |s.trips|
  {
    var leg := NewLeg(Bus, time, station, route);
    var sofar := FareSum(CurrentTrip(s).legs);
    var s1 := JoinLeg(s, leg, fine).0;
    assert JoinLeg(s, leg, fine).1 && s1 == SetCurrent(s, AppendTrip(CurrentTrip(s), leg).value)
      && FareSum(CurrentTrip(s1).legs) == sofar by {
      TapInContinues(s, leg, fine);
    }
    assert s1.balance == s.balance && s1.passes == s.passes;
    var fare := Capped(sofar, net.farePerTrip, maxFare);
    var charge := Charge(s, fare, time);
    var r := ChargeLeg(s1, fare, time);
    assert r == TapIntoBus(s, net, fine, maxFare, time, station, route);
    assert r.balance == s.balance - charge && FareSum(CurrentTrip(r).legs) == sofar + charge by {
      ChargeLegSum(s1, fare, time);
    }
  }

  /** A bus tap in starting a new journey charges the whole bus fare, or nothing under a pass. */
  lemma BusTapInNewJourney(s: CardState, net: Network, fine: int, maxFare: int, time: DateTime, station: string, route: string)
    requires Coherent(s)
    requires !s.current || AppendTrip(CurrentTrip(s), NewLeg(Bus, time, station, route)) == Err(CanNotContinue)
    ensures var r := TapIntoBus(s, net, fine, maxFare, time, station, route);
      var charge := Charge(s, net.farePerTrip, time);
      r.balance == s.balance - charge
      && r.trips == s.trips + [NewTrip(NewLeg(Bus, time, station, route).(fare := charge))]
  {
    var leg := NewLeg(Bus, time, station, route);
    TapInStartsJourney(s, leg, fine);
    var s1 := JoinLeg(s, leg, fine).0;
    ChargeLegEffect(s1, net.farePerTrip, time);
    var r := TapIntoBus(s, net, fine, maxFare, time, station, route);
    assert r.trips == r.trips[..|s.trips|] + [CurrentTrip(r)];
    assert CurrentTrip(r).legs == [leg.(fare := Charge(s, net.farePerTrip, time))];
  }

  // ---------------------------------------------------------------------------
  // tapping out

  /** A tap out with no journey under way is fined and changes no journey. */
  lemma TapOutWithoutJourney(s: CardState, net: Network, fine: int, maxFare: int, time: DateTime, station: string, route: string)
    requires Coherent(s) && ValidNetwork(net) && !s.current
    ensures var b := TapOutOfBus(s, net, fine, time, station, route);
      b == TapOutOfSubway(s, net, fine, maxFare, time, station, route)
      && b.balance == s.balance - Charge(s, fine, time)
      && b.trips == s.trips && !b.current
  {
    PayFareCharges(s, fine, time);
  }

  /** A tap out whose last leg has already ended is fined and changes no journey. */
  lemma TapOutOfFinishedLeg(s: CardState, net: Network, fine: int, maxFare: int, time: DateTime, station: string, route: string)
    requires Coherent(s) && ValidNetwork(net) && s.current && !End(CurrentTrip(s)).enRoute
    ensures var b := TapOutOfBus(s, net, fine, time, station, route);
      b == TapOutOfSubway(s, net, fine, maxFare, time, station, route)
      && b == PayFare(s, fine, time).0
      && b.balance == s.balance - Charge(s, fine, time)
      && b.trips == s.trips && b.current
  {
    WithEndSame(CurrentTrip(s));
    SetCurrentSame(s);
    PayFareCharges(s, fine, time);
  }

  /**
   * A tap out on a route the leg may not end on: the leg stays open, the fine
   * is recorded on it, and no journey is current afterwards.
   */
  lemma WrongRouteExit(s: CardState, net: Network, fine: int, maxFare: int, time: DateTime, station: string, route: string)
    requires Coherent(s) && ValidNetwork(net) && s.current && End(CurrentTrip(s)).enRoute
    requires EndTrip(End(CurrentTrip(s)), net, time, station, route).Err?
    ensures var b := TapOutOfBus(s, net, fine, time, station, route);
      var charge := Charge(s, fine, time);
      b == TapOutOfSubway(s, net, fine, maxFare, time, station, route)
      && !b.current
      && b.balance == s.balance - charge
      && b.trips == s.trips[..|s.trips| - 1] + [WithEnd(CurrentTrip(s), SetFare(End(CurrentTrip(s)), charge))]
  {
    WithEndSame(CurrentTrip(s));
    SetCurrentSame(s);
    ChargeLegEffect(s, fine, time);
    var r := ChargeLeg(s, fine, time);
    assert r.trips == r.trips[..|s.trips| - 1] + [CurrentTrip(r)];
  }

  /** A bus tap out that ends the leg charges nothing; the leg is ended and its stops counted. */
  lemma BusExitFree(s: CardState, net: Network, fine: int, time: DateTime, station: string, route: string)
    requires Coherent(s) && ValidNetwork(net) && s.current
    requires FinishTrip(End(CurrentTrip(s)), net, time, station, route).failure.None?
    ensures var b := TapOutOfBus(s, net, fine, time, station, route);
      var f := FinishTrip(End(CurrentTrip(s)), net, time, station, route);
      b.balance == s.balance && b.transactions == s.transactions && b.current
      && b.trips == s.trips[..|s.trips| - 1] + [WithEnd(CurrentTrip(s), f.leg)]
      && !End(CurrentTrip(b)).enRoute && End(CurrentTrip(b)).endPoint == station
  {
  }

  /**
   * A subway tap out that ends the leg charges its distance fare, cut to what
   * is left under the cap (or nothing under a pass), and records the charge
   * on the leg.
   */
  lemma SubwayExitCharges(s: CardState, net: Network, fine: int, maxFare: int, time: DateTime, station: string, route: string)
    requires Coherent(s) && ValidNetwork(net) && s.current
    requires FinishTrip(End(CurrentTrip(s)), net, time, station, route).failure.None?
    requires CalculateFare(FinishTrip(End(CurrentTrip(s)), net, time, station, route).leg, net).Ok?
    ensures var b := TapOutOfSubway(s, net, fine, maxFare, time, station, route);
      var f := FinishTrip(End(CurrentTrip(s)), net, time, station, route);
      var sofar := FareSum(CurrentTrip(s).legs);
      var charge := Charge(s, Capped(sofar, CalculateFare(f.leg, net).value, maxFare), time);
      b.balance == s.balance - charge && b.current
      && CurrentTrip(b) == WithEnd(CurrentTrip(s), f.leg.(fare := charge))
      && FareSum(CurrentTrip(b).legs) == sofar - End(CurrentTrip(s)).fare + charge
  {
    var f := FinishTrip(End(CurrentTrip(s)), net, time, station, route);
    var s1 := FinishLast(s, net, time, station, route).0;
    SetEndFare(CurrentTrip(s), f.leg.fare);
    assert f.leg == SetFare(End(CurrentTrip(s)), f.leg.fare).(enRoute := f.leg.enRoute, timeEnd := f.leg.timeEnd, endPoint := f.leg.endPoint, numOfStops := f.leg.numOfStops);
    assert FareSum(CurrentTrip(s1).legs) == FareSum(CurrentTrip(s).legs) by {
      assert CurrentTrip(s1).legs[..|CurrentTrip(s).legs| - 1] == CurrentTrip(s).legs[..|CurrentTrip(s).legs| - 1];
    }
    ChargeLegEffect(s1, Capped(FareSum(CurrentTrip(s1).legs), CalculateFare(f.leg, net).value, maxFare), time);
    assert WithEnd(WithEnd(CurrentTrip(s), f.leg), SetFare(f.leg, Charge(s1, Capped(FareSum(CurrentTrip(s1).legs), CalculateFare(f.leg, net).value, maxFare), time))).legs
      == WithEnd(CurrentTrip(s), f.leg.(fare := Charge(s1, Capped(FareSum(CurrentTrip(s1).legs), CalculateFare(f.leg, net).value, maxFare), time))).legs;
  }

  // ---------------------------------------------------------------------------
  // tapCard

  /** A tap on a card with a negative balance or a suspended card is refused and changes nothing; so is checked first. */
  lemma RefusedTapsChangeNothing(s: CardState, net: Network, fine: int, maxFare: int, time: DateTime, station: string, route: string, tapIn: bool)
    requires Coherent(s) && ValidNetwork(net)
    requires s.balance < 0 || !s.activated
    ensures TapCard(s, net, fine, maxFare, time, station, route, tapIn).Err?
    ensures s.balance < 0 ==> TapCard(s, net, fine, maxFare, time, station, route, tapIn) == Err(LowBalance)
  {
  }

  /** A route that is both a bus and a subway route is tapped as a bus route. */
  lemma BusRouteFirst(s: CardState, net: Network, fine: int, maxFare: int, time: DateTime, station: string, route: string, tapIn: bool)
    requires Coherent(s) && ValidNetwork(net) && s.balance >= 0 && s.activated
    requires route in net.busRoutes
    ensures TapCard(s, net, fine, maxFare, time, station, route, tapIn)
      == Ok(if tapIn then TapIntoBus(s, net, fine, maxFare, time, station, route) else TapOutOfBus(s, net, fine, time, station, route))
  {
  }
}
