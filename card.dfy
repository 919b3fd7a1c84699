// The transit card (Card): its balance, activation, charge logs, journeys
// and passes, updated in place by every tap. Each method performs the same
// steps as the Java method it is named after, and its postcondition says it
// ends in the state the functions of module Tapping give.

module Cards {
  import opened Wrappers
  import opened Clock
  import opened Fares
  import opened Passes
  import opened Legs
  import opened Trips
  import opened Logs
  import opened Tapping

  /** getLastThreeTrips: the latest journeys first, at most three, the rest of the three places empty. */
  function LastThree(trips: seq<Trip>): (r: seq<Option<Trip>>)
    ensures |r| == 3
    ensures forall i :: 0 <= i < 3 ==> (r[i].Some? <==> i < |trips|)
    ensures forall i :: 0 <= i < 3 && i < |trips| ==> r[i] == Some(trips[|trips| - 1 - i])
  {
    seq(3, i requires 0 <= i < 3 => if i < |trips| then Some(trips[|trips| - 1 - i]) else None)
  }

  class Card {
    const holderEmail: string
    const number: string
    /** The fine, read from the rate table when the card was made. */
    const fine: int

    var balance: int
    var activated: bool
    /** Whether currentTrip is set; it is then the last of the trips. */
    var current: bool
    var transactions: Log
    var passTransactions: Log
    var trips: seq<Trip>
    var passes: seq<TransitPass>

    function State(): CardState
      reads this
    {
      CardState(balance, activated, current, transactions, passTransactions, trips, passes)
    }

    ghost predicate Valid()
      reads this
    {
      Coherent(State())
    }

    /** The Card constructor: 19 dollars, activated, nothing recorded; the fine is fixed now. */
    constructor (holderEmail: string, number: string, fares: FareTable)
      requires fares.Valid()
      ensures this.holderEmail == holderEmail && this.number == number
      ensures fine == fares.GetFare(Fine)
      ensures State() == FreshCard && Valid()
    {
      this.holderEmail := holderEmail;
      this.number := number;
      fine := fares.GetFare(Fine);
      balance := 1900;
      activated := true;
      current := false;
      transactions := [];
      passTransactions := [];
      trips := [];
      passes := [];
    }

    /** addBalance: any amount, negative ones included. */
    method AddBalance(value: int)
      modifies this
      ensures State() == old(State()).(balance := old(balance) + value)
    {
      balance := balance + value;
    }

    /** setActivated. */
    method SetActivated(b: bool)
      modifies this
      ensures State() == old(State()).(activated := b)
    {
      activated := b;
    }

    /** getLastThreeTrips, filling a three-place array from the latest journey back. */
    method GetLastThreeTrips() returns (result: seq<Option<Trip>>)
      ensures result == LastThree(trips)
    {
      result := [None, None, None];
      var num := |trips|;
      if num > 3 {
        num := 3;
      }
      var i := 0;
      while i < num
        invariant 0 <= i <= num && |result| == 3
        invariant forall k :: 0 <= k < 3 ==> result[k] == if k < i then LastThree(trips)[k] else None
      {
        result := result[i := Some(trips[|trips| - i - 1])];
        i := i + 1;
      }
    }

    /** addTransitPass. */
    method AddTransitPass(time: DateTime, pass: TransitPass) returns (err: Option<CardError>)
      modifies this
      ensures match Tapping.AddTransitPass(old(State()), time, pass)
        case Err(e) => err == Some(e) && State() == old(State())
        case Ok(s) => err.None? && State() == s
    {
      if pass.price > balance {
        return Some(LowBalance);
      }
      var price := pass.price;
      balance := balance - price;
      passTransactions := Put(passTransactions, time, price);
      passes := passes + [pass];
      return None;
    }

    /**
     * hasValidPass: looks at the first pass again and again, removing it
     * while it is not valid on the day of the instant.
     */
    method HasValidPass(time: DateTime) returns (valid: bool)
      modifies this`passes
      ensures passes == DropInvalid(old(passes), DateOf(time))
      ensures valid <==> HasValid(old(passes), DateOf(time))
    {
      var date := DateOf(time);
      ghost var removed := 0;
      var i: int := 0;
      while i < |passes|
        invariant i == 0 && removed <= |old(passes)|
        invariant passes == old(passes)[removed..]
        invariant forall k :: 0 <= k < removed ==> !IsValid(old(passes)[k], date)
        decreases |passes| - i
      {
        if IsValid(passes[i], date) {
          DropInvalidUnique(old(passes), date, removed);
          return true;
        } else {
          passes := passes[..i] + passes[i + 1..];
          removed := removed + 1;
          i := i - 1;
        }
        i := i + 1;
      }
      DropInvalidUnique(old(passes), date, removed);
      DropInvalidMeaning(old(passes), date);
      return false;
    }

    /** payFare. */
    method PayFare(fare: int, time: DateTime) returns (realFare: int)
      modifies this
      ensures (State(), realFare) == Tapping.PayFare(old(State()), fare, time)
    {
      realFare := fare;
      var valid := HasValidPass(time);
      DropInvalidMeaning(old(passes), DateOf(time));
      if valid {
        realFare := 0;
      }
      balance := balance - realFare;
      transactions := Put(transactions, time, realFare);
    }

    /** finishTrip(SubTrip): a journey from the leg becomes current and is recorded. */
    method StartTrip(leg: SubTrip)
      requires !leg.connected
      modifies this
      ensures State() == BeginTrip(old(State()), leg)
    {
      current := true;
      trips := trips + [NewTrip(leg)];
    }

    /** finishTrip(): no journey is current any more. */
    method ClearTrip()
      modifies this
      ensures State() == EndJourney(old(State()))
    {
      current := false;
    }

    /** Writes back the changed current journey (the Java objects are changed where they are). */
    method PutCurrent(t: Trip)
      requires |trips| >= 1
      modifies this
      ensures State() == SetCurrent(old(State()), t)
    {
      trips := trips[..|trips| - 1] + [t];
    }

    /** Records a charge as the fare of the current journey's last leg. */
    method SetLastFare(fare: int)
      requires Valid() && |trips| >= 1
      modifies this
      ensures State() == RecordFare(old(State()), fare)
    {
      var c := trips[|trips| - 1];
      PutCurrent(WithEnd(c, SetFare(End(c), fare)));
    }

    /** payFare, then setFare on the current journey's last leg with what was charged. */
    method ChargeLast(amount: int, time: DateTime)
      requires Valid() && |trips| >= 1
      modifies this
      ensures State() == ChargeLeg(old(State()), amount, time)
    {
      var realFare := PayFare(amount, time);
      SetLastFare(realFare);
    }

    /** The charge for a leg continuing the current journey: cut so its fares total at most the cap. */
    method CapFare(fare: int, maxFare: int) returns (capped: int)
      requires |trips| >= 1
      ensures capped == Capped(FareSum(CurrentTrip(State()).legs), fare, maxFare)
    {
      capped := fare;
      var currFare := CurrentTotalFare(trips[|trips| - 1]);
      if currFare + fare > maxFare {
        capped := maxFare - currFare;
      }
    }

    /** The fine-and-restart or append steps a tap in shares. */
    method Join(leg: SubTrip) returns (continued: bool)
      requires Valid() && !leg.connected
      modifies this
      ensures (State(), continued) == JoinLeg(old(State()), leg, fine)
    {
      if !current {
        StartTrip(leg);
        return false;
      }
      var appended := AppendTrip(trips[|trips| - 1], leg);
      match appended
      case Ok(t) =>
        PutCurrent(t);
        return true;
      case Err(EnRoute) =>
        ChargeLast(fine, leg.timeStart);
        StartTrip(leg);
        return false;
      case Err(CanNotContinue) =>
        StartTrip(leg);
        return false;
    }

    /** tapIntoBus. */
    method TapIntoBus(time: DateTime, station: string, route: string, net: Network, fares: FareTable)
      requires Valid() && ValidNetwork(net) && fares.Valid()
      modifies this
      ensures State() == Tapping.TapIntoBus(old(State()), net, fine, fares.GetFare(MaxFare), time, station, route)
    {
      var nextSubTrip := NewLeg(Bus, time, station, route);
      var nextFare := CalculateFare(nextSubTrip, net).value;
      var continued := Join(nextSubTrip);
      if continued {
        nextFare := CapFare(nextFare, fares.GetFare(MaxFare));
      }
      ChargeLast(nextFare, time);
    }

    /** tapIntoSubway. */
    method TapIntoSubway(time: DateTime, station: string, route: string)
      requires Valid()
      modifies this
      ensures State() == Tapping.TapIntoSubway(old(State()), fine, time, station, route)
    {
      var nextSubTrip := NewLeg(Subway, time, station, route);
      var _ := Join(nextSubTrip);
    }

    /** The last leg's finishTrip, written back into the current journey. */
    method FinishCurrent(time: DateTime, station: string, route: string, net: Network) returns (f: Finish)
      requires Valid() && current && ValidNetwork(net)
      modifies this
      ensures (State(), f) == FinishLast(old(State()), net, time, station, route)
    {
      var cur := trips[|trips| - 1];
      f := FinishTrip(End(cur), net, time, station, route);
      PutCurrent(WithEnd(cur, f.leg));
    }

    /** The catch blocks of both tap outs. */
    method Failed(f: Finish, time: DateTime)
      requires Valid() && |trips| >= 1 && f.failure.Some?
      modifies this
      ensures State() == FinishFailed(old(State()), f, fine, time)
    {
      if f.failure == Some(ExitNotSameRoute) {
        ChargeLast(fine, time);
        ClearTrip();
      } else {
        var _ := PayFare(fine, time);
      }
    }

    /** tapOutOfBus. */
    method TapOutOfBus(time: DateTime, station: string, route: string, net: Network)
      requires Valid() && ValidNetwork(net)
      modifies this
      ensures State() == Tapping.TapOutOfBus(old(State()), net, fine, time, station, route)
    {
      if !current {
        var _ := PayFare(fine, time);
      } else {
        var f := FinishCurrent(time, station, route, net);
        if f.failure.Some? {
          Failed(f, time);
        }
      }
    }

    /** tapOutOfSubway. */
    method TapOutOfSubway(time: DateTime, station: string, route: string, net: Network, fares: FareTable)
      requires Valid() && ValidNetwork(net) && fares.Valid()
      modifies this
      ensures State() == Tapping.TapOutOfSubway(old(State()), net, fine, fares.GetFare(MaxFare), time, station, route)
    {
      if !current {
        var _ := PayFare(fine, time);
        return;
      }
      var f := FinishCurrent(time, station, route, net);
      if f.failure.Some? {
        Failed(f, time);
        return;
      }
      var fare := CalculateFare(f.leg, net);
      if fare.Err? {
        var _ := PayFare(fine, time);
        return;
      }
      var nextFare := CapFare(fare.value, fares.GetFare(MaxFare));
      ChargeLast(nextFare, time);
    }

    /** tapCard. */
    method TapCard(time: DateTime, station: string, route: string, tapIn: bool, net: Network, fares: FareTable)
      returns (err: Option<CardError>)
      requires Valid() && ValidNetwork(net) && fares.Valid()
      modifies this
      ensures match Tapping.TapCard(old(State()), net, fine, fares.GetFare(MaxFare), time, station, route, tapIn)
        case Err(e) => err == Some(e) && State() == old(State())
        case Ok(s) => err.None? && State() == s
      ensures Valid()
    {
      if balance < 0 {
        return Some(LowBalance);
      } else if !activated {
        return Some(CardSuspended);
      }
      if route in net.busRoutes {
        if tapIn {
          TapIntoBus(time, station, route, net, fares);
        } else {
          TapOutOfBus(time, station, route, net);
        }
      } else if route in net.subwayRoutes {
        if tapIn {
          TapIntoSubway(time, station, route);
        } else {
          TapOutOfSubway(time, station, route, net, fares);
        }
      }
      return None;
    }
  }
}
