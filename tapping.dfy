// What tapping a card does to it (Card.tapCard and its helpers), stated as
// functions from the card's state before to its state after. The Card class
// in card.dfy carries out the same steps on its fields and is proved to end
// in the state these functions give.

module Tapping {
  import opened Wrappers
  import opened Clock
  import opened Passes
  import opened Legs
  import opened Trips
  import opened Logs

  /**
   * The fields of a card that change: the balance in cents, whether it is
   * activated, whether a journey is under way (`currentTrip` is then the last
   * of the trips), the charge logs, the journeys and the passes.
   */
  datatype CardState = CardState(
    balance: int,
    activated: bool,
    current: bool,
    transactions: Log,
    passTransactions: Log,
    trips: seq<Trip>,
    passes: seq<TransitPass>)

  /** The exceptions tapCard and addTransitPass throw. */
  datatype CardError = LowBalance | CardSuspended

  /** What every card keeps true: the current journey exists, every journey is a proper chain, the logs are ordered. */
  predicate Coherent(s: CardState)
  {
    (s.current ==> |s.trips| >= 1)
    && (forall i :: 0 <= i < |s.trips| ==> ValidTrip(s.trips[i]))
    && Sorted(s.transactions) && Sorted(s.passTransactions)
  }

  /** A new card: 19 dollars, activated, no journey, no charge, no pass. */
  const FreshCard: CardState := CardState(1900, true, false, [], [], [], [])

  // ---------------------------------------------------------------------------
  // passes and payment

  /** hasValidPass's removals: the passes from the first one valid on the day on. */
  function DropInvalid(passes: seq<TransitPass>, d: Date): (rest: seq<TransitPass>)
    ensures |rest| <= |passes| && rest == passes[|passes| - |rest|..]
    ensures rest != [] ==> IsValid(rest[0], d)
    ensures forall k :: 0 <= k < |passes| - |rest| ==> !IsValid(passes[k], d)
  {
    if passes == [] then []
    else if IsValid(passes[0], d) then passes
    else DropInvalid(passes[1..], d)
  }

  /** Some pass is valid on the day. */
  predicate HasValid(passes: seq<TransitPass>, d: Date)
  {
    exists k :: 0 <= k < |passes| && IsValid(passes[k], d)
  }

  /** hasValidPass answers whether any pass is valid, and keeps every pass after the first valid one. */
  lemma DropInvalidMeaning(passes: seq<TransitPass>, d: Date)
    ensures DropInvalid(passes, d) != [] <==> HasValid(passes, d)
  {
    var rest := DropInvalid(passes, d);
    if rest != [] {
      assert passes[|passes| - |rest|] == rest[0];
    }
  }

  /**
   * What hasValidPass leaves is fixed by three facts: it is a suffix of the
   * passes, every pass removed was invalid on the day, and it is empty or
   * starts with a valid pass.
   */
  lemma {:induction false} DropInvalidUnique(passes: seq<TransitPass>, d: Date, n: nat)
    requires n <= |passes|
    requires forall k :: 0 <= k < n ==> !IsValid(passes[k], d)
    requires n == |passes| || IsValid(passes[n], d)
    ensures DropInvalid(passes, d) == passes[n..]
  {
    if n > 0 {
      assert passes[1..][n - 1..] == passes[n..];
      DropInvalidUnique(passes[1..], d, n - 1);
    }
  }

  /**
   * payFare: nothing when a pass is valid on the day, else the fare; the
   * charge is debited and logged at the instant, and the passes that have
   * expired by then are dropped from the front of the list.
   */
  function PayFare(s: CardState, fare: int, time: DateTime): (r: (CardState, int))
    ensures r.0.trips == s.trips && r.0.current == s.current && r.0.passTransactions == s.passTransactions
    ensures r.0.activated == s.activated
    ensures Coherent(s) ==> Coherent(r.0)
  {
    var passes := DropInvalid(s.passes, DateOf(time));
    var realFare := if passes != [] then 0 else fare;
    PutSorted(s.transactions, time, realFare);
    (s.(balance := s.balance - realFare, transactions := Put(s.transactions, time, realFare), passes := passes), realFare)
  }

  /**
   * payFare debits exactly what it logs: the fare, or nothing under a valid
   * pass; the entry at that instant now holds this charge and every other
   * entry is kept.
   */
  lemma PayFareCharges(s: CardState, fare: int, time: DateTime)
    ensures var (t, realFare) := PayFare(s, fare, time);
      realFare == (if HasValid(s.passes, DateOf(time)) then 0 else fare)
      && t.balance == s.balance - realFare
      && Get(t.transactions, time) == Some(realFare)
      && (forall u :: u != time ==> Get(t.transactions, u) == Get(s.transactions, u))
      && t.trips == s.trips && t.current == s.current && t.passTransactions == s.passTransactions
  {
    DropInvalidMeaning(s.passes, DateOf(time));
    forall u ensures Get(Put(s.transactions, time, PayFare(s, fare, time).1), u) ==
      if u == time then Some(PayFare(s, fare, time).1) else Get(s.transactions, u)
    {
      PutGet(s.transactions, time, PayFare(s, fare, time).1, u);
    }
  }

  /**
   * payFare prunes the passes on the way, through hasValidPass: what is left
   * is the list from the first pass valid that day on, so it is empty
   * exactly when no pass was valid, and a pass is left only when nothing was
   * charged. Activation is not touched.
   */
  lemma PayFarePrunes(s: CardState, fare: int, time: DateTime)
    ensures var (t, realFare) := PayFare(s, fare, time);
      t.passes == DropInvalid(s.passes, DateOf(time))
      && (t.passes != [] <==> HasValid(s.passes, DateOf(time)))
      && (t.passes != [] ==> realFare == 0)
      && t.activated == s.activated
  {
    DropInvalidMeaning(s.passes, DateOf(time));
  }

  /**
   * A fine and a fare charged at the same instant are both debited, but the
   * log keeps only the second.
   */
  lemma TwoChargesOneEntry(s: CardState, fine: int, fare: int, time: DateTime)
    requires !HasValid(s.passes, DateOf(time))
    ensures var (s1, _) := PayFare(s, fine, time);
      var (s2, _) := PayFare(s1, fare, time);
      s2.balance == s.balance - fine - fare && Get(s2.transactions, time) == Some(fare)
  {
    var (s1, _) := PayFare(s, fine, time);
    DropInvalidMeaning(s.passes, DateOf(time));
    PayFareCharges(s, fine, time);
    assert !HasValid(s1.passes, DateOf(time)) by {
      DropInvalidMeaning(s1.passes, DateOf(time));
    }
    PayFareCharges(s1, fare, time);
  }

  /** addTransitPass: refused when the price is above the balance; otherwise debited, logged and the pass added. */
  function AddTransitPass(s: CardState, time: DateTime, pass: TransitPass): (r: Result<CardState, CardError>)
  {
    if pass.price > s.balance then Err(LowBalance)
    else Ok(s.(balance := s.balance - pass.price,
               passTransactions := Put(s.passTransactions, time, pass.price),
               passes := s.passes + [pass]))
  }

  // ---------------------------------------------------------------------------
  // the current journey

  function CurrentTrip(s: CardState): Trip
    requires |s.trips| >= 1
  {
    s.trips[|s.trips| - 1]
  }

  /** Replaces the current journey. */
  function SetCurrent(s: CardState, t: Trip): (r: CardState)
    requires |s.trips| >= 1
    ensures |r.trips| == |s.trips| && CurrentTrip(r) == t
    ensures Coherent(s) && ValidTrip(t) ==> Coherent(r)
  {
    s.(trips := s.trips[..|s.trips| - 1] + [t])
  }

  /** finishTrip(SubTrip): a new journey from the leg becomes current and is recorded. */
  function BeginTrip(s: CardState, leg: SubTrip): (r: CardState)
    requires !leg.connected
    ensures r.current && |r.trips| == |s.trips| + 1 && CurrentTrip(r) == NewTrip(leg)
    ensures Coherent(s) ==> Coherent(r)
  {
    s.(current := true, trips := s.trips + [NewTrip(leg)])
  }

  /** finishTrip(): no journey is current any more. */
  function EndJourney(s: CardState): CardState
  {
    s.(current := false)
  }

  /** Records a charge as the fare of the current journey's last leg. */
  function RecordFare(s: CardState, fare: int): (r: CardState)
    requires Coherent(s) && |s.trips| >= 1
    ensures Coherent(r) && r.current == s.current && |r.trips| == |s.trips|
    ensures End(CurrentTrip(r)).fare == fare
  {
    SetCurrent(s, WithEnd(CurrentTrip(s), SetFare(End(CurrentTrip(s)), fare)))
  }

  /** payFare followed by setFare on the current journey's last leg: the amount charged is recorded there. */
  function ChargeLeg(s: CardState, amount: int, time: DateTime): (r: CardState)
    requires Coherent(s) && |s.trips| >= 1
    ensures Coherent(r) && r.current == s.current && |r.trips| == |s.trips|
  {
    var (s1, realFare) := PayFare(s, amount, time);
    RecordFare(s1, realFare)
  }

  /** The charge for a leg continuing a journey whose fares so far total `sofar`: cut to what is left under the cap. */
  function Capped(sofar: int, fare: int, maxFare: int): int
  {
    if sofar + fare > maxFare then maxFare - sofar else fare
  }

  /**
   * The journey a tap in joins: the current one when the new leg may
   * continue it, otherwise a new one; when the last leg is still en route
   * it is fined first. Also says whether the leg continues a journey.
   */
  function JoinLeg(s: CardState, leg: SubTrip, fine: int): (r: (CardState, bool))
    requires Coherent(s) && !leg.connected
    ensures Coherent(r.0) && r.0.current && |r.0.trips| >= 1 && End(CurrentTrip(r.0)) == leg
  {
    if !s.current then (BeginTrip(s, leg), false)
    else match AppendTrip(CurrentTrip(s), leg)
      case Ok(t) => (SetCurrent(s, t), true)
      case Err(EnRoute) => (BeginTrip(ChargeLeg(s, fine, leg.timeStart), leg), false)
      case Err(CanNotContinue) => (BeginTrip(s, leg), false)
  }

  // ---------------------------------------------------------------------------
  // the four taps

  /**
   * tapIntoBus: the leg joins a journey and the bus fare is charged at once;
   * on a continued journey the charge is cut so the journey's fares total
   * at most the cap, and the charge is recorded on the leg.
   */
  function TapIntoBus(s: CardState, net: Network, fine: int, maxFare: int, time: DateTime, station: string, route: string): (r: CardState)
    requires Coherent(s)
    ensures Coherent(r) && r.current
  {
    var leg := NewLeg(Bus, time, station, route);
    var nextFare := net.farePerTrip;
    var (s1, continued) := JoinLeg(s, leg, fine);
    var fare := if continued then Capped(FareSum(CurrentTrip(s1).legs), nextFare, maxFare) else nextFare;
    ChargeLeg(s1, fare, time)
  }

  /** tapIntoSubway: the leg joins a journey; nothing is charged until the exit. */
  function TapIntoSubway(s: CardState, fine: int, time: DateTime, station: string, route: string): (r: CardState)
    requires Coherent(s)
    ensures Coherent(r) && r.current
  {
    JoinLeg(s, NewLeg(Subway, time, station, route), fine).0
  }

  /**
   * The common start of both tap outs: with no journey the fine is charged;
   * otherwise the last leg is finished (or left, or half finished, as
   * finishTrip leaves it) and the result is handed on.
   */
  function FinishLast(s: CardState, net: Network, time: DateTime, station: string, route: string): (r: (CardState, Finish))
    requires Coherent(s) && s.current && ValidNetwork(net)
    ensures Coherent(r.0) && r.0.current && |r.0.trips| == |s.trips| && End(CurrentTrip(r.0)) == r.1.leg
  {
    var f := FinishTrip(End(CurrentTrip(s)), net, time, station, route);
    (SetCurrent(s, WithEnd(CurrentTrip(s), f.leg)), f)
  }

  /** The outcome of a failed finishTrip: a wrong route is fined on the leg and ends the journey; otherwise only the fine. */
  function FinishFailed(s: CardState, f: Finish, fine: int, time: DateTime): (r: CardState)
    requires Coherent(s) && |s.trips| >= 1 && f.failure.Some?
    ensures Coherent(r) && |r.trips| == |s.trips|
    ensures r.current <==> s.current && f.failure != Some(ExitNotSameRoute)
  {
    if f.failure == Some(ExitNotSameRoute) then EndJourney(ChargeLeg(s, fine, time))
    else PayFare(s, fine, time).0
  }

  /** tapOutOfBus: a finished leg costs nothing more. */
  function TapOutOfBus(s: CardState, net: Network, fine: int, time: DateTime, station: string, route: string): (r: CardState)
    requires Coherent(s) && ValidNetwork(net)
    ensures Coherent(r) && |r.trips| == |s.trips|
  {
    if !s.current then PayFare(s, fine, time).0
    else
      var (s1, f) := FinishLast(s, net, time, station, route);
      if f.failure.None? then s1 else FinishFailed(s1, f, fine, time)
  }

  /**
   * tapOutOfSubway: a finished leg is charged its distance fare, cut so the
   * journey's fares total at most the cap, and the charge is recorded on the
   * leg. (Only a NullPointerException can come from calculateFare here, and
   * it is caught like the others.)
   */
  function TapOutOfSubway(s: CardState, net: Network, fine: int, maxFare: int, time: DateTime, station: string, route: string): (r: CardState)
    requires Coherent(s) && ValidNetwork(net)
    ensures Coherent(r) && |r.trips| == |s.trips|
  {
    if !s.current then PayFare(s, fine, time).0
    else
      var (s1, f) := FinishLast(s, net, time, station, route);
      if f.failure.Some? then FinishFailed(s1, f, fine, time)
      else match CalculateFare(f.leg, net)
        case Err(_) => PayFare(s1, fine, time).0
        case Ok(nextFare) =>
          var fare := Capped(FareSum(CurrentTrip(s1).legs), nextFare, maxFare);
          ChargeLeg(s1, fare, time)
  }

  /**
   * tapCard: a negative balance is refused first, then a suspended card;
   * a bus route (even one that is also a subway route) taps the bus, a
   * subway route the subway, and any other route does nothing.
   */
  function TapCard(s: CardState, net: Network, fine: int, maxFare: int, time: DateTime, station: string, route: string, tapIn: bool): (r: Result<CardState, CardError>)
    requires Coherent(s) && ValidNetwork(net)
    ensures r == Err(LowBalance) <==> s.balance < 0
    ensures r == Err(CardSuspended) <==> s.balance >= 0 && !s.activated
    ensures r.Ok? ==> Coherent(r.value)
    ensures r.Ok? && route !in net.busRoutes && route !in net.subwayRoutes ==> r.value == s
  {
    if s.balance < 0 then Err(LowBalance)
    else if !s.activated then Err(CardSuspended)
    else if route in net.busRoutes then
      Ok(if tapIn then TapIntoBus(s, net, fine, maxFare, time, station, route)
         else TapOutOfBus(s, net, fine, time, station, route))
    else if route in net.subwayRoutes then
      Ok(if tapIn then TapIntoSubway(s, fine, time, station, route)
         else TapOutOfSubway(s, net, fine, maxFare, time, station, route))
    else Ok(s)
  }
}
