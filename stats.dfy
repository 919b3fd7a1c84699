// DataGenerator: the administrator's statistics. Each figure walks the cards
// (in the iteration order of the card registry) and adds up, per card, the
// stops of the journeys that started in a period or the log entries dated in
// it; card revenue counts the card purchases confirmed in the period. Money
// is in cents. The revenue accumulators are Java ints, so each card's total
// is truncated to whole dollars as it is added.

module Stats {
  import opened Clock
  import opened Logs
  import opened Legs
  import opened Trips
  import opened Fares
  import opened Cards
  import opened Accounts

  /** The days a figure covers: one date, or one month of one year as the calendar reckons it. */
  datatype Period = Day(date: Date) | Month(year: int, month: int, cal: Calendar)

  /** The filters of the daily and the monthly figures. */
  predicate InPeriod(period: Period, t: DateTime)
  {
    match period
    case Day(d) => DateOf(t) == d
    case Month(y, m, cal) => cal.monthOf(DateOf(t)) == m && cal.yearOf(DateOf(t)) == y
  }

  function Keep(period: Period): DateTime -> bool
  {
    t => InPeriod(period, t)
  }

  // ---------------------------------------------------------------------------
  // stops reached

  /** Every journey has a first leg. */
  predicate Started(trips: seq<Trip>)
  {
    forall i :: 0 <= i < |trips| ==> |trips[i].legs| >= 1
  }

  /** The stops of one mode on the journeys whose first leg started in the period. */
  function TripStops(trips: seq<Trip>, period: Period, mode: Mode): int
    requires Started(trips)
  {
    if trips == [] then 0
    else
      var t := trips[|trips| - 1];
      TripStops(trips[..|trips| - 1], period, mode) + (if InPeriod(period, Start(t).timeStart) then StopSum(t.legs, mode) else 0)
  }

  /** TripStops summed over the cards. */
  function CardStops(cards: seq<Card>, period: Period, mode: Mode): int
    reads cards
    requires forall c :: c in cards ==> Started(c.trips)
  {
    if cards == [] then 0
    else CardStops(cards[..|cards| - 1], period, mode) + TripStops(cards[|cards| - 1].trips, period, mode)
  }

  /**
   * getDailyBusStopsReached, getDailySubwayStationsReached,
   * getMonthlyBusStopsReached and getMonthlySubwayStationsReached: the loop
   * over the cards, adding each card's filtered stop total.
   */
  method StopsReached(cards: seq<Card>, period: Period, mode: Mode) returns (result: int)
    requires forall c :: c in cards ==> Started(c.trips)
    ensures result == CardStops(cards, period, mode)
  {
    result := 0;
    var i := 0;
    while i < |cards|
      invariant 0 <= i <= |cards|
      invariant result == CardStops(cards[..i], period, mode)
    {
      assert cards[..i + 1][..i] == cards[..i];
      result := result + TripStops(cards[i].trips, period, mode);
      i := i + 1;
    }
    assert cards[..i] == cards;
  }

  /** No stop is counted unless some journey started in the period. */
  lemma {:induction false} NoJourneyNoStops(trips: seq<Trip>, period: Period, mode: Mode)
    requires Started(trips)
    requires forall i :: 0 <= i < |trips| ==> !InPeriod(period, Start(trips[i]).timeStart)
    ensures TripStops(trips, period, mode) == 0
  {
    if trips != [] {
      NoJourneyNoStops(trips[..|trips| - 1], period, mode);
    }
  }

  /** Journeys are counted by their first leg only: the rest may lie outside the period. */
  lemma JourneyCountedWhole(t: Trip, period: Period, mode: Mode)
    requires |t.legs| >= 1 && InPeriod(period, Start(t).timeStart)
    ensures TripStops([t], period, mode) == StopSum(t.legs, mode)
  {
    assert [t][..0] == [];
  }

  /** With no negative stop count recorded, the figure is never negative. */
  lemma {:induction false} StopSumNonNegative(legs: seq<SubTrip>, mode: Mode)
    requires forall i :: 0 <= i < |legs| ==> legs[i].numOfStops >= 0
    ensures StopSum(legs, mode) >= 0
  {
    if legs != [] {
      StopSumNonNegative(legs[..|legs| - 1], mode);
    }
  }

  // ---------------------------------------------------------------------------
  // revenue

  /** The cast of a double amount of dollars to int, in cents: toward zero, to whole dollars. */
  function WholeDollars(cents: int): int
  {
    if cents >= 0 then cents / 100 * 100 else -((-cents) / 100 * 100)
  }

  /** The cast keeps a whole number of dollars and moves the amount less than a dollar toward zero. */
  lemma WholeDollarsBounds(cents: int)
    ensures WholeDollars(cents) % 100 == 0
    ensures 0 <= cents ==> 0 <= WholeDollars(cents) <= cents < WholeDollars(cents) + 100
    ensures cents <= 0 ==> WholeDollars(cents) - 100 < cents <= WholeDollars(cents) <= 0
  {
  }

  /** The fare log, or the pass log, of a card. */
  function LogOf(c: Card, passes: bool): Log
    reads c
  {
    if passes then c.passTransactions else c.transactions
  }

  function LogsOf(cards: seq<Card>, passes: bool): (logs: seq<Log>)
    reads cards
    ensures |logs| == |cards|
  {
    if cards == [] then [] else LogsOf(cards[..|cards| - 1], passes) + [LogOf(cards[|cards| - 1], passes)]
  }

  /** The revenue of the period: every entry of every log dated in it. */
  function Revenue(logs: seq<Log>, period: Period): int
  {
    if logs == [] then 0 else Revenue(logs[..|logs| - 1], period) + SumWhere(logs[|logs| - 1], Keep(period))
  }

  /** The revenue as the int accumulator holds it: whole dollars after each log is added. */
  function TruncatedRevenue(logs: seq<Log>, period: Period): int
  {
    if logs == [] then 0 else WholeDollars(TruncatedRevenue(logs[..|logs| - 1], period) + SumWhere(logs[|logs| - 1], Keep(period)))
  }

  /**
   * getDailyFareRevenue, getDailyPassRevenue, getMonthlyFareRevenue and
   * getMonthlyPassRevenue as written: the loop adding each card's filtered
   * total to an int.
   */
  method RevenueAsWritten(cards: seq<Card>, period: Period, passes: bool) returns (result: int)
    ensures result == TruncatedRevenue(LogsOf(cards, passes), period)
  {
    result := 0;
    var i := 0;
    while i < |cards|
      invariant 0 <= i <= |cards|
      invariant result == TruncatedRevenue(LogsOf(cards[..i], passes), period)
    {
      TruncatedStep(cards, i, passes, period);
      result := WholeDollars(result + SumWhere(LogOf(cards[i], passes), Keep(period)));
      i := i + 1;
    }
    assert cards[..i] == cards;
  }

  /** The same loop with an accumulator that keeps the cents. */
  method PeriodRevenue(cards: seq<Card>, period: Period, passes: bool) returns (result: int)
    ensures result == Revenue(LogsOf(cards, passes), period)
  {
    result := 0;
    var i := 0;
    while i < |cards|
      invariant 0 <= i <= |cards|
      invariant result == Revenue(LogsOf(cards[..i], passes), period)
    {
      LogsOfSnoc(cards, i, passes);
      var add := SumWhere(LogOf(cards[i], passes), Keep(period));
      assert Revenue(LogsOf(cards[..i + 1], passes), period) == result + add;
      result := result + add;
      i := i + 1;
    }
    assert cards[..i] == cards;
  }

  /** The int accumulator after one more log. */
  lemma {:induction false} TruncatedSnoc(logs: seq<Log>, period: Period)
    requires logs != []
    ensures TruncatedRevenue(logs, period) == WholeDollars(TruncatedRevenue(logs[..|logs| - 1], period) + SumWhere(logs[|logs| - 1], Keep(period)))
  {
  }

  /** The int accumulator after one more card, in the terms of the loop. */
  lemma TruncatedStep(cards: seq<Card>, i: nat, passes: bool, period: Period)
    requires i < |cards|
    ensures TruncatedRevenue(LogsOf(cards[..i + 1], passes), period)
      == WholeDollars(TruncatedRevenue(LogsOf(cards[..i], passes), period) + SumWhere(LogOf(cards[i], passes), Keep(period)))
  {
    LogsOfSnoc(cards, i, passes);
    var logs := LogsOf(cards[..i + 1], passes);
    TruncatedSnoc(logs, period);
  }

  /** One more card: its log is added last, to both accumulators. */
  lemma {:induction false} LogsOfSnoc(cards: seq<Card>, i: nat, passes: bool)
    requires i < |cards|
    ensures var logs := LogsOf(cards[..i + 1], passes);
      logs[..i] == LogsOf(cards[..i], passes) && |logs| == i + 1 && logs[i] == LogOf(cards[i], passes)
  {
    assert cards[..i + 1][..i] == cards[..i];
  }

  /** No amount is negative. */
  predicate NonNegative(log: Log)
  {
    forall i :: 0 <= i < |log| ==> log[i].amount >= 0
  }

  lemma {:induction false} SumWhereNonNegative(log: Log, keep: DateTime -> bool)
    requires NonNegative(log)
    ensures SumWhere(log, keep) >= 0
  {
    if log != [] {
      SumWhereNonNegative(log[..|log| - 1], keep);
    }
  }

  /** A period in which no entry is dated counts nothing, in either accumulator. */
  lemma {:induction false} NothingDatedNoRevenue(logs: seq<Log>, period: Period)
    requires forall i, k :: 0 <= i < |logs| && 0 <= k < |logs[i]| ==> !InPeriod(period, logs[i][k].time)
    ensures Revenue(logs, period) == 0 && TruncatedRevenue(logs, period) == 0
  {
    if logs != [] {
      NothingDatedNoRevenue(logs[..|logs| - 1], period);
      NothingDatedSumsZero(logs[|logs| - 1], period);
    }
  }

  lemma {:induction false} NothingDatedSumsZero(log: Log, period: Period)
    requires forall k :: 0 <= k < |log| ==> !InPeriod(period, log[k].time)
    ensures SumWhere(log, Keep(period)) == 0
  {
    if log != [] {
      NothingDatedSumsZero(log[..|log| - 1], period);
    }
  }

  /**
   * With no negative amount the truncating accumulator loses less than a
   * dollar per card: it never shows more than the revenue, and at most 99
   * cents less for each card.
   */
  lemma {:induction false} TruncationLoss(logs: seq<Log>, period: Period)
    requires forall i :: 0 <= i < |logs| ==> NonNegative(logs[i])
    ensures 0 <= TruncatedRevenue(logs, period) <= Revenue(logs, period) <= TruncatedRevenue(logs, period) + 99 * |logs|
  {
    if logs != [] {
      TruncationLoss(logs[..|logs| - 1], period);
      SumWhereNonNegative(logs[|logs| - 1], Keep(period));
      WholeDollarsBounds(TruncatedRevenue(logs[..|logs| - 1], period) + SumWhere(logs[|logs| - 1], Keep(period)));
    }
  }

  /** One card whose only fare today is one subway station (50 cents): the figure shows 0.00. */
  lemma RevenueDropsCents()
    ensures Revenue([[Entry(0, 50)]], Day(0)) == 50
    ensures TruncatedRevenue([[Entry(0, 50)]], Day(0)) == 0
  {
    var logs := [[Entry(0, 50)]];
    assert logs[..0] == [];
    var log := [Entry(0, 50)];
    assert log[..0] == [];
    assert Keep(Day(0))(0);
    assert SumWhere(log, Keep(Day(0))) == 50;
  }

  /** Revenue adds up over any split of the cards: the card order does not matter to the sum. */
  lemma {:induction false} RevenueConcat(a: seq<Log>, b: seq<Log>, period: Period)
    ensures Revenue(a + b, period) == Revenue(a, period) + Revenue(b, period)
    decreases |b|
  {
    if b == [] {
      assert a + b == a;
    } else {
      assert (a + b)[..|a + b| - 1] == a + b[..|b| - 1];
      RevenueConcat(a, b[..|b| - 1], period);
    }
  }

  // ---------------------------------------------------------------------------
  // card revenue

  /** The accepted card purchases confirmed in the period. */
  function CountIn(ps: seq<Payment>, period: Period): (n: nat)
    reads ps
    requires forall p :: p in ps ==> p.time.Some?
    ensures n <= |ps|
    ensures (forall p :: p in ps ==> !InPeriod(period, p.time.value)) ==> n == 0
    ensures (forall p :: p in ps ==> InPeriod(period, p.time.value)) ==> n == |ps|
  {
    if ps == [] then 0
    else CountIn(ps[..|ps| - 1], period) + (if InPeriod(period, ps[|ps| - 1].time.value) then 1 else 0)
  }

  /**
   * getDailyCardRevenue and getMonthlyCardRevenue: the purchases confirmed
   * in the period times the new-card price as it stands now, whatever it was
   * when each card was bought.
   */
  function CardRevenue(accepted: seq<Payment>, period: Period, fares: FareTable): (r: int)
    reads accepted, fares
    requires fares.Valid()
    requires forall p :: p in accepted ==> p.time.Some?
    ensures fares.GetFare(NewCard) >= 0 ==> 0 <= r <= |accepted| * fares.GetFare(NewCard)
    ensures (forall p :: p in accepted ==> !InPeriod(period, p.time.value)) ==> r == 0
  {
    var n, price := CountIn(accepted, period), fares.GetFare(NewCard);
    MulBound(n, |accepted|, price);
    n * price
  }

  /** A count no larger than m, times a price, is at most m times that price. */
  lemma MulBound(n: nat, m: nat, price: int)
    requires n <= m
    ensures price >= 0 ==> 0 <= n * price <= m * price
    ensures n == 0 ==> n * price == 0
  {
    if price >= 0 && n < m {
      MulBound(n, m - 1, price);
    }
  }
}
