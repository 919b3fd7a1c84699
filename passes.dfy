// Transit passes (TransitPass): a weekly or monthly pass loaded onto a card.
// A pass never changes once made, so it is a value.

module Passes {
  import opened Text
  import opened Clock
  import opened Fares

  datatype TransitPass = TransitPass(startDay: Date, endDay: Date, kind: string, price: int)

  /**
   * TransitPass.makeTransitPass: the pass ends `duration` days after it
   * starts; a duration of 7 makes a weekly pass, any other a monthly one,
   * priced at the rate the table holds now.
   */
  function MakeTransitPass(start: Date, duration: int, fares: FareTable): (p: TransitPass)
    reads fares
    requires fares.Valid()
    ensures p.startDay == start && p.endDay == start + duration
    ensures duration == 7 ==> p.kind == "weekly transit pass" && p.price == fares.GetFare(WeeklyPass)
    ensures duration != 7 ==> p.kind == "monthly transit pass" && p.price == fares.GetFare(MonthlyPass)
  {
    if duration == 7 then TransitPass(start, start + duration, "weekly transit pass", fares.GetFare(WeeklyPass))
    else TransitPass(start, start + duration, "monthly transit pass", fares.GetFare(MonthlyPass))
  }

  /** TransitPass.isValid: strictly inside the period, or on its first day. */
  predicate IsValid(p: TransitPass, d: Date)
  {
    (p.startDay < d < p.endDay) || d == p.startDay
  }

  /**
   * For a pass of at least one day, isValid holds exactly on the days from
   * the start day up to the day before the end day; a pass of no days or a
   * negative number of days is still valid on its start day only.
   */
  lemma ValidDays(p: TransitPass, d: Date)
    ensures p.startDay < p.endDay ==> (IsValid(p, d) <==> p.startDay <= d < p.endDay)
    ensures p.endDay <= p.startDay ==> (IsValid(p, d) <==> d == p.startDay)
  {
  }

  /**
   * TransitPass.toString. The day count is Period.getDays of the period
   * from start to end, and the date shown last is the day before the end.
   */
  function Describe(p: TransitPass, cal: Calendar): string
  {
    "A " + IntToString(cal.periodDays(p.startDay, p.endDay)) + " days pass valid from "
      + cal.dateText(p.startDay) + " to " + cal.dateText(p.endDay - 1) + " is on this card"
  }

  /** The last date toString shows is the last day on which the pass is valid. */
  lemma DescribedLastDay(start: Date, duration: int, fares: FareTable)
    requires fares.Valid()
    requires duration >= 1
    ensures var p := MakeTransitPass(start, duration, fares);
      IsValid(p, p.endDay - 1) && !IsValid(p, p.endDay)
      && forall d :: d > p.endDay - 1 ==> !IsValid(p, d)
  {
  }
}
