// The rate table of the transit system (the Fares enum). Every rate is an
// amount of money held in cents. The enum's constants share one mutable
// `fare` field each; here the eight fields are one map owned by a FareTable
// object that the rest of the system reads and the administrator updates.

module Fares {
  import opened Text
  import opened Lists

  datatype Rate = Fine | MaxFare | BusFare | SubwayFare | WeeklyPass | MonthlyPass | NewCard | CardInitValue

  /** The constants in declaration order. */
  const Rates: seq<Rate> := [Fine, MaxFare, BusFare, SubwayFare, WeeklyPass, MonthlyPass, NewCard, CardInitValue]

  lemma RatesListsEveryRate(r: Rate)
    ensures r in Rates
  {
  }

  /** The value each rate starts with, in cents. */
  function Default(r: Rate): (cents: int)
    ensures cents > 0
  {
    match r
    case Fine => 600
    case MaxFare => 600
    case BusFare => 200
    case SubwayFare => 50
    case WeeklyPass => 4000
    case MonthlyPass => 10000
    case NewCard => 999
    case CardInitValue => 1900
  }

  /** Enum.name(). */
  function Name(r: Rate): string
  {
    match r
    case Fine => "FINE"
    case MaxFare => "MAX_FARE"
    case BusFare => "busFare"
    case SubwayFare => "subwayFare"
    case WeeklyPass => "weeklyPass"
    case MonthlyPass => "monthlyPass"
    case NewCard => "newCard"
    case CardInitValue => "cardInitValue"
  }

  /** The caption getFareInfo prints before each rate. */
  function Caption(r: Rate): string
  {
    match r
    case Fine => "Fine for abnormal activity: $"
    case MaxFare => "Max fare in a 2-hr continuous trip: $"
    case BusFare => "Fare for a single bus trip: $"
    case SubwayFare => "Fare for a station on subway: $"
    case WeeklyPass => "Fare for a weekly pass: $"
    case MonthlyPass => "Fare for a monthly pass: $"
    case NewCard => "Cost for a new card: $"
    case CardInitValue => "Initial balance to load: $"
  }

  class FareTable {
    /** The current value of every rate, in cents. */
    var fare: map<Rate, int>

    ghost predicate Valid()
      reads this
    {
      forall r: Rate :: r in fare
    }

    /** Every rate starts at its default. */
    constructor ()
      ensures Valid()
      ensures forall r: Rate :: fare[r] == Default(r)
    {
      fare := map r: Rate | r in Rates :: Default(r);
      new;
      forall r: Rate ensures r in fare {
        RatesListsEveryRate(r);
      }
    }

    /** Fares.getFare. */
    function GetFare(r: Rate): int
      reads this
      requires Valid()
    {
      fare[r]
    }

    /** Fares.setFare: stores any value, negative ones included; the other rates keep theirs. */
    method SetFare(r: Rate, cents: int)
      requires Valid()
      modifies this
      ensures Valid()
      ensures GetFare(r) == cents
      ensures forall q: Rate :: q != r ==> GetFare(q) == old(GetFare(q))
    {
      fare := fare[r := cents];
    }

    /** One line of getFareInfo, without its line separator. */
    function InfoLine(r: Rate): string
      reads this
      requires Valid()
    {
      Caption(r) + DoubleText(fare[r])
    }

    /** The given rates' lines, each followed by the line separator. */
    function InfoText(rs: seq<Rate>): string
      reads this
      requires Valid()
    {
      if rs == [] then "" else InfoLine(rs[0]) + NL + InfoText(rs[1..])
    }

    /** Fares.getFareInfo: every rate on a line of its own, in declaration order. */
    function FareInfo(): string
      reads this
      requires Valid()
    {
      InfoText(Rates)
    }

    /** The given rates' lines. */
    function InfoLines(rs: seq<Rate>): (lines: seq<string>)
      reads this
      requires Valid()
      ensures |lines| == |rs|
    {
      if rs == [] then [] else [InfoLine(rs[0])] + InfoLines(rs[1..])
    }
  }

  /** No caption holds a line break (checked a few captions at a time). */
  lemma NoNewlineInCaption(r: Rate)
    ensures '\n' !in Caption(r)
  {
    if r == Fine {
      NoNewlineInFineCaption(r);
    } else if r == MaxFare {
      NoNewlineInMaxFareCaption(r);
    } else if r == BusFare || r == SubwayFare {
      NoNewlineInTripCaption(r);
    } else if r == WeeklyPass || r == MonthlyPass {
      NoNewlineInPassCaption(r);
    } else {
      NoNewlineInCardCaption(r);
    }
  }

  lemma NoNewlineInFineCaption(r: Rate)
    requires r == Fine
    ensures '\n' !in Caption(r)
  {
  }

  lemma NoNewlineInMaxFareCaption(r: Rate)
    requires r == MaxFare
    ensures '\n' !in Caption(r)
  {
  }

  lemma NoNewlineInTripCaption(r: Rate)
    requires r == BusFare || r == SubwayFare
    ensures '\n' !in Caption(r)
  {
  }

  lemma NoNewlineInPassCaption(r: Rate)
    requires r == WeeklyPass || r == MonthlyPass
    ensures '\n' !in Caption(r)
  {
  }

  lemma NoNewlineInCardCaption(r: Rate)
    requires r == NewCard || r == CardInitValue
    ensures '\n' !in Caption(r)
  {
  }

  lemma {:induction false} InfoTextPieces(t: FareTable, rs: seq<Rate>)
    requires t.Valid()
    ensures SplitAll(t.InfoText(rs), '\n') == t.InfoLines(rs) + [""]
  {
    if rs != [] {
      var line, text, rest := t.InfoLine(rs[0]), t.InfoText(rs[1..]), t.InfoLines(rs[1..]);
      assert t.InfoText(rs) == line + ['\n'] + text;
      assert t.InfoLines(rs) == [line] + rest;
      LineNoNewline(t, rs[0]);
      SplitAllCons(line, text, '\n');
      InfoTextPieces(t, rs[1..]);
      assert SplitAll(text, '\n') == rest + [""];
      AppendAssoc([line], rest, [""]);
    } else {
      assert t.InfoText(rs) == "" && t.InfoLines(rs) == [];
      SplitAllEmpty('\n');
    }
  }

  lemma LineNoNewline(t: FareTable, r: Rate)
    requires t.Valid()
    ensures '\n' !in t.InfoLine(r)
  {
    NoNewlineInCaption(r);
    DoubleTextNoNewline(t.fare[r]);
  }

  lemma CaptionNotEmpty(r: Rate)
    ensures |Caption(r)| > 0
  {
  }

  /** The lines of some rates are their info lines, in order. */
  lemma {:induction false} InfoLinesAt(t: FareTable, rs: seq<Rate>)
    requires t.Valid()
    ensures forall i :: 0 <= i < |rs| ==> t.InfoLines(rs)[i] == t.InfoLine(rs[i])
  {
    if rs != [] {
      InfoLinesAt(t, rs[1..]);
      var rest := t.InfoLines(rs[1..]);
      assert t.InfoLines(rs) == [t.InfoLine(rs[0])] + rest;
      forall i | 0 < i < |rs| ensures t.InfoLines(rs)[i] == t.InfoLine(rs[i]) {
        assert t.InfoLines(rs)[i] == rest[i - 1];
        assert rs[1..][i - 1] == rs[i];
      }
    }
  }

  /** Splitting the lines of some rates at the line separator gives those lines back. */
  lemma SplitInfo(t: FareTable, rs: seq<Rate>)
    requires t.Valid() && rs != []
    requires forall i :: 0 <= i < |rs| ==> t.InfoLine(rs[i]) != ""
    ensures Split(t.InfoText(rs), '\n') == t.InfoLines(rs)
  {
    var lines := t.InfoLines(rs);
    InfoLinesAt(t, rs);
    InfoTextPieces(t, rs);
    var s := t.InfoText(rs);
    var first := t.InfoLine(rs[0]);
    assert s == first + NL + t.InfoText(rs[1..]);
    assert s[|first|] == '\n';
    var parts := lines + [""];
    assert DropTrailingEmpty(parts) == DropTrailingEmpty(parts[..|parts| - 1]);
    assert parts[..|parts| - 1] == lines;
    assert lines[|lines| - 1] != "";
  }

  /**
   * getFareInfo consists of exactly eight lines, one per rate in declaration
   * order, each the rate's caption followed by its current value.
   */
  lemma FareInfoLines(t: FareTable)
    requires t.Valid()
    ensures Split(t.FareInfo(), '\n') == t.InfoLines(Rates)
    ensures forall i :: 0 <= i < |Rates| ==> Split(t.FareInfo(), '\n')[i] == Caption(Rates[i]) + DoubleText(t.fare[Rates[i]])
  {
    forall i | 0 <= i < |Rates| ensures t.InfoLine(Rates[i]) != "" {
      CaptionNotEmpty(Rates[i]);
    }
    SplitInfo(t, Rates);
    InfoLinesAt(t, Rates);
  }

  lemma DoubleTextNoNewline(cents: int)
    ensures '\n' !in DoubleText(cents)
  {
    var a := if cents < 0 then -cents else cents;
    if a < 1_000_000_000 {
      var f := StripZeros(TwoDigits(a % 100));
      assert AllDigits(f);
    } else {
      var d := NatToString(a);
      assert AllDigits(StripZeros(d[1..]));
      assert AllDigits(d[..1]);
    }
  }
}
