// Java string operations that the transit system relies on, written out over
// seq<char>: String.trim, String.split on a single character, String.join,
// indexOf, equalsIgnoreCase, decimal digits and the two ways a money amount
// (integer cents) is printed: Double.toString and String.format("%.2f").

module Text {
  import opened Wrappers

  /** The separator System.lineSeparator() returns on the platform modelled. */
  const NL: string := "\n"

  // ---------------------------------------------------------------------------
  // trim

  /** String.trim removes every leading and trailing char whose code is at most U+0020. */
  predicate IsTrimmable(c: char) { c <= ' ' }

  function TrimStart(s: string): (r: string)
    ensures |r| <= |s| && r == s[|s| - |r|..]
    ensures r == [] || !IsTrimmable(r[0])
    ensures forall k :: 0 <= k < |s| - |r| ==> IsTrimmable(s[k])
  {
    if |s| > 0 && IsTrimmable(s[0]) then TrimStart(s[1..]) else s
  }

  function TrimEnd(s: string): (r: string)
    ensures |r| <= |s| && r == s[..|r|]
    ensures r == [] || !IsTrimmable(r[|r| - 1])
    ensures forall k :: |r| <= k < |s| ==> IsTrimmable(s[k])
  {
    if |s| > 0 && IsTrimmable(s[|s| - 1]) then TrimEnd(s[..|s| - 1]) else s
  }

  /** String.trim. */
  function Trim(s: string): string
  {
    TrimEnd(TrimStart(s))
  }

  /** A string that trim leaves as it is. */
  predicate IsTrimmed(s: string)
  {
    s == [] || (!IsTrimmable(s[0]) && !IsTrimmable(s[|s| - 1]))
  }

  /** The number of blank chars that trim removes from the front. */
  function LeadingBlanks(s: string): nat
  {
    |s| - |TrimStart(s)|
  }

  /** A prefix r of a suffix t of s, followed in t by blanks only, is a slice of s followed by blanks only. */
  lemma SliceOfSlice(s: string, t: string, r: string)
    requires |t| <= |s| && t == s[|s| - |t|..]
    requires |r| <= |t| && r == t[..|r|]
    requires forall k :: |r| <= k < |t| ==> IsTrimmable(t[k])
    ensures var i := |s| - |t|;
      i + |r| <= |s| && r == s[i..i + |r|]
      && forall k :: i + |r| <= k < |s| ==> IsTrimmable(s[k])
  {
    var i := |s| - |t|;
    forall k | i + |r| <= k < |s| ensures IsTrimmable(s[k]) {
      assert s[k] == t[k - i];
    }
  }

  /** trim returns the slice of s between its leading and trailing blanks, and nothing else. */
  lemma TrimSlice(s: string)
    ensures var i, r := LeadingBlanks(s), Trim(s);
      i + |r| <= |s| && r == s[i..i + |r|]
      && (forall k :: 0 <= k < i ==> IsTrimmable(s[k]))
      && (forall k :: i + |r| <= k < |s| ==> IsTrimmable(s[k]))
    ensures IsTrimmed(Trim(s))
  {
    var t := TrimStart(s);
    var r := TrimEnd(t);
    SliceOfSlice(s, t, r);
    if r != [] {
      assert r[0] == t[0];
    }
  }

  /** A trimmed string is left unchanged by trim. */
  lemma TrimTrimmed(s: string)
    requires IsTrimmed(s)
    ensures Trim(s) == s
  {
    assert TrimStart(s) == s;
    assert TrimEnd(s) == s;
  }

  /** trim gives the empty string exactly when every char is blank. */
  lemma TrimEmptyIff(s: string)
    ensures Trim(s) == [] <==> forall k :: 0 <= k < |s| ==> IsTrimmable(s[k])
  {
    if Trim(s) == [] {
      TrimSlice(s);
    }
    if forall k :: 0 <= k < |s| ==> IsTrimmable(s[k]) {
      AllBlankTrimStart(s);
    }
  }

  lemma {:induction false} AllBlankTrimStart(s: string)
    requires forall k :: 0 <= k < |s| ==> IsTrimmable(s[k])
    ensures TrimStart(s) == []
  {
    if s != [] {
      assert IsTrimmable(s[0]);
      assert forall k :: 0 <= k < |s[1..]| ==> s[1..][k] == s[k + 1];
      AllBlankTrimStart(s[1..]);
    }
  }

  lemma TrimStartSpace(u: string)
    ensures TrimStart(" " + u) == TrimStart(u)
  {
    assert (" " + u)[1..] == u;
  }

  lemma TrimEndSpace(u: string)
    ensures TrimEnd(u + " ") == TrimEnd(u)
  {
    assert (u + " ")[..|u|] == u;
  }

  /** trim of a trimmed string followed by one space gives the string back. */
  lemma TrimSpaceAfter(x: string)
    requires IsTrimmed(x)
    ensures TrimStart(x + " ") == (if x == [] then [] else x + " ")
    ensures Trim(x + " ") == x
  {
    if x == [] {
      assert x + " " == " " + [];
      TrimStartSpace([]);
    } else {
      assert (x + " ")[0] == x[0];
    }
    TrimEndSpace(x);
    assert TrimEnd(x) == x;
  }

  /** trim of a trimmed string preceded by one space gives the string back. */
  lemma TrimSpaceBefore(x: string)
    requires IsTrimmed(x)
    ensures Trim(" " + x) == x
  {
    TrimStartSpace(x);
    assert TrimStart(x) == x;
    assert TrimEnd(x) == x;
  }

  /** trim of a trimmed string between two spaces gives the string back. */
  lemma TrimSpaceAround(x: string)
    requires IsTrimmed(x)
    ensures Trim(" " + x + " ") == x
  {
    assert " " + x + " " == " " + (x + " ");
    TrimStartSpace(x + " ");
    TrimSpaceAfter(x);
  }

  // ---------------------------------------------------------------------------
  // indexOf, split and join

  /** String.indexOf(c): the first position of c, or -1. */
  function IndexOf(s: string, c: char): (r: int)
    ensures -1 <= r < |s|
    ensures r == -1 <==> c !in s
    ensures r >= 0 ==> s[r] == c && c !in s[..r]
  {
    if |s| == 0 then -1
    else if s[0] == c then 0
    else
      var j := IndexOf(s[1..], c);
      if j < 0 then -1
      else
        assert s[..j + 1] == [s[0]] + s[1..][..j];
        j + 1
  }

  /** The first occurrence of c is where indexOf finds it. */
  lemma {:induction false} IndexOfAt(s: string, c: char, i: nat)
    requires i < |s| && s[i] == c
    requires forall j :: 0 <= j < i ==> s[j] != c
    ensures IndexOf(s, c) == i
  {
    if i > 0 {
      IndexOfAt(s[1..], c, i - 1);
    }
  }

  /** String.join(sep, parts). */
  function Join(sep: string, parts: seq<string>): string
  {
    if |parts| == 0 then ""
    else if |parts| == 1 then parts[0]
    else parts[0] + sep + Join(sep, parts[1..])
  }

  /** Joining one more part adds the separator and that part at the end. */
  lemma {:induction false} JoinSnoc(sep: string, parts: seq<string>, x: string)
    requires |parts| >= 1
    ensures Join(sep, parts + [x]) == Join(sep, parts) + sep + x
  {
    if |parts| > 1 {
      assert (parts + [x])[1..] == parts[1..] + [x];
      JoinSnoc(sep, parts[1..], x);
    }
  }

  /** Every piece between two occurrences of c, including empty ones. */
  function SplitAll(s: string, c: char): (r: seq<string>)
    ensures |r| >= 1
    ensures forall k :: 0 <= k < |r| ==> c !in r[k]
    ensures Join([c], r) == s
    decreases |s|
  {
    var i := IndexOf(s, c);
    if i < 0 then [s]
    else
      var rest := SplitAll(s[i + 1..], c);
      assert s == s[..i] + [c] + s[i + 1..];
      [s[..i]] + rest
  }

  function DropTrailingEmpty(parts: seq<string>): (r: seq<string>)
    ensures |r| <= |parts| && r == parts[..|r|]
    ensures r == [] || r[|r| - 1] != ""
    ensures forall k :: |r| <= k < |parts| ==> parts[k] == ""
  {
    if |parts| > 0 && parts[|parts| - 1] == "" then DropTrailingEmpty(parts[..|parts| - 1]) else parts
  }

  /**
   * String.split with a one-character pattern: when c does not occur the
   * result is the whole string (even an empty one); otherwise trailing empty
   * pieces are dropped.
   */
  /** The empty string is one empty piece. */
  lemma SplitAllEmpty(c: char)
    ensures SplitAll("", c) == [""]
  {
    assert IndexOf("", c) < 0;
  }

  /** A piece free of c, then c, splits off as the first piece. */
  lemma SplitAllCons(a: string, b: string, c: char)
    requires c !in a
    ensures SplitAll(a + [c] + b, c) == [a] + SplitAll(b, c)
  {
    var s := a + [c] + b;
    assert s[..|a|] == a;
    assert s[|a| + 1..] == b;
    forall j | 0 <= j < |a| ensures s[j] != c {
      assert s[j] == a[j];
    }
    IndexOfAt(s, c, |a|);
  }

  function Split(s: string, c: char): seq<string>
  {
    if c !in s then [s] else DropTrailingEmpty(SplitAll(s, c))
  }

  /** Splitting a join of pieces that do not contain the separator gives the pieces back. */
  lemma {:induction false} SplitAllJoin(parts: seq<string>, c: char)
    requires |parts| >= 1
    requires forall k :: 0 <= k < |parts| ==> c !in parts[k]
    ensures SplitAll(Join([c], parts), c) == parts
  {
    if |parts| > 1 {
      var s := Join([c], parts);
      assert s == parts[0] + [c] + Join([c], parts[1..]);
      var i := |parts[0]|;
      assert s[..i] == parts[0];
      assert s[i] == c;
      IndexOfAt(s, c, i);
      assert s[i + 1..] == Join([c], parts[1..]);
      SplitAllJoin(parts[1..], c);
    }
  }

  // ---------------------------------------------------------------------------
  // equalsIgnoreCase (ASCII letters)

  function LowerAscii(c: char): char
  {
    if 'A' <= c <= 'Z' then (c as int + 32) as char else c
  }

  /** String.equalsIgnoreCase, with case folding of the ASCII letters only. */
  predicate EqualsIgnoreCase(a: string, b: string)
  {
    |a| == |b| && forall k :: 0 <= k < |a| ==> LowerAscii(a[k]) == LowerAscii(b[k])
  }

  // ---------------------------------------------------------------------------
  // decimal numbers

  predicate IsDigit(c: char) { '0' <= c <= '9' }

  /** Matches the regular expression [0-9]*. */
  predicate AllDigits(s: string) { forall k :: 0 <= k < |s| ==> IsDigit(s[k]) }

  /** Matches the regular expression [0-9]+. */
  predicate IsNumeral(s: string) { |s| > 0 && AllDigits(s) }

  function DigitChar(d: nat): (c: char)
    requires d < 10
    ensures IsDigit(c)
  {
    ('0' as int + d) as char
  }

  function DigitValue(c: char): (d: nat)
    requires IsDigit(c)
    ensures d < 10 && DigitChar(d) == c
  {
    c as int - '0' as int
  }

  lemma DigitRoundTrip(d: nat)
    requires d < 10
    ensures DigitValue(DigitChar(d)) == d
  {
  }

  /** The number a string of decimal digits denotes (leading zeros allowed). */
  function NumeralValue(s: string): (n: nat)
    requires AllDigits(s)
  {
    if |s| == 0 then 0 else NumeralValue(s[..|s| - 1]) * 10 + DigitValue(s[|s| - 1])
  }

  /** Decimal digits of n without leading zeros, as Integer.toString prints a natural number. */
  function NatToString(n: nat): (s: string)
    ensures IsNumeral(s)
    ensures s[0] == '0' ==> n == 0
    decreases n
  {
    if n < 10 then [DigitChar(n)] else NatToString(n / 10) + [DigitChar(n % 10)]
  }

  lemma {:induction false} NatToStringValue(n: nat)
    ensures NumeralValue(NatToString(n)) == n
    decreases n
  {
    var s := NatToString(n);
    if n >= 10 {
      NatToStringValue(n / 10);
      assert s[..|s| - 1] == NatToString(n / 10);
    } else {
      assert s[..|s| - 1] == [];
    }
  }

  /** Integer.toString. */
  function IntToString(i: int): (s: string)
    ensures |s| > 0
    ensures i < 0 <==> s[0] == '-'
  {
    if i < 0 then "-" + NatToString(-i) else NatToString(i)
  }

  /** The inverse of IntToString. */
  function ParseInt(s: string): Option<int>
  {
    if |s| > 0 && s[0] == '-' && IsNumeral(s[1..]) then Some(0 - NumeralValue(s[1..]) as int)
    else if IsNumeral(s) then Some(NumeralValue(s))
    else None
  }

  lemma IntToStringRoundTrip(i: int)
    ensures ParseInt(IntToString(i)) == Some(i)
  {
    var s := IntToString(i);
    if i < 0 {
      assert s[1..] == NatToString(-i);
      NatToStringValue(-i);
    } else {
      NatToStringValue(i);
    }
  }

  // ---------------------------------------------------------------------------
  // money amounts held in cents

  /** Two decimal digits for a number of cents below 100. */
  function TwoDigits(c: nat): (s: string)
    requires c < 100
    ensures |s| == 2 && AllDigits(s)
  {
    [DigitChar(c / 10), DigitChar(c % 10)]
  }

  lemma TwoDigitsValue(c: nat)
    requires c < 100
    ensures NumeralValue(TwoDigits(c)) == c
    ensures NumeralValue(TwoDigits(c)[..1]) == c / 10
  {
    var u := TwoDigits(c);
    DigitRoundTrip(c / 10);
    DigitRoundTrip(c % 10);
    assert u[..1][..0] == [];
    assert u[..1] == [DigitChar(c / 10)];
    assert NumeralValue(u[..1]) == c / 10;
    assert NumeralValue(u) == NumeralValue(u[..1]) * 10 + DigitValue(u[1]);
  }

  /** String.format("%.2f", cents / 100.0). */
  function Fixed2(cents: int): (s: string)
  {
    var a := if cents < 0 then -cents else cents;
    (if cents < 0 then "-" else "") + NatToString(a / 100) + "." + TwoDigits(a % 100)
  }

  /** The amount a numeral, a point and a two-digit fraction denote. */
  function DecimalValue(t: string): Option<nat>
  {
    if |t| >= 4 && t[|t| - 3] == '.' && IsNumeral(t[..|t| - 3]) && AllDigits(t[|t| - 2..]) then
      Some(NumeralValue(t[..|t| - 3]) * 100 + NumeralValue(t[|t| - 2..]))
    else None
  }

  /** Reads back a "%.2f" amount. */
  function ParseFixed2(s: string): Option<int>
  {
    if |s| > 0 && s[0] == '-' then
      match DecimalValue(s[1..])
      case Some(v) => Some(0 - v)
      case None => None
    else
      match DecimalValue(s)
      case Some(v) => Some(v)
      case None => None
  }

  lemma DecimalValueOf(a: nat)
    ensures DecimalValue(NatToString(a / 100) + "." + TwoDigits(a % 100)) == Some(a)
  {
    var d := NatToString(a / 100);
    var t := d + "." + TwoDigits(a % 100);
    assert t[..|t| - 3] == d;
    assert t[|t| - 2..] == TwoDigits(a % 100);
    NatToStringValue(a / 100);
    TwoDigitsValue(a % 100);
  }

  lemma Fixed2RoundTrip(cents: int)
    ensures ParseFixed2(Fixed2(cents)) == Some(cents)
  {
    var a := if cents < 0 then -cents else cents;
    var t := NatToString(a / 100) + "." + TwoDigits(a % 100);
    DecimalValueOf(a);
    if cents < 0 {
      assert Fixed2(cents)[1..] == t;
    } else {
      assert Fixed2(cents) == t;
      assert t[0] != '-';
    }
  }

  /** Strips trailing '0' digits, keeping at least one digit. */
  function StripZeros(s: string): (r: string)
    requires |s| > 0
    ensures 0 < |r| <= |s| && r == s[..|r|]
  {
    if |s| > 1 && s[|s| - 1] == '0' then StripZeros(s[..|s| - 1]) else s
  }

  /**
   * Double.toString(cents / 100.0): plain notation with one or two fraction
   * digits below 10^7, computerized scientific notation ("1.0E7") from 10^7 on.
   */
  function DoubleText(cents: int): (s: string)
    ensures |s| > 0
  {
    var a := if cents < 0 then -cents else cents;
    var sign := if cents < 0 then "-" else "";
    if a < 1_000_000_000 then
      sign + NatToString(a / 100) + "." + StripZeros(TwoDigits(a % 100))
    else
      var d := NatToString(a);
      sign + d[..1] + "." + StripZeros(d[1..]) + "E" + NatToString(|NatToString(a / 100)| - 1)
  }

  /** The fraction digits Double.toString prints for a number of cents. */
  function Fraction(cents: nat): string
  {
    var c := cents % 100;
    if c % 10 == 0 then [DigitChar(c / 10)] else TwoDigits(c)
  }

  /** Below 10^7 the text is the dollar numeral, a point, and the cents without a trailing zero. */
  lemma DoubleTextPlain(cents: nat)
    requires cents < 1_000_000_000
    ensures DoubleText(cents) == NatToString(cents / 100) + "." + Fraction(cents)
  {
    var c := cents % 100;
    var u := TwoDigits(c);
    if c % 10 == 0 {
      assert u[1] == '0';
      assert StripZeros(u) == StripZeros(u[..1]);
      assert u[..1] == [DigitChar(c / 10)];
    }
  }

  /** The cents one or two fraction digits denote. */
  function FractionValue(f: string): nat
    requires AllDigits(f)
  {
    if |f| == 1 then NumeralValue(f) * 10 else NumeralValue(f)
  }

  /** Reads back a plain Double.toString amount with one or two fraction digits. */
  function ParseDoubleText(s: string): Option<int>
  {
    var p := IndexOf(s, '.');
    if p > 0 && IsNumeral(s[..p]) && IsNumeral(s[p + 1..]) && |s| - p <= 3 then
      Some(NumeralValue(s[..p]) * 100 + FractionValue(s[p + 1..]))
    else None
  }

  /** The first '.' of a numeral, a point and a fraction is the point. */
  lemma DotSplit(d: string, f: string)
    requires '.' !in d
    ensures var s := d + "." + f;
      IndexOf(s, '.') == |d| && s[..|d|] == d && s[|d| + 1..] == f
  {
    var s := d + "." + f;
    forall j | 0 <= j < |d| ensures s[j] != '.' {
      assert s[j] == d[j];
    }
    IndexOfAt(s, '.', |d|);
    assert s[..|d|] == d;
    assert s[|d| + 1..] == f;
  }

  lemma ParseDecimal(d: string, f: string)
    requires IsNumeral(d) && IsNumeral(f) && |f| <= 2
    ensures ParseDoubleText(d + "." + f) == Some(NumeralValue(d) * 100 + FractionValue(f))
  {
    forall j | 0 <= j < |d| ensures d[j] != '.' {
      assert IsDigit(d[j]);
    }
    DotSplit(d, f);
  }

  lemma DoubleTextRoundTrip(cents: nat)
    requires cents < 1_000_000_000
    ensures ParseDoubleText(DoubleText(cents)) == Some(cents)
  {
    DoubleTextPlain(cents);
    NatToStringValue(cents / 100);
    TwoDigitsValue(cents % 100);
    ParseDecimal(NatToString(cents / 100), Fraction(cents));
  }
}
