// The two input checks of the card-editing screen (EditCardController): the
// credit-card details a payment dialog returns, and the amount typed in to
// load onto a card. String.matches is a whole-string match, so "[0-9]*"
// accepts exactly the strings made of decimal digits, the empty one included.

module Validators {
  import opened Wrappers
  import opened Text

  /**
   * The array {CardHolderName, CardNumber, CVV} the payment dialog returns;
   * each entry may be null.
   */
  datatype CreditInfo = CreditInfo(holder: Option<string>, number: Option<string>, cvv: Option<string>)

  /**
   * validateCreditCardInfo: a null array or a null entry fails; so does an
   * empty card number, a card number that is not 16 characters once trimmed,
   * and a CVV with any non-digit; a CVV of three digits then passes. The
   * holder's name is only required to be present, and the characters of the
   * card number are never looked at.
   */
  function ValidateCreditCardInfo(info: Option<CreditInfo>): (ok: bool)
    ensures ok ==> info.Some? && info.value.holder.Some? && info.value.number.Some? && info.value.cvv.Some?
    ensures ok ==> |info.value.number.value| >= 16
    ensures ok ==> IsNumeral(info.value.cvv.value) && |info.value.cvv.value| == 3
  {
    if info.None? then false
    else if info.value.holder.None? || info.value.number.None? || info.value.cvv.None? then false
    else
      var number, cvv := info.value.number.value, info.value.cvv.value;
      if number == [] then false
      else if |Trim(number)| != 16 || !AllDigits(cvv) then false
      else
        TrimShortens(number);
        |Trim(cvv)| == 3 && AllDigits(cvv)
  }

  /** Trimming never lengthens a string. */
  lemma TrimShortens(s: string)
    ensures |Trim(s)| <= |s|
  {
    TrimSlice(s);
  }

  /** A string of digits has nothing to trim. */
  lemma DigitsTrimmed(s: string)
    requires AllDigits(s)
    ensures Trim(s) == s
  {
    if s != [] {
      assert !IsTrimmable(s[0]) && !IsTrimmable(s[|s| - 1]);
    }
    TrimTrimmed(s);
  }

  /** Present entries with a 16-character trimmed card number and a three-digit CVV pass. */
  lemma Accepted(holder: string, number: string, cvv: string)
    requires |Trim(number)| == 16 && IsNumeral(cvv) && |cvv| == 3
    ensures ValidateCreditCardInfo(Some(CreditInfo(Some(holder), Some(number), Some(cvv))))
  {
    DigitsTrimmed(cvv);
  }

  /**
   * What the check accepts, written out: every entry present, a card number
   * of 16 characters between any leading and trailing blanks, and a CVV of
   * exactly three digits with no blanks around it.
   */
  lemma ValidateMeaning(info: Option<CreditInfo>)
    ensures ValidateCreditCardInfo(info) <==>
      info.Some? && info.value.holder.Some? && info.value.number.Some? && info.value.cvv.Some?
      && |Trim(info.value.number.value)| == 16
      && IsNumeral(info.value.cvv.value) && |info.value.cvv.value| == 3
  {
    if info.Some? && info.value.holder.Some? && info.value.number.Some? && info.value.cvv.Some? {
      var c := info.value;
      if |Trim(c.number.value)| == 16 && IsNumeral(c.cvv.value) && |c.cvv.value| == 3 {
        Accepted(c.holder.value, c.number.value, c.cvv.value);
        assert info == Some(CreditInfo(Some(c.holder.value), Some(c.number.value), Some(c.cvv.value)));
      }
    }
  }

  /** Blanks around an otherwise valid card number are tolerated. */
  lemma PaddedNumberAccepted(holder: string, number: string, cvv: string)
    requires IsTrimmed(number) && |number| == 16
    requires IsNumeral(cvv) && |cvv| == 3
    ensures ValidateCreditCardInfo(Some(CreditInfo(Some(holder), Some(" " + number + " "), Some(cvv))))
  {
    TrimSpaceAround(number);
    ValidateMeaning(Some(CreditInfo(Some(holder), Some(" " + number + " "), Some(cvv))));
  }

  /** A blank before the CVV is not: the digit check looks at the untrimmed CVV. */
  lemma PaddedCvvRejected(info: CreditInfo)
    requires info.cvv.Some? && |info.cvv.value| > 0 && info.cvv.value[0] == ' '
    ensures !ValidateCreditCardInfo(Some(info))
  {
  }

  /** Sixteen characters that are not digits pass as a card number. */
  lemma LettersPassAsNumber()
    ensures ValidateCreditCardInfo(Some(CreditInfo(Some("A"), Some("abcdefghijklmnop"), Some("123"))))
  {
    var number := "abcdefghijklmnop";
    assert IsTrimmed(number);
    TrimTrimmed(number);
    ValidateMeaning(Some(CreditInfo(Some("A"), Some(number), Some("123"))));
  }

  // ---------------------------------------------------------------------------
  // the amount to load

  /**
   * The load-amount check of onLoadValue: a cancelled dialog gives nothing;
   * otherwise the input, trimmed, must be one or more decimal digits, and
   * its value is the amount in dollars.
   */
  function LoadAmount(input: Option<string>): (r: Option<nat>)
    ensures r.Some? <==> input.Some? && IsNumeral(Trim(input.value))
    ensures r.Some? ==> r.value == NumeralValue(Trim(input.value))
  {
    if input.None? then None
    else
      var value := Trim(input.value);
      if IsNumeral(value) then Some(NumeralValue(value)) else None
  }

  /** Any amount written in decimal, with or without blanks around it, is read back as itself. */
  lemma LoadAmountRoundTrip(n: nat)
    ensures LoadAmount(Some(NatToString(n))) == Some(n)
    ensures LoadAmount(Some(" " + NatToString(n) + " ")) == Some(n)
  {
    var s := NatToString(n);
    DigitsTrimmed(s);
    assert IsTrimmed(s);
    TrimSpaceAround(s);
    NatToStringValue(n);
  }

  /** A sign, a decimal point or an empty input is refused. */
  lemma LoadAmountNeedsDigits(s: string)
    requires IsTrimmed(s)
    requires s == [] || s[0] == '-' || s[0] == '+' || '.' in s
    ensures LoadAmount(Some(s)) == None
  {
    TrimTrimmed(s);
    if '.' in s {
      var k :| 0 <= k < |s| && s[k] == '.';
      assert !IsDigit(s[k]);
    }
  }
}
