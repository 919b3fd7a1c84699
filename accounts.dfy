// Users' accounts and the credit-card payments that wait for an
// administrator: TransitUser, TransitUserAccount, Payment with its two kinds
// (loading value onto a card, buying a card), AdminUserAccount, and the
// registries the Java classes keep in static fields (all cards by number, all
// accounts by email, the pending payments, the accepted card purchases and
// the default administrator), gathered here in one Registry object.

module Accounts {
  import opened Wrappers
  import opened Clock
  import opened Text
  import opened Fares
  import opened Passes
  import opened Trips
  import opened Tapping
  import opened Cards
  import opened Users
  import opened Lists

  /** The exceptions of the account operations. */
  datatype AccountError =
    | UserExist
    | LoginFail
    | IncorrectOwner
    | InvalidLoadAmount
    | SingleCard
    | CardNotFound
    | InvalidPassDuration
    | ChangePasswordFail
    | NullPointer
    | IndexOutOfBounds
    | CardRefused(reason: CardError)

  /** Draws of Random.nextInt(10). */
  predicate DigitDraws(draws: seq<int>)
  {
    forall k :: 0 <= k < |draws| ==> 0 <= draws[k] < 10
  }

  /** The loops that append random digits one by one: a transaction id (10 draws) or a card number (12). */
  method DrawDigits(draws: seq<int>) returns (s: string)
    requires DigitDraws(draws)
    ensures |s| == |draws| && AllDigits(s)
    ensures forall k :: 0 <= k < |draws| ==> DigitValue(s[k]) == draws[k]
  {
    s := "";
    var i := 0;
    while i < |draws|
      invariant 0 <= i <= |draws| && |s| == i && AllDigits(s)
      invariant forall k :: 0 <= k < i ==> DigitValue(s[k]) == draws[k]
    {
      DigitRoundTrip(draws[i]);
      s := s + [DigitChar(draws[i])];
      i := i + 1;
    }
  }

  // ---------------------------------------------------------------------------
  // TransitUser

  /** A user who holds cards; the User part is a field here rather than a superclass. */
  class TransitUser {
    const user: User
    var myCards: seq<Card>

    constructor (firstName: string, lastName: string, email: string, plainPassword: string, digest: string -> seq<byte>)
      ensures fresh(user)
      ensures user.firstName == firstName && user.lastName == lastName && user.email == email
      ensures user.digest == digest && user.Verifies(plainPassword)
      ensures myCards == []
    {
      user := new User(firstName, lastName, email, plainPassword, digest);
      myCards := [];
    }

    /** addCard: a card already held is not added again. */
    method AddCard(card: Card)
      modifies this`myCards
      ensures myCards == if card in old(myCards) then old(myCards) else old(myCards) + [card]
      ensures NoDup(old(myCards)) ==> NoDup(myCards)
    {
      if card !in myCards {
        if NoDup(myCards) {
          AppendNew(myCards, card);
        }
        myCards := myCards + [card];
      }
    }

    /** removeCard: CardNotFoundException for a card not held, otherwise the card leaves the list. */
    method RemoveCard(card: Card) returns (err: Option<AccountError>)
      modifies this`myCards
      ensures err.None? <==> card in old(myCards)
      ensures err.Some? ==> err == Some(CardNotFound) && myCards == old(myCards)
      ensures err.None? ==> myCards == RemoveFirst(old(myCards), card) && |myCards| == |old(myCards)| - 1
      ensures err.None? && NoDup(old(myCards)) ==> card !in myCards && NoDup(myCards)
    {
      if card !in myCards {
        return Some(CardNotFound);
      }
      RemoveFirstMeaning(myCards, card);
      myCards := RemoveFirst(myCards, card);
      return None;
    }
  }

  // ---------------------------------------------------------------------------
  // Payment

  /** The two kinds of payment: LoadValuePayment and BuyCardPayment. */
  datatype Purpose = LoadValue(card: Card) | BuyCard(account: TransitUserAccount)

  /** The object a payment changes when it is confirmed. */
  function Target(p: Payment): object
  {
    match p.purpose
    case LoadValue(c) => c
    case BuyCard(a) => a.holder
  }

  /** The first line of Payment.toString, before the id. */
  const IdCaption: string := "Transaction Number: "

  /**
   * Payment.toString with its subclass's last line, for a credit card number
   * of at least 12 characters: the id, the number with its first twelve
   * characters masked, the holder, the CVV, the value, the status and the
   * purpose.
   */
  function Receipt(id: string, number: string, holder: string, cvv: string, cents: int, status: string, purpose: string): string
    requires |number| >= 12
  {
    IdCaption + id + ReceiptRest(number, holder, cvv, cents, status, purpose)
  }

  /** The lines of a receipt after the id. */
  function ReceiptRest(number: string, holder: string, cvv: string, cents: int, status: string, purpose: string): string
    requires |number| >= 12
  {
    NL
    + "CreditCardNumber: " + "xxxx-xxxx-xxxx-" + number[12..] + NL
    + "Credit Card Holder: " + holder + NL
    + "CVV: " + cvv + NL
    + "Value: " + Fixed2(cents) + NL
    + status + NL
    + purpose
  }

  /** A receipt starts with the caption and then the id. */
  lemma ReceiptShowsId(id: string, number: string, holder: string, cvv: string, cents: int, status: string, purpose: string)
    requires |number| >= 12
    ensures var r := Receipt(id, number, holder, cvv, cents, status, purpose);
      |r| >= |IdCaption| + |id| && r[..|IdCaption|] == IdCaption && r[|IdCaption|..|IdCaption| + |id|] == id
  {
    var r := Receipt(id, number, holder, cvv, cents, status, purpose);
    var rest := ReceiptRest(number, holder, cvv, cents, status, purpose);
    assert r == IdCaption + id + rest;
    assert r[..|IdCaption|] == IdCaption;
    assert r[|IdCaption|..|IdCaption| + |id|] == id;
  }

  /** Two receipts that read the same carry the same id, when ids have the same length (10 digits). */
  lemma ReceiptDeterminesId(id1: string, n1: string, h1: string, c1: string, v1: int, s1: string, p1: string,
                            id2: string, n2: string, h2: string, c2: string, v2: int, s2: string, p2: string)
    requires |n1| >= 12 && |n2| >= 12 && |id1| == |id2|
    requires Receipt(id1, n1, h1, c1, v1, s1, p1) == Receipt(id2, n2, h2, c2, v2, s2, p2)
    ensures id1 == id2
  {
    ReceiptShowsId(id1, n1, h1, c1, v1, s1, p1);
    ReceiptShowsId(id2, n2, h2, c2, v2, s2, p2);
  }

  /** Only the characters after the twelfth of the credit card number show in a receipt. */
  lemma ReceiptMasksNumber(id: string, n1: string, n2: string, holder: string, cvv: string, cents: int, status: string, purpose: string)
    requires |n1| >= 12 && |n2| >= 12 && n1[12..] == n2[12..]
    ensures Receipt(id, n1, holder, cvv, cents, status, purpose) == Receipt(id, n2, holder, cvv, cents, status, purpose)
  {
  }

  class Payment {
    const creditCardNumber: string
    const cvv: string
    const creditCardHolder: string
    const transactionId: string
    /** The amount, in cents. */
    const value: int
    const purpose: Purpose
    var isPending: bool
    var isAccept: bool
    /** When the payment was confirmed. */
    var time: Option<DateTime>
    /** The number of the card a confirmed card purchase made (BuyCardPayment.cardNumber). */
    var cardNumber: Option<string>

    /** The Payment constructor, given the id its random draws made: pending, neither accepted nor timed. */
    constructor (value: int, creditCardHolder: string, cvv: string, creditCardNumber: string, transactionId: string, purpose: Purpose)
      ensures this.value == value && this.creditCardHolder == creditCardHolder && this.cvv == cvv
      ensures this.creditCardNumber == creditCardNumber && this.transactionId == transactionId && this.purpose == purpose
      ensures isPending && !isAccept && time.None? && cardNumber.None?
    {
      this.value := value;
      this.creditCardHolder := creditCardHolder;
      this.cvv := cvv;
      this.creditCardNumber := creditCardNumber;
      this.transactionId := transactionId;
      this.purpose := purpose;
      isPending := true;
      isAccept := false;
      time := None;
      cardNumber := None;
    }

    /** The status line of toString. */
    function Status(): (s: string)
      reads this
      ensures s == "This payment is pending." <==> isPending
    {
      if isPending then "This payment is pending."
      else "This payment is" + (if isAccept then " accepted." else " rejected.")
    }

    /** The line the subclass's toString adds. */
    function PurposeLine(): string
      reads this
    {
      match purpose
      case LoadValue(c) => "The fund is loading to card " + c.number
      case BuyCard(_) =>
        match cardNumber
        case Some(n) => "This fund is used to buy card " + n + "."
        case None => "This fund is used to buy card."
    }

    /**
     * toString: the receipt, or the StringIndexOutOfBoundsException that
     * substring(12) raises on a credit card number shorter than 12.
     */
    function Text(): (t: Option<string>)
      reads this
      ensures t.Some? <==> |creditCardNumber| >= 12
    {
      if |creditCardNumber| < 12 then None
      else Some(Receipt(transactionId, creditCardNumber, creditCardHolder, cvv, value, Status(), PurposeLine()))
    }
  }

  /** Two payments whose texts are the same have the same id: the text picks the payment by its id. */
  lemma SameTextSameId(p: Payment, q: Payment)
    requires |p.transactionId| == |q.transactionId|
    requires p.Text().Some? && p.Text() == q.Text()
    ensures p.transactionId == q.transactionId
  {
    ReceiptDeterminesId(p.transactionId, p.creditCardNumber, p.creditCardHolder, p.cvv, p.value, p.Status(), p.PurposeLine(),
                        q.transactionId, q.creditCardNumber, q.creditCardHolder, q.cvv, q.value, q.Status(), q.PurposeLine());
  }

  /**
   * Payment.search over a list: the first payment whose text is the given
   * one; a payment before it whose text cannot be made raises
   * StringIndexOutOfBoundsException, and no match leaves null, on which the
   * caller raises NullPointerException.
   */
  function Find(ps: seq<Payment>, text: string): (r: Result<Payment, AccountError>)
    reads ps
    ensures r.Ok? ==> r.value in ps && r.value.Text() == Some(text)
    ensures r.Err? ==> r.error == NullPointer || r.error == IndexOutOfBounds
    ensures r == Err(NullPointer) <==> forall q :: q in ps ==> q.Text().Some? && q.Text().value != text
    ensures r == Err(IndexOutOfBounds) ==> exists q :: q in ps && q.Text().None?
  {
    if ps == [] then Err(NullPointer)
    else match ps[0].Text()
      case None => Err(IndexOutOfBounds)
      case Some(t) => if t == text then Ok(ps[0]) else Find(ps[1..], text)
  }

  // ---------------------------------------------------------------------------
  // TransitUserAccount

  /** The amounts addValue accepts: 10, 20, 50 or 100 dollars. */
  predicate LoadAmount(cents: int)
  {
    cents == 1000 || cents == 2000 || cents == 5000 || cents == 10000
  }

  class TransitUserAccount {
    const holder: TransitUser

    /** The TransitUserAccount constructor registers the account under its holder's email. */
    constructor (holder: TransitUser, reg: Registry)
      modifies reg`accounts
      ensures this.holder == holder
      ensures reg.accounts == old(reg.accounts)[holder.user.email := this]
    {
      this.holder := holder;
      new;
      reg.accounts := reg.accounts[holder.user.email := this];
    }

    /** checkValidHolder: the card carries the holder's email. */
    predicate Owns(card: Card)
    {
      holder.user.email == card.holderEmail
    }

    /**
     * addValue: the owner check, then the amount check; an accepted request
     * becomes a pending payment of that amount for the card. Making its text
     * for the log fails on a short credit card number after the payment is
     * already pending.
     */
    method AddValue(reg: Registry, cents: int, card: Card, creditCardHolder: string, cvv: string, creditCardNumber: string, draws: seq<int>)
      returns (err: Option<AccountError>)
      requires reg.Valid() && |draws| == 10 && DigitDraws(draws)
      modifies reg`pending
      ensures reg.Valid()
      ensures !Owns(card) ==> err == Some(IncorrectOwner) && reg.pending == old(reg.pending)
      ensures Owns(card) && !LoadAmount(cents) ==> err == Some(InvalidLoadAmount) && reg.pending == old(reg.pending)
      ensures Owns(card) && LoadAmount(cents) ==>
        |reg.pending| == |old(reg.pending)| + 1 && reg.pending[..|old(reg.pending)|] == old(reg.pending)
        && fresh(reg.pending[|old(reg.pending)|])
        && NewPayment(reg.pending[|old(reg.pending)|], cents, creditCardHolder, cvv, creditCardNumber, LoadValue(card))
        && (err.None? <==> |creditCardNumber| >= 12)
        && (err.Some? ==> err == Some(IndexOutOfBounds))
    {
      if !Owns(card) {
        return Some(IncorrectOwner);
      }
      if !LoadAmount(cents) {
        return Some(InvalidLoadAmount);
      }
      var p := reg.AddPending(cents, creditCardHolder, cvv, creditCardNumber, draws, LoadValue(card));
      if p.Text().None? {
        return Some(IndexOutOfBounds);
      }
      return None;
    }

    /** deactivateCard. */
    method DeactivateCard(card: Card) returns (err: Option<AccountError>)
      modifies card
      ensures err.None? <==> Owns(card)
      ensures err.Some? ==> err == Some(IncorrectOwner) && card.State() == old(card.State())
      ensures err.None? ==> card.State() == old(card.State()).(activated := false)
    {
      if !Owns(card) {
        return Some(IncorrectOwner);
      }
      card.SetActivated(false);
      return None;
    }

    /** activateCard. */
    method ActivateCard(card: Card) returns (err: Option<AccountError>)
      modifies card
      ensures err.None? <==> Owns(card)
      ensures err.Some? ==> err == Some(IncorrectOwner) && card.State() == old(card.State())
      ensures err.None? ==> card.State() == old(card.State()).(activated := true)
    {
      if !Owns(card) {
        return Some(IncorrectOwner);
      }
      card.SetActivated(true);
      return None;
    }

    /** viewCardRecentTrip, given how each journey prints: the card's last three journeys, numbered. */
    method ViewCardRecentTrip(card: Card, text: Trip -> string) returns (r: Result<string, AccountError>)
      ensures !Owns(card) ==> r == Err(IncorrectOwner)
      ensures Owns(card) ==> r == Ok(Enumerated(LastThree(card.trips), text))
    {
      if !Owns(card) {
        return Err(IncorrectOwner);
      }
      var recentTrips := card.GetLastThreeTrips();
      var s := GetEnumeratedTrips(recentTrips, text);
      return Ok(s);
    }

    /**
     * removeCard: refused for the holder's only card, then for a card of
     * someone else; otherwise the balance (or debt) moves to the other card,
     * and only then is the card looked up in the holder's list.
     */
    method RemoveCard(card: Card, transfer: Card) returns (err: Option<AccountError>)
      modifies transfer, holder`myCards
      ensures |old(holder.myCards)| == 1 ==>
        err == Some(SingleCard) && holder.myCards == old(holder.myCards) && transfer.State() == old(transfer.State())
      ensures |old(holder.myCards)| != 1 && !Owns(card) ==>
        err == Some(IncorrectOwner) && holder.myCards == old(holder.myCards) && transfer.State() == old(transfer.State())
      ensures |old(holder.myCards)| != 1 && Owns(card) ==>
        transfer.State() == old(transfer.State()).(balance := old(transfer.balance) + old(card.balance))
        && (card in old(holder.myCards) ==> err.None? && holder.myCards == RemoveFirst(old(holder.myCards), card))
        && (card !in old(holder.myCards) ==> err == Some(CardNotFound) && holder.myCards == old(holder.myCards))
    {
      if |holder.myCards| == 1 {
        return Some(SingleCard);
      }
      if !Owns(card) {
        return Some(IncorrectOwner);
      }
      transfer.AddBalance(card.balance);
      err := holder.RemoveCard(card);
    }

    /** finalizePurchaseCard, given the number generateCardNumber drew: a new card, registered and held. */
    method FinalizePurchaseCard(reg: Registry, number: string, fares: FareTable) returns (n: string)
      requires fares.Valid()
      modifies reg`cards, holder`myCards
      ensures n == number && number in reg.cards && fresh(reg.cards[number])
      ensures reg.cards == old(reg.cards)[number := reg.cards[number]]
      ensures reg.cards[number].holderEmail == holder.user.email && reg.cards[number].number == number
      ensures reg.cards[number].State() == FreshCard && reg.cards[number].fine == fares.GetFare(Fine)
      ensures holder.myCards == old(holder.myCards) + [reg.cards[number]]
    {
      var card := new Card(holder.user.email, number, fares);
      reg.cards := reg.cards[number := card];
      holder.AddCard(card);
      n := card.number;
    }

    /** purchaseCard: a pending payment of the new-card price plus the initial value, both read now. */
    method PurchaseCard(reg: Registry, creditCardHolder: string, cvv: string, creditCardNumber: string, draws: seq<int>, fares: FareTable)
      returns (err: Option<AccountError>)
      requires reg.Valid() && fares.Valid() && |draws| == 10 && DigitDraws(draws)
      modifies reg`pending
      ensures reg.Valid()
      ensures |reg.pending| == |old(reg.pending)| + 1 && reg.pending[..|old(reg.pending)|] == old(reg.pending)
      ensures fresh(reg.pending[|old(reg.pending)|])
      ensures NewPayment(reg.pending[|old(reg.pending)|], fares.GetFare(NewCard) + fares.GetFare(CardInitValue),
                         creditCardHolder, cvv, creditCardNumber, BuyCard(this))
      ensures err.None? <==> |creditCardNumber| >= 12
      ensures err.Some? ==> err == Some(IndexOutOfBounds)
    {
      var p := reg.AddPending(fares.GetFare(NewCard) + fares.GetFare(CardInitValue), creditCardHolder, cvv, creditCardNumber, draws, BuyCard(this));
      if p.Text().None? {
        return Some(IndexOutOfBounds);
      }
      return None;
    }

    /**
     * purchaseTransitPass: the owner check, then the duration check (7 or 30
     * days); then the card buys the pass made now, or refuses it for a low
     * balance.
     */
    method PurchaseTransitPass(purchaseTime: DateTime, card: Card, start: Date, duration: int, fares: FareTable)
      returns (err: Option<AccountError>)
      requires fares.Valid()
      modifies card
      ensures !Owns(card) ==> err == Some(IncorrectOwner) && card.State() == old(card.State())
      ensures Owns(card) && duration != 7 && duration != 30 ==> err == Some(InvalidPassDuration) && card.State() == old(card.State())
      ensures Owns(card) && (duration == 7 || duration == 30) ==>
        match Tapping.AddTransitPass(old(card.State()), purchaseTime, MakeTransitPass(start, duration, fares))
        case Err(e) => err == Some(CardRefused(e)) && card.State() == old(card.State())
        case Ok(s) => err.None? && card.State() == s
    {
      if !Owns(card) {
        return Some(IncorrectOwner);
      }
      if !(duration == 7 || duration == 30) {
        return Some(InvalidPassDuration);
      }
      var pass := MakeTransitPass(start, duration, fares);
      var refused := card.AddTransitPass(purchaseTime, pass);
      if refused.Some? {
        return Some(CardRefused(refused.value));
      }
      return None;
    }
  }

  /** What a new payment holds. */
  predicate NewPayment(p: Payment, cents: int, creditCardHolder: string, cvv: string, creditCardNumber: string, purpose: Purpose)
    reads p
  {
    p.value == cents && p.creditCardHolder == creditCardHolder && p.cvv == cvv
    && p.creditCardNumber == creditCardNumber && p.purpose == purpose
    && p.isPending && !p.isAccept && p.time.None? && p.cardNumber.None?
    && |p.transactionId| == 10 && AllDigits(p.transactionId)
  }

  /** The recent-trips view lists the three latest journeys, or all of them when there are fewer. */
  lemma RecentTripCount(trips: seq<Trip>)
    ensures Present(LastThree(trips)) == if |trips| < 3 then |trips| else 3
  {
    var r := LastThree(trips);
    assert r[1..][1..][1..] == [];
    assert Present(r[1..][1..]) == if |trips| < 3 then 0 else 1;
    assert Present(r[1..]) == if |trips| < 2 then 0 else Present(r[1..][1..]) + 1;
  }

  // ---------------------------------------------------------------------------
  // AdminUserAccount

  class AdminUserAccount {
    const holder: User

    constructor (holder: User)
      ensures this.holder == holder
    {
      this.holder := holder;
    }

    /** handleTransaction: confirms or declines the pending payment whose text is given. */
    method HandleTransaction(reg: Registry, text: string, approve: bool, now: DateTime, number: string, fares: FareTable)
      returns (err: Option<AccountError>)
      requires reg.Valid() && fares.Valid()
      modifies reg, reg.pending, reg.Targets()
      ensures reg.Valid()
      ensures match old(Find(reg.pending, text))
        case Err(e) => err == Some(e) && reg.Untouched()
        case Ok(p) => err.None? && if approve then reg.Confirmed(p, now, number) else reg.Declined(p)
    {
      if approve {
        err := reg.ConfirmId(text, now, number, fares);
      } else {
        err := reg.DeclineId(text);
      }
    }

    /** handelChangePassword: the new password is set only when the old one verifies. */
    method HandleChangePassword(oldPassword: string, newPassword: string) returns (err: Option<AccountError>)
      modifies holder`password
      ensures err.None? <==> old(holder.Verifies(oldPassword))
      ensures err.Some? ==> err == Some(ChangePasswordFail) && holder.password == old(holder.password)
      ensures err.None? ==> holder.Verifies(newPassword)
      ensures err.None? ==> forall p :: holder.Verifies(p) <==> holder.digest(p) == holder.digest(newPassword)
    {
      var ok := holder.VerifyLogin(oldPassword);
      if ok {
        holder.SetPassword(newPassword);
        return None;
      }
      return Some(ChangePasswordFail);
    }

    /** handleChangePrice. */
    method HandleChangePrice(fares: FareTable, rate: Rate, cents: int)
      requires fares.Valid()
      modifies fares
      ensures fares.Valid() && fares.GetFare(rate) == cents
      ensures forall q: Rate :: q != rate ==> fares.GetFare(q) == old(fares.GetFare(q))
    {
      fares.SetFare(rate, cents);
    }
  }

  // ---------------------------------------------------------------------------
  // the registries

  class Registry {
    /** Card.allCard. */
    var cards: map<string, Card>
    /** TransitUserAccount.allTransitUserAccount. */
    var accounts: map<string, TransitUserAccount>
    /** Payment.pendingPayment. */
    var pending: seq<Payment>
    /** BuyCardPayment.acceptedBuyCardPayment. */
    var accepted: seq<Payment>
    /** AdminUserAccount.defaultAdmin. */
    var admin: AdminUserAccount

    /** Every pending payment is listed once and is marked pending. */
    ghost predicate Valid()
      reads this, pending
    {
      NoDup(pending) && forall p :: p in pending ==> p.isPending
    }

    /** The objects confirming a pending payment may change. */
    function Targets(): set<object>
      reads this
    {
      set p | p in pending :: Target(p)
    }

    /** DataSource.initNew, with the default administrator: Super Admin, admin@example.com, password "password". */
    constructor (digest: string -> seq<byte>)
      ensures cards == map[] && accounts == map[] && pending == [] && accepted == []
      ensures fresh(admin) && fresh(admin.holder)
      ensures admin.holder.firstName == "Super" && admin.holder.lastName == "Admin"
      ensures admin.holder.email == "admin@example.com" && admin.holder.Verifies("password")
      ensures Valid()
    {
      cards := map[];
      accounts := map[];
      pending := [];
      accepted := [];
      var u := new User("Super", "Admin", "admin@example.com", "password", digest);
      admin := new AdminUserAccount(u);
    }

    /**
     * What confirming p does: its purpose is carried out (the card gains the
     * value, or a new card under `number` is registered and held, and the
     * purchase is recorded), p leaves the pending list accepted at `now`, and
     * no other payment, nor anything another payment would change, changes.
     */
    twostate predicate Confirmed(p: Payment, now: DateTime, number: string)
      reads *
    {
      p in old(pending) && p !in pending && pending == RemoveFirst(old(pending), p)
      && !p.isPending && p.isAccept && p.time == Some(now)
      && accounts == old(accounts) && admin == old(admin)
      && (p.purpose.LoadValue? ==>
        p.purpose.card.State() == old(p.purpose.card.State()).(balance := old(p.purpose.card.balance) + p.value)
        && cards == old(cards) && accepted == old(accepted) && p.cardNumber == old(p.cardNumber))
      && (p.purpose.BuyCard? ==>
        p.cardNumber == Some(number) && accepted == old(accepted) + [p]
        && number in cards && fresh(cards[number]) && cards == old(cards)[number := cards[number]]
        && cards[number].holderEmail == p.purpose.account.holder.user.email && cards[number].State() == FreshCard
        && p.purpose.account.holder.myCards == old(p.purpose.account.holder.myCards) + [cards[number]])
      && OthersUnchanged(p)
    }

    /**
     * What declining p does: p leaves the pending list, rejected, with its
     * time and card number as they were; nothing else changes.
     */
    twostate predicate Declined(p: Payment)
      reads *
    {
      p in old(pending) && p !in pending && pending == RemoveFirst(old(pending), p)
      && !p.isPending && !p.isAccept && p.time == old(p.time) && p.cardNumber == old(p.cardNumber)
      && cards == old(cards) && accepted == old(accepted) && accounts == old(accounts) && admin == old(admin)
      && unchanged(Target(p)) && OthersUnchanged(p)
    }

    /** Every other payment pending before p was handled, and whatever it would change, is left alone. */
    twostate predicate OthersUnchanged(p: Payment)
      reads *
    {
      forall q :: q in old(pending) && q != p ==> unchanged(q) && (Target(q) != Target(p) ==> unchanged(Target(q)))
    }

    /** Nothing the registry holds, no pending payment and nothing a pending payment would change has changed. */
    twostate predicate Untouched()
      reads *
    {
      unchanged(this) && forall q :: q in pending ==> unchanged(q) && unchanged(Target(q))
    }

    /** The Payment constructor's registration: a fresh payment with a 10-digit id joins the pending list. */
    method AddPending(cents: int, creditCardHolder: string, cvv: string, creditCardNumber: string, draws: seq<int>, purpose: Purpose)
      returns (p: Payment)
      requires Valid() && |draws| == 10 && DigitDraws(draws)
      modifies this`pending
      ensures Valid() && fresh(p) && pending == old(pending) + [p]
      ensures NewPayment(p, cents, creditCardHolder, cvv, creditCardNumber, purpose)
      ensures forall k :: 0 <= k < 10 ==> DigitValue(p.transactionId[k]) == draws[k]
    {
      var id := DrawDigits(draws);
      p := new Payment(cents, creditCardHolder, cvv, creditCardNumber, id, purpose);
      AppendNew(pending, p);
      pending := pending + [p];
    }

    /** search: the loop over the pending list that Find describes. */
    method Search(text: string) returns (r: Result<Payment, AccountError>)
      ensures r == Find(pending, text)
    {
      var i := 0;
      while i < |pending|
        invariant 0 <= i <= |pending|
        invariant Find(pending[i..], text) == Find(pending, text)
      {
        assert pending[i..][1..] == pending[i + 1..];
        var t := pending[i].Text();
        if t.None? {
          return Err(IndexOutOfBounds);
        }
        if t.value == text {
          return Ok(pending[i]);
        }
        i := i + 1;
      }
      return Err(NullPointer);
    }

    /**
     * confirmFinalize: the purpose is carried out (the card gains the value,
     * or a new card is made and the purchase recorded), the payment leaves
     * the pending list and is marked accepted at the given instant.
     */
    method ConfirmFinalize(p: Payment, now: DateTime, number: string, fares: FareTable)
      requires Valid() && p in pending && fares.Valid()
      modifies this, p, Target(p)
      ensures Valid() && Confirmed(p, now, number)
    {
      match p.purpose {
        case LoadValue(c) =>
          c.AddBalance(p.value);
        case BuyCard(a) =>
          var n := a.FinalizePurchaseCard(this, number, fares);
          p.cardNumber := Some(n);
          accepted := accepted + [p];
      }
      Settle(p, now);
    }

    /** The end of confirmFinalize: the payment leaves the pending list, accepted at the given instant. */
    method Settle(p: Payment, now: DateTime)
      requires Valid() && p in pending
      modifies this`pending, p`isAccept, p`isPending, p`time
      ensures Valid() && p !in pending && pending == RemoveFirst(old(pending), p)
      ensures !p.isPending && p.isAccept && p.time == Some(now)
    {
      RemoveFirstMeaning(pending, p);
      pending := RemoveFirst(pending, p);
      p.isAccept := true;
      p.isPending := false;
      p.time := Some(now);
    }

    /** rejectFinalize: the payment leaves the pending list, rejected; nothing else changes. */
    method RejectFinalize(p: Payment)
      requires Valid() && p in pending
      modifies this`pending, p`isAccept, p`isPending
      ensures Valid() && Declined(p)
    {
      RemoveFirstMeaning(pending, p);
      pending := RemoveFirst(pending, p);
      p.isAccept := false;
      p.isPending := false;
    }

    /**
     * confirmId: search, then confirmFinalize on what it found. The lookup is
     * `Find`, which the loop of `Search` is proved to compute.
     */
    method ConfirmId(text: string, now: DateTime, number: string, fares: FareTable) returns (err: Option<AccountError>)
      requires Valid() && fares.Valid()
      modifies this, pending, Targets()
      ensures Valid()
      ensures match old(Find(pending, text))
        case Err(e) => err == Some(e) && Untouched()
        case Ok(p) => err.None? && Confirmed(p, now, number)
    {
      var found := Find(pending, text);
      if found.Err? {
        return Some(found.error);
      }
      var p := found.value;
      assert p in pending && Target(p) in Targets();
      ConfirmFinalize(p, now, number, fares);
      return None;
    }

    /** declineId: search (as `Find`), then rejectFinalize on what it found. */
    method DeclineId(text: string) returns (err: Option<AccountError>)
      requires Valid()
      modifies this`pending, pending
      ensures Valid()
      ensures match old(Find(pending, text))
        case Err(e) => err == Some(e) && Untouched()
        case Ok(p) => err.None? && Declined(p)
    {
      var found := Find(pending, text);
      if found.Err? {
        return Some(found.error);
      }
      RejectFinalize(found.value);
      return None;
    }

    /** handleTransitUserLogin: the account under the email, when the password verifies. */
    method HandleTransitUserLogin(email: string, plainPassword: string) returns (r: Result<TransitUserAccount, AccountError>)
      ensures r.Ok? <==> email in accounts && accounts[email].holder.user.Verifies(plainPassword)
      ensures r.Ok? ==> r.value == accounts[email]
      ensures r.Err? ==> r.error == LoginFail
    {
      if email !in accounts {
        return Err(LoginFail);
      }
      var account := accounts[email];
      var ok := account.holder.user.VerifyLogin(plainPassword);
      if ok {
        return Ok(account);
      }
      return Err(LoginFail);
    }

    /** handleNewAccount: refused for a registered email; otherwise a new user and account under it. */
    method HandleNewAccount(email: string, firstName: string, lastName: string, plainPassword: string, digest: string -> seq<byte>)
      returns (err: Option<AccountError>)
      modifies this`accounts
      ensures err.Some? <==> email in old(accounts)
      ensures err.Some? ==> err == Some(UserExist) && accounts == old(accounts)
      ensures err.None? ==>
        email in accounts && accounts == old(accounts)[email := accounts[email]]
        && fresh(accounts[email]) && fresh(accounts[email].holder) && fresh(accounts[email].holder.user)
        && accounts[email].holder.user.email == email && accounts[email].holder.myCards == []
        && accounts[email].holder.user.firstName == firstName && accounts[email].holder.user.lastName == lastName
        && accounts[email].holder.user.Verifies(plainPassword)
    {
      if email in accounts {
        return Some(UserExist);
      }
      var user := new TransitUser(firstName, lastName, email, plainPassword, digest);
      var account := new TransitUserAccount(user, this);
      return None;
    }

    /** handleAdminLogin: the default administrator, when both the email and the password match. */
    method HandleAdminLogin(email: string, plainPassword: string) returns (r: Result<AdminUserAccount, AccountError>)
      ensures r.Ok? <==> email == admin.holder.email && admin.holder.Verifies(plainPassword)
      ensures r.Ok? ==> r.value == admin
      ensures r.Err? ==> r.error == LoginFail
    {
      if email == admin.holder.email {
        var ok := admin.holder.VerifyLogin(plainPassword);
        if ok {
          return Ok(admin);
        }
      }
      return Err(LoginFail);
    }
  }
}
