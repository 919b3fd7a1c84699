# Transit fare cards, route finding, and two small games: a Dafny model

This project models the core of a Toronto-style transit fare system:

- **Cards.** A card carries a balance, the transit passes bought on it, a fare log and a pass log, and the journeys made with it.
- **Taps.** Tapping into a bus or subway starts a journey or continues one. Continuing is allowed within two hours when the station matches where the last leg ended.
  - A bus tap-in is charged the bus fare, capped so that a journey never costs more than the maximum fare.
  - A subway leg is charged per station on tap-out.
  - A tap that does not fit the journey in progress is fined.
  - A valid pass makes the tap free.
- **Accounts and payments.**
  - Transit users hold cards, load value and buy passes.
  - Money comes in through pending payments, which the administrator confirms or declines.
  - Accounts are looked up by email, with passwords kept as hex SHA-256 digests.
- **Route finder.** It builds the station graph from the subway and bus route tables. It then answers:
  - shortest hop counts;
  - shortest paths;
  - a printed itinerary with its transfers.
- **Station file.** The route tables are saved to a text file and read back from it.
- **Statistics.** Daily and monthly figures are collected over all cards: stops reached and revenue.
- **Edit-card checks.** The card-editing screen checks the credit-card details and the amount to load.
- **Tournament (assignment 1).** Players and games each list the other, kept consistent through their `equals` methods.
- **Farm (assignment 2).** Farm objects are clamped to a bounded field. The shared food queue and manure list each hold at most 20 entries. Old manure is swept away on every frame.

How the model represents the system:

- **Money:** integer cents.
- **Time:**
  - An instant is integer nanoseconds.
  - A date is a day number.
  - The calendar (year and month of a day, date text) is an explicit parameter.
- **Values and objects:**
  - Journeys and their legs are values (`Trips.Trip`, `Legs.SubTrip`).
  - Objects the source changes in place are classes with `modifies` clauses: `Cards.Card`, `Accounts.Registry`, `Routes.RouteFinder`, `Farm.Field`, `Tournament.Player` and others.
  - Each card method is proved equal to a pure function of module `Tapping`, and the fare rules are proved about those functions in `TapRules`.
- **Static registries:** the source's static registries (all cards, all accounts, the pending payments, the route tables) are objects passed explicitly.
- **Iteration order:** a HashMap's iteration order is a parameter listing its keys once each.

## Model

P stands for `project/TransitSystem/src/TransitSystemClasses` in the source column below.

| member | source | states |
|---|---|---|
| Fares.RatesListsEveryRate | project/TransitSystem/src/TransitSystemClasses/Fares.java:6-14 | the rate list holds every rate exactly once |
| Fares.Default | project/TransitSystem/src/TransitSystemClasses/Fares.java:7-14 | every rate starts at a positive price in cents |
| Fares.FareTable.constructor | project/TransitSystem/src/TransitSystemClasses/Fares.java:6-20 | a new table holds the default price for every rate |
| Fares.FareTable.SetFare | project/TransitSystem/src/TransitSystemClasses/Fares.java:56-58 | the rate gets the new price and every other rate keeps its own |
| Fares.InfoTextPieces | project/TransitSystem/src/TransitSystemClasses/Fares.java:29-54 | splitting the fare information at every line separator gives one caption-and-price line per rate, then the empty piece after the last separator |
| Fares.SplitInfo | project/TransitSystem/src/TransitSystemClasses/Fares.java:29-54 | splitting the text at line separators gives back the lines, one per rate in order |
| Fares.FareInfoLines | project/TransitSystem/src/TransitSystemClasses/Fares.java:29-54 | line i of the fare information is rate i's caption followed by its current price |
| Passes.MakeTransitPass | project/TransitSystem/src/TransitSystemClasses/TransitPass.java:29-41 | the pass ends `duration` days after its start; 7 days makes a weekly pass at the weekly rate, any other duration a monthly pass at the monthly rate |
| Passes.ValidDays | project/TransitSystem/src/TransitSystemClasses/TransitPass.java:49-52 | a pass of at least one day is valid exactly from its start day up to the day before its end; any other pass only on its start day |
| Passes.DescribedLastDay | project/TransitSystem/src/TransitSystemClasses/TransitPass.java:55-58 | the last day printed, the day before the end, is the last day the pass is valid |
| Clock.DateOf | project/TransitSystem/src/TransitSystemClasses/Card.java:183 | toLocalDate: an instant falls on its day, from midnight inclusive to the next midnight exclusive |
| Clock.MinutesBetween | project/TransitSystem/src/TransitSystemClasses/Trip.java:79 | until(MINUTES): the whole minutes between two instants, truncated toward zero in either direction |
| Logs.PutGet | project/TransitSystem/src/TransitSystemClasses/Card.java:168 | after put, the key reads back the new amount and every other key its old one |
| Logs.PutSorted | project/TransitSystem/src/TransitSystemClasses/Card.java:44-46 | put keeps the log sorted by time with distinct keys, as a TreeMap is |
| Logs.PutLength | project/TransitSystem/src/TransitSystemClasses/Card.java:168 | put adds one entry for a new key and replaces the entry of an existing one |
| Logs.PutFrom | project/TransitSystem/src/TransitSystemClasses/Card.java:168 | every entry after put is either the new entry or one of the old ones |
| Logs.GetAbove | project/TransitSystem/src/TransitSystemClasses/Card.java:44 | an instant before the first entry of an ordered log has no entry |
| Cards.LastThree | project/TransitSystem/src/TransitSystemClasses/Card.java:117-128 | the three latest journeys, newest first, with empty places when there are fewer |
| Cards.Card.constructor | project/TransitSystem/src/TransitSystemClasses/Card.java:59-65 | a new card holds 19 dollars, is activated, has no passes, log entries or journeys, and its fine is the fine rate of that moment |
| Cards.Card.AddBalance | project/TransitSystem/src/TransitSystemClasses/Card.java:104-109 | the balance grows by the amount and nothing else changes |
| Cards.Card.SetActivated | project/TransitSystem/src/TransitSystemClasses/Card.java:540-542 | only the activated flag changes |
| Cards.Card.GetLastThreeTrips | project/TransitSystem/src/TransitSystemClasses/Card.java:117-128 | the loop returns the three latest journeys, newest first |
| Cards.Card.AddTransitPass | project/TransitSystem/src/TransitSystemClasses/Card.java:137-154 | the card's new state is `Tapping.AddTransitPass`: LowBalance and no change when the price exceeds the balance, else paid, logged and kept |
| Cards.Card.HasValidPass | project/TransitSystem/src/TransitSystemClasses/Card.java:182-193 | true exactly when some pass is valid on the day; the pass list left is `Tapping.DropInvalid` of the old one |
| Cards.Card.PayFare | project/TransitSystem/src/TransitSystemClasses/Card.java:162-173 | the card's new state and the amount charged are those of `Tapping.PayFare` |
| Cards.Card.StartTrip | project/TransitSystem/src/TransitSystemClasses/Card.java:200-203 | the state is `Tapping.BeginTrip`: a new one-leg journey is appended and current |
| Cards.Card.ClearTrip | project/TransitSystem/src/TransitSystemClasses/Card.java:208-210 | no journey is current any more; nothing else changes |
| Cards.Card.SetLastFare | project/TransitSystem/src/TransitSystemClasses/Card.java:279 | the state is `Tapping.RecordFare`: the current journey's last leg records the fare |
| Cards.Card.ChargeLast | project/TransitSystem/src/TransitSystemClasses/Card.java:278-279 | the state after charging and recording the fare is `Tapping.ChargeLeg` |
| Cards.Card.CapFare | project/TransitSystem/src/TransitSystemClasses/Card.java:268-272 | the bus fare cut to what is left under the cap, given the current journey's fares so far |
| Cards.Card.Join | project/TransitSystem/src/TransitSystemClasses/Card.java:258-286 | the tap-in either continues the current journey or starts a new one, as `Tapping.JoinLeg` decides |
| Cards.Card.TapIntoBus | project/TransitSystem/src/TransitSystemClasses/Card.java:255-290 | the new state is `Tapping.TapIntoBus` of the old one |
| Cards.Card.TapIntoSubway | project/TransitSystem/src/TransitSystemClasses/Card.java:406-450 | the new state is `Tapping.TapIntoSubway` of the old one |
| Cards.Card.FinishCurrent | project/TransitSystem/src/TransitSystemClasses/Card.java:306-308 | the open leg is closed at the exit; the new state is `Tapping.FinishLast` |
| Cards.Card.Failed | project/TransitSystem/src/TransitSystemClasses/Card.java:312-330 | a failed tap-out charges the fine; the new state is `Tapping.FinishFailed` |
| Cards.Card.TapOutOfBus | project/TransitSystem/src/TransitSystemClasses/Card.java:298-332 | the new state is `Tapping.TapOutOfBus` of the old one |
| Cards.Card.TapOutOfSubway | project/TransitSystem/src/TransitSystemClasses/Card.java:340-397 | the new state is `Tapping.TapOutOfSubway` of the old one |
| Cards.Card.TapCard | project/TransitSystem/src/TransitSystemClasses/Card.java:221-246 | the new state and the error are those of `Tapping.TapCard`; a refused tap changes nothing |
| Tapping.DropInvalid | project/TransitSystem/src/TransitSystemClasses/Card.java:182-193 | what is left is a suffix of the passes that is empty or starts with a valid pass, and every pass removed was invalid on the day |
| Tapping.DropInvalidMeaning | project/TransitSystem/src/TransitSystemClasses/Card.java:182-193 | something is left exactly when some pass is valid on the day |
| Tapping.DropInvalidUnique | project/TransitSystem/src/TransitSystemClasses/Card.java:182-193 | what is left is determined: it is the suffix that starts at the first valid pass |
| Tapping.PayFare | project/TransitSystem/src/TransitSystemClasses/Card.java:162-173 | the balance, the fare log and the pass list change: the expired passes at the front of the list are dropped. Activation, journeys, the current flag and the pass log are kept, and the card stays coherent |
| Tapping.PayFareCharges | project/TransitSystem/src/TransitSystemClasses/Card.java:162-173 | the charge is 0 under a pass valid that day, else the fare; the balance falls by the charge; the log holds it at the instant and keeps every other entry |
| Tapping.PayFarePrunes | project/TransitSystem/src/TransitSystemClasses/Card.java:162-193 | hasValidPass leaves the passes from the first one valid that day on; the list is empty exactly when no pass was valid, a pass is left only when nothing was charged, and activation is kept |
| Tapping.TwoChargesOneEntry | project/TransitSystem/src/TransitSystemClasses/Card.java:162-173 | a fine and a fare at the same instant are both debited, but the log keeps only the fare |
| Tapping.BeginTrip | project/TransitSystem/src/TransitSystemClasses/Card.java:200-203 | a new one-leg journey is appended and becomes current, and the card stays coherent |
| Tapping.RecordFare | project/TransitSystem/src/TransitSystemClasses/Card.java:278-279 | the current journey's last leg records the fare; the current flag, the number of journeys and coherence are kept |
| Tapping.ChargeLeg | project/TransitSystem/src/TransitSystemClasses/Card.java:278-279 | the current flag, the number of journeys and coherence are kept; what is charged is stated by `TapRules.ChargeLegEffect` |
| Tapping.JoinLeg | project/TransitSystem/src/TransitSystemClasses/Card.java:258-286 | afterwards a journey is current and ends with the new leg, and the card stays coherent |
| Tapping.TapIntoBus | project/TransitSystem/src/TransitSystemClasses/Card.java:255-290 | the card stays coherent and a journey is current afterwards; the charge is stated by `TapRules.BusTapInCap` and `TapRules.BusTapInNewJourney` |
| Tapping.TapIntoSubway | project/TransitSystem/src/TransitSystemClasses/Card.java:406-450 | the card stays coherent and a journey is current afterwards; `TapRules.SubwayTapInFree` states that nothing is charged |
| Tapping.FinishLast | project/TransitSystem/src/TransitSystemClasses/Card.java:299-311 | the current journey's last leg becomes what finishTrip leaves; the number of journeys is kept |
| Tapping.FinishFailed | project/TransitSystem/src/TransitSystemClasses/Card.java:312-330 | the journey stays current unless the exit was on the wrong route; the number of journeys is kept |
| Tapping.TapOutOfBus | project/TransitSystem/src/TransitSystemClasses/Card.java:298-332 | the card stays coherent and keeps its number of journeys; the outcomes are stated in `TapRules` |
| Tapping.TapOutOfSubway | project/TransitSystem/src/TransitSystemClasses/Card.java:340-397 | the card stays coherent and keeps its number of journeys; the outcomes are stated in `TapRules` |
| Tapping.TapCard | project/TransitSystem/src/TransitSystemClasses/Card.java:221-246 | LowBalance exactly for a negative balance, CardSuspended exactly for a deactivated card with none; a route of neither table changes nothing |
| TapRules.ChargeLegEffect | project/TransitSystem/src/TransitSystemClasses/Card.java:278-279 | charging debits the charge (0 under a valid pass), logs it at the instant and records it on the last leg, so the journey's total moves by the difference; earlier journeys are untouched |
| TapRules.TapInFinesOpenLeg | project/TransitSystem/src/TransitSystemClasses/Card.java:273-280 | a tap-in while the last leg is open fines that leg, records the fine on it and starts a new journey with the new leg |
| TapRules.TapInStartsJourney | project/TransitSystem/src/TransitSystemClasses/Card.java:258-285 | a tap-in that cannot continue the journey starts a new current journey of one leg and charges nothing for it |
| TapRules.TapInContinues | project/TransitSystem/src/TransitSystemClasses/Card.java:264-268 | a continuing tap-in appends the leg to the current journey and changes nothing else |
| TapRules.SubwayTapInFree | project/TransitSystem/src/TransitSystemClasses/Card.java:406-450 | entering the subway with no open leg changes neither the balance, the log nor the passes |
| TapRules.BusTapInCap | project/TransitSystem/src/TransitSystemClasses/Card.java:255-290 | a continuing bus leg is charged the bus fare cut to what is left under the cap; without a pass the journey's fares then total the smaller of the cap and the uncapped sum (a journey over the cap is refunded the excess) |
| TapRules.BusTapInNewJourney | project/TransitSystem/src/TransitSystemClasses/Card.java:255-290 | a bus leg starting a journey is charged the whole bus fare, or nothing under a pass |
| TapRules.TapOutWithoutJourney | project/TransitSystem/src/TransitSystemClasses/Card.java:298-304 | a tap-out with no journey under way charges the fine and changes no journey |
| TapRules.TapOutOfFinishedLeg | project/TransitSystem/src/TransitSystemClasses/Card.java:312-316 | a tap-out whose last leg has already ended charges the fine and changes no journey |
| TapRules.WrongRouteExit | project/TransitSystem/src/TransitSystemClasses/Card.java:317-330 | an exit the leg may not end on charges the fine, records it on the open leg, and leaves no journey current |
| TapRules.BusExitFree | project/TransitSystem/src/TransitSystemClasses/Card.java:305-311 | a proper bus exit charges nothing, and the leg ends at the exit station |
| TapRules.SubwayExitCharges | project/TransitSystem/src/TransitSystemClasses/Card.java:353-371 | a proper subway exit charges the distance fare cut to what is left under the cap (or nothing under a pass) and records it on the leg |
| TapRules.RefusedTapsChangeNothing | project/TransitSystem/src/TransitSystemClasses/Card.java:221-232 | a card with a negative balance or a suspended card is refused; a negative balance is checked first |
| TapRules.BusRouteFirst | project/TransitSystem/src/TransitSystemClasses/Card.java:233-245 | a route in the bus table is tapped as a bus route, even when the subway table has it too |
| Legs.NewLeg | project/TransitSystem/src/TransitSystemClasses/SubTrip.java:10-31 | a new leg is en route from its station and time, with no fare, no stops and no link |
| Legs.IndexIn | project/TransitSystem/src/TransitSystemClasses/BusSubTrip.java:53-54 | the first position of a station on a route, or -1 when it is absent |
| Legs.GetRoute | project/TransitSystem/src/TransitSystemClasses/BusSubTrip.java:31-34 | the stations of the leg's route, or none for a route the table lacks |
| Legs.SetNumOfStops | project/TransitSystem/src/TransitSystemClasses/BusSubTrip.java:50-56 | the stop count is set when it can be computed; the NullPointerException otherwise |
| Legs.FinishTrip | project/TransitSystem/src/TransitSystemClasses/SubTrip.java:52-59 | a finished leg raises TripNotEnRoute; an exit endTrip rejects leaves the leg as it was; otherwise the leg ends at the exit and its stops are counted |
| Legs.CalculateFare | project/TransitSystem/src/TransitSystemClasses/SubwaySubTrip.java:32-40 | a bus leg costs the fare per trip; a subway leg still en route raises TripEnRoute |
| Legs.SetConnection | project/TransitSystem/src/TransitSystemClasses/SubTrip.java:119-124 | refused exactly while the leg is en route; otherwise only the link is set |
| Legs.SetFare | project/TransitSystem/src/TransitSystemClasses/SubTrip.java:130-132 | only the fare changes, to the value given |
| Legs.GetTimeEnd | project/TransitSystem/src/TransitSystemClasses/SubTrip.java:142-147 | refused with TripEnRoute exactly while the leg is en route |
| Legs.SubwayFareIsPerStop | project/TransitSystem/src/TransitSystemClasses/SubwaySubTrip.java:32-40 | a finished subway leg costs the station fare times the stops finishTrip counted |
| Legs.SubwayStopsAreDistance | project/TransitSystem/src/TransitSystemClasses/SubwaySubTrip.java:65-69 | a subway leg's stops are the hop distance in the subway graph, or 12 when the stations are not connected |
| Legs.SubwayGraphOrderFree | project/TransitSystem/src/TransitSystemClasses/SubwaySubTrip.java:65-69 | the stop count does not depend on the order the route table is iterated in |
| Legs.BusStopsAreIndexDistance | project/TransitSystem/src/TransitSystemClasses/BusSubTrip.java:50-56 | a bus leg's stops are the distance between the two stations' first positions on its route, the same in either direction |
| Trips.NewTrip | project/TransitSystem/src/TransitSystemClasses/Trip.java:16-18 | a journey whose one leg is both its first and its last |
| Trips.AppendTrip | project/TransitSystem/src/TransitSystemClasses/Trip.java:56-81 | EnRoute exactly while the last leg is open; CanNotContinue when the leg starts elsewhere or more than 120 minutes after the journey; otherwise the leg is appended and the old last leg linked to it |
| Trips.AppendAddsFare | project/TransitSystem/src/TransitSystemClasses/Trip.java:56-62 | appending adds the new leg's fare to the journey's total |
| Trips.CurrentTotalFare | project/TransitSystem/src/TransitSystemClasses/Trip.java:86-94 | the loop returns the sum of the legs' fares |
| Trips.SetEndFare | project/TransitSystem/src/TransitSystemClasses/Trip.java:86-94 | changing the last leg's fare changes the total by the difference |
| Trips.TotalStops | project/TransitSystem/src/TransitSystemClasses/Trip.java:99-124 | the loop returns the stops counted on the legs of one mode |
| Trips.TotalBusStop | project/TransitSystem/src/TransitSystemClasses/Trip.java:99-109 | the stops of the bus legs |
| Trips.TotalSubwayStation | project/TransitSystem/src/TransitSystemClasses/Trip.java:114-124 | the stations of the subway legs |
| Trips.CompareToMeaning | project/TransitSystem/src/TransitSystemClasses/Trip.java:131-140 | -1, 0 or 1 as the other journey starts a whole minute later, within a minute, or a minute earlier; swapping the two negates the answer |
| Trips.GetEnumeratedTrips | project/TransitSystem/src/TransitSystemClasses/Trip.java:26-47 | the loop builds the numbered list of the journeys up to the first empty place |
| Trips.EnumeratedStopsAtMissing | project/TransitSystem/src/TransitSystemClasses/Trip.java:34-38 | journeys after an empty place are not listed |
| Users.HexByte | project/TransitSystem/src/TransitSystemClasses/User.java:59-63 | a byte becomes two lower-case hex digits, high nibble first |
| Users.HexEncode | project/TransitSystem/src/TransitSystemClasses/User.java:56-66 | the loop produces `Users.Hex` of the digest, two hex digits per byte |
| Users.HexRoundTrip | project/TransitSystem/src/TransitSystemClasses/User.java:52-71 | the hex text decodes back to the digest's bytes |
| Users.HexInjective | project/TransitSystem/src/TransitSystemClasses/User.java:52-71 | different digests give different hex texts |
| Users.User.constructor | project/TransitSystem/src/TransitSystemClasses/User.java:28-33 | the user keeps the names and email; a password verifies exactly when its digest equals the given password's |
| Users.User.GetSHA256 | project/TransitSystem/src/TransitSystemClasses/User.java:52-71 | the stored text is the hex encoding of the digest of the password |
| Users.User.VerifyLogin | project/TransitSystem/src/TransitSystemClasses/User.java:41-43 | a password verifies exactly when its digest's hex text equals the stored one |
| Users.User.SetPassword | project/TransitSystem/src/TransitSystemClasses/User.java:91 | the new password verifies afterwards, and so does exactly any password with the same digest |
| Users.User.GetName | project/TransitSystem/src/TransitSystemClasses/User.java:73-75 | the full name is the first name, a space and the last name |
| Users.User.NameSplits | project/TransitSystem/src/TransitSystemClasses/User.java:73-75 | when the first name holds no space, the first space of the full name ends it |
| Users.User.SetName | project/TransitSystem/src/TransitSystemClasses/User.java:81-84 | both names are replaced |
| Accounts.DrawDigits | project/TransitSystem/src/TransitSystemClasses/Payment.java:45-51 | the id has one decimal digit per random draw, in draw order |
| Accounts.TransitUser.constructor | project/TransitSystem/src/TransitSystemClasses/TransitUser.java:23-26 | a new transit user holds no cards |
| Accounts.TransitUser.AddCard | project/TransitSystem/src/TransitSystemClasses/TransitUser.java:42-46 | a card already held is not added twice, so the list stays free of repeats |
| Accounts.TransitUser.RemoveCard | project/TransitSystem/src/TransitSystemClasses/TransitUser.java:53-59 | CardNotFound exactly when the card is not held; otherwise the card's first occurrence leaves the list |
| Accounts.ReceiptShowsId | project/TransitSystem/src/TransitSystemClasses/Payment.java:121-151 | a receipt begins with its caption and then the transaction id |
| Accounts.ReceiptDeterminesId | project/TransitSystem/src/TransitSystemClasses/Payment.java:121-151 | two equal receipts with ids of the same length carry the same id |
| Accounts.ReceiptMasksNumber | project/TransitSystem/src/TransitSystemClasses/Payment.java:127-129 | the first twelve characters of the credit card number never show |
| Accounts.Payment.constructor | project/TransitSystem/src/TransitSystemClasses/Payment.java:40-54 | a new payment is pending, not accepted and has no time |
| Accounts.Payment.Status | project/TransitSystem/src/TransitSystemClasses/Payment.java:140-149 | the status line reads pending exactly when the payment is |
| Accounts.Payment.Text | project/TransitSystem/src/TransitSystemClasses/Payment.java:121-151 | the text exists exactly when the credit card number has at least 12 characters |
| Accounts.SameTextSameId | project/TransitSystem/src/TransitSystemClasses/Payment.java:73-79 | a payment's text identifies its transaction id |
| Accounts.Find | project/TransitSystem/src/TransitSystemClasses/Payment.java:73-79 | a pending payment whose text matches; NullPointer exactly when every text can be made and none matches; the substring error only when some text cannot be made |
| Accounts.TransitUserAccount.constructor | project/TransitSystem/src/TransitSystemClasses/TransitUserAccount.java:53-56 | the account is registered under its holder's email |
| Accounts.TransitUserAccount.AddValue | project/TransitSystem/src/TransitSystemClasses/TransitUserAccount.java:169-184 | IncorrectOwner, then InvalidLoadAmount unless the amount is $10, $20, $50 or $100; otherwise one new pending payment of that amount, and the substring error when the credit card number is under 12 characters |
| Accounts.TransitUserAccount.DeactivateCard | project/TransitSystem/src/TransitSystemClasses/TransitUserAccount.java:187-193 | the owner's card is deactivated; anyone else's is refused unchanged |
| Accounts.TransitUserAccount.ActivateCard | project/TransitSystem/src/TransitSystemClasses/TransitUserAccount.java:201-207 | the owner's card is activated; anyone else's is refused unchanged |
| Accounts.TransitUserAccount.ViewCardRecentTrip | project/TransitSystem/src/TransitSystemClasses/TransitUserAccount.java:216-226 | the owner sees the card's three latest journeys, numbered; others get IncorrectOwner |
| Accounts.RecentTripCount | project/TransitSystem/src/TransitSystemClasses/TransitUserAccount.java:216-226 | the view lists three journeys, or all of them when there are fewer |
| Accounts.TransitUserAccount.RemoveCard | project/TransitSystem/src/TransitSystemClasses/TransitUserAccount.java:252-265 | SingleCard for the only card, then IncorrectOwner; then the balance moves to the other card before the card is looked up |
| Accounts.TransitUserAccount.FinalizePurchaseCard | project/TransitSystem/src/TransitSystemClasses/TransitUserAccount.java:272-279 | a fresh card with the drawn number is registered and added to the holder's cards |
| Accounts.TransitUserAccount.PurchaseCard | project/TransitSystem/src/TransitSystemClasses/TransitUserAccount.java:288-293 | one new pending payment of the new-card price plus the initial value; the substring error when the credit card number is under 12 characters |
| Accounts.TransitUserAccount.PurchaseTransitPass | project/TransitSystem/src/TransitSystemClasses/TransitUserAccount.java:306-319 | IncorrectOwner, then InvalidPassDuration unless 7 or 30 days; then the card buys the pass or refuses it for a low balance |
| Accounts.AdminUserAccount.constructor | project/TransitSystem/src/TransitSystemClasses/AdminUserAccount.java:34-36 | the account keeps its holder |
| Accounts.AdminUserAccount.HandleTransaction | project/TransitSystem/src/TransitSystemClasses/AdminUserAccount.java:71-77 | the payment the lookup finds leaves the pending list. Approval stamps it with the instant, carries out its purpose (value loaded on the card, or a fresh card registered to the buyer) and leaves accounts and admin alone. Decline keeps its time and card number and changes no card or account. Every other pending payment and its card or holder is unchanged. A lookup error is returned with nothing changed |
| Accounts.AdminUserAccount.HandleChangePassword | project/TransitSystem/src/TransitSystemClasses/AdminUserAccount.java:85-93 | the password changes exactly when the old one verifies; afterwards the new one verifies |
| Accounts.AdminUserAccount.HandleChangePrice | project/TransitSystem/src/TransitSystemClasses/AdminUserAccount.java:98-101 | the rate gets the new price and every other rate keeps its own |
| Accounts.Registry.constructor | project/TransitSystem/src/TransitSystemClasses/DataSource.java:42-47 | empty registries and the default administrator, Super Admin, admin@example.com, whose password "password" verifies |
| Accounts.Registry.AddPending | project/TransitSystem/src/TransitSystemClasses/Payment.java:40-54 | a fresh payment with a 10-digit id drawn from the draws joins the end of the pending list |
| Accounts.Registry.Search | project/TransitSystem/src/TransitSystemClasses/Payment.java:73-79 | the loop finds what `Accounts.Find` specifies |
| Accounts.Registry.ConfirmFinalize | project/TransitSystem/src/TransitSystemClasses/Payment.java:84-93 | the purpose is carried out (value loaded onto the card, or a fresh card registered to the buyer and recorded as accepted); the payment leaves the pending list, accepted at the instant; accounts, admin and every other pending payment with its card or holder are unchanged |
| Accounts.Registry.Settle | project/TransitSystem/src/TransitSystemClasses/Payment.java:86-89 | the payment leaves the pending list, accepted and timed |
| Accounts.Registry.RejectFinalize | project/TransitSystem/src/TransitSystemClasses/Payment.java:98-106 | the payment leaves the pending list, rejected, with its time, card number and card or holder untouched; the registry's cards, accepted list, accounts and every other pending payment are unchanged |
| Accounts.Registry.ConfirmId | project/TransitSystem/src/TransitSystemClasses/Payment.java:59-61 | the payment the lookup finds is confirmed, with all of ConfirmFinalize's effects and frame; the lookup's error otherwise, with the registry, every pending payment and its card or holder unchanged |
| Accounts.Registry.DeclineId | project/TransitSystem/src/TransitSystemClasses/Payment.java:66-68 | the payment the lookup finds is declined, with all of RejectFinalize's effects and frame; the lookup's error otherwise, with the registry, every pending payment and its card or holder unchanged |
| Accounts.Registry.HandleTransitUserLogin | project/TransitSystem/src/TransitSystemClasses/TransitUserAccount.java:66-80 | the account is returned exactly when the email is registered and the password verifies; LoginFail otherwise |
| Accounts.Registry.HandleNewAccount | project/TransitSystem/src/TransitSystemClasses/TransitUserAccount.java:91-101 | UserExist exactly for a registered email; otherwise a fresh user and account with no cards under that email |
| Accounts.Registry.HandleAdminLogin | project/TransitSystem/src/TransitSystemClasses/AdminUserAccount.java:46-62 | the administrator exactly when both the email and the password match; LoginFail otherwise |
| Storage.LinesUnlines | project/TransitSystem/src/GUI/Main.java:88-89 | reading the lines of written lines gives them back |
| Storage.RouteLines | project/TransitSystem/src/TransitSystemClasses/DataSource.java:138-151 | one line per route, in iteration order, each giving the route's name, type and stations |
| Storage.WriteRoute | project/TransitSystem/src/TransitSystemClasses/DataSource.java:139-143 | one route's line and the separator are appended |
| Storage.WriteTable | project/TransitSystem/src/TransitSystemClasses/DataSource.java:138-144 | the loop appends the lines of every route of the table |
| Storage.SaveStations | project/TransitSystem/src/TransitSystemClasses/DataSource.java:135-154 | the file holds the subway lines, then the bus lines |
| Storage.BlankIsTrimEmpty | project/TransitSystem/src/GUI/Main.java:90-92 | a line is blank exactly when trimming leaves it empty |
| Storage.ReadLine | project/TransitSystem/src/GUI/Main.java:89-114 | one line puts its route into the subway or bus table, or fails on bad bounds or an unknown transit type |
| Storage.ReadStations | project/TransitSystem/src/GUI/Main.java:75-119 | the tables are what reading the file's lines in order gives |
| Storage.ParseAt | project/TransitSystem/src/GUI/Main.java:93-100 | a line with its delimiters in order parses into the three fields between them |
| Storage.ParseRouteLine | project/TransitSystem/src/GUI/Main.java:93-106 | a written route line parses back into its name, type and stations |
| Storage.SplitStations | project/TransitSystem/src/GUI/Main.java:100-106 | splitting at '-' and trimming gives back plain stations joined by " - " |
| Storage.StepParsed | project/TransitSystem/src/GUI/Main.java:107-110 | a parsed route goes into the table its type names |
| Storage.ReadParsed | project/TransitSystem/src/GUI/Main.java:88-115 | reading lines of one type puts their routes, in order, into that table |
| Storage.ReadBoth | project/TransitSystem/src/GUI/Main.java:88-118 | reading the subway lines and then the bus lines builds both tables |
| Storage.FileLines | project/TransitSystem/src/TransitSystemClasses/DataSource.java:135-154 | the lines of the saved file are the route lines written |
| Storage.StationFileRoundTrip | project/TransitSystem/src/GUI/Main.java:75-119 | reading restores both tables from the file written, when names are plain and no route is empty |
| Storage.ReadFirst | project/TransitSystem/src/GUI/Main.java:107-110 | reading a parsed first line goes on with its route in its table |
| Storage.ReadOnly | project/TransitSystem/src/GUI/Main.java:107-110 | a single parsed line puts its route into its table |
| Storage.LaterWins | project/TransitSystem/src/GUI/Main.java:107-110 | of two lines for the same route and type, the later one is kept |
| Storage.LaterLineWins | project/TransitSystem/src/GUI/Main.java:107-110 | a later written line for a route replaces the earlier one |
| Storage.BlankLineEnds | project/TransitSystem/src/GUI/Main.java:90-92 | nothing after the first blank line is read |
| Storage.KindsArePlain | project/TransitSystem/src/GUI/Main.java:107-109 | the written types "Subway" and "Bus" match the case-insensitive tests, and only their own |
| Storage.SaveRates | project/TransitSystem/src/TransitSystemClasses/DataSource.java:156-161 | the loop stores each rate's price under its name |
| Storage.SaveFares | project/TransitSystem/src/TransitSystemClasses/DataSource.java:156-161 | the saved fares map has one entry per rate name, holding its current price |
| RouteGraph.SelectRoutes | project/TransitSystem/src/TransitSystemClasses/RouteFinder.java:24-41 | "Subway" selects the subway routes, "All" both tables with bus routes replacing same-named subway ones, anything else none |
| RouteGraph.ListRouteSpec | project/TransitSystem/src/TransitSystemClasses/RouteFinder.java:44-51 | the first pass over a route creates each new station and lists the route on each known one |
| RouteGraph.ListRoutesSpec | project/TransitSystem/src/TransitSystemClasses/RouteFinder.java:42-53 | every station of the routes read lists each route once per time the route names it |
| RouteGraph.LinkRouteEffect | project/TransitSystem/src/TransitSystemClasses/RouteFinder.java:57-65 | after a route, each station is linked to its neighbours on it, labelled with the route |
| RouteGraph.LinkRoutesEffect | project/TransitSystem/src/TransitSystemClasses/RouteFinder.java:55-66 | two stations are linked exactly when consecutive on some route, labelled by the last such route read |
| RouteGraph.BuildLinksSpec | project/TransitSystem/src/TransitSystemClasses/RouteFinder.java:24-68 | the built graph links exactly the stations consecutive on some route |
| RouteGraph.BuildLinksSymmetric | project/TransitSystem/src/TransitSystemClasses/RouteFinder.java:55-66 | every link goes both ways |
| RouteGraph.LinkOrderFree | project/TransitSystem/src/TransitSystemClasses/RouteFinder.java:55-66 | whether two stations are linked does not depend on the iteration order |
| RouteGraph.GraphOrderFree | project/TransitSystem/src/TransitSystemClasses/RouteFinder.java:24-68 | the station graph is the same for every iteration order of the table |
| Routes.Station.constructor | project/TransitSystem/src/TransitSystemClasses/Station.java:18-22 | a new station lists its first route and has no neighbours |
| Routes.Station.AddRoute | project/TransitSystem/src/TransitSystemClasses/Station.java:28-30 | the route is appended even when already listed |
| Routes.Station.AddNext | project/TransitSystem/src/TransitSystemClasses/Station.java:36-38 | the neighbour is recorded with the label, replacing an earlier label |
| Routes.FileStations | project/TransitSystem/src/TransitSystemClasses/RouteFinder.java:44-52 | the loop's tables are those of `RouteGraph.ListRoute` |
| Routes.LinkStations | project/TransitSystem/src/TransitSystemClasses/RouteFinder.java:56-65 | the loop's links are those of `RouteGraph.LinkRoute` |
| Routes.CreateStations | project/TransitSystem/src/TransitSystemClasses/RouteFinder.java:42-53 | every station of every route exists, with its route list, and no links |
| Routes.ConnectStations | project/TransitSystem/src/TransitSystemClasses/RouteFinder.java:55-66 | the loop's links are those of `RouteGraph.LinkRoutes` |
| Routes.StationGenerator | project/TransitSystem/src/TransitSystemClasses/RouteFinder.java:24-68 | the station map is the graph of the selected routes |
| Routes.ExpandStation | project/TransitSystem/src/TransitSystemClasses/RouteFinder.java:93-106 | the station's unprocessed neighbours move into the next layer, and reaching the end is noted |
| Routes.ExpandLayer | project/TransitSystem/src/TransitSystemClasses/RouteFinder.java:92-108 | the next layer is the unprocessed stations one link from the current layer |
| Routes.SearchLength | project/TransitSystem/src/TransitSystemClasses/RouteFinder.java:79-117 | the loop returns what `Graphs.ShortestPathLength` specifies |
| Routes.ExpandTreeStation | project/TransitSystem/src/TransitSystemClasses/RouteFinder.java:136-149 | the station's unrecorded neighbours are recorded one link further |
| Routes.ExpandTreeLayer | project/TransitSystem/src/TransitSystemClasses/RouteFinder.java:135-150 | the next layer is recorded at the next distance |
| Routes.SearchTree | project/TransitSystem/src/TransitSystemClasses/RouteFinder.java:123-164 | the loop returns what `Graphs.TreePath` specifies |
| Routes.WalkDown | project/TransitSystem/src/TransitSystemClasses/RouteFinder.java:178-194 | from a station at distance len in the tree, a walk of len links that ends at the root |
| Routes.TracePath | project/TransitSystem/src/TransitSystemClasses/RouteFinder.java:175-195 | a shortest walk from start to end, or RouteNotFound |
| Routes.LabelPath | project/TransitSystem/src/TransitSystemClasses/RouteFinder.java:209-236 | each station of the path is labelled with the route linking it to its neighbour |
| Routes.BuildPlan | project/TransitSystem/src/TransitSystemClasses/RouteFinder.java:247-270 | the loop builds the itinerary `Routes.RoutePlan` describes |
| Routes.RoutePlanOneRoute | project/TransitSystem/src/TransitSystemClasses/RouteFinder.java:258-269 | on a single route the plan names it once and joins the stations with arrows, with no transfer |
| Routes.RouteFinder.constructor | project/TransitSystem/src/TransitSystemClasses/RouteFinder.java:12-14 | the finder's graph is built from the selected routes |
| Routes.RouteFinder.AdjacencySymmetric | project/TransitSystem/src/TransitSystemClasses/RouteFinder.java:55-66 | the station graph is symmetric and closed |
| Routes.RouteFinder.GetShortestPathLength | project/TransitSystem/src/TransitSystemClasses/RouteFinder.java:79-117 | the loop returns `Graphs.ShortestPathLength` of the station graph: the hop distance, or 12 when the end cannot be reached |
| Routes.RouteFinder.GetTreePath | project/TransitSystem/src/TransitSystemClasses/RouteFinder.java:123-164 | a distance tree from end reaching start, or RouteNotFound |
| Routes.RouteFinder.GetShortestPath | project/TransitSystem/src/TransitSystemClasses/RouteFinder.java:175-195 | RouteNotFound exactly when end cannot be reached; otherwise a shortest walk, whose length is getShortestPathLength's |
| Routes.RouteFinder.GetOptimalPath | project/TransitSystem/src/TransitSystemClasses/RouteFinder.java:204-237 | a shortest walk with each station labelled by the route it is reached on |
| Routes.RouteFinder.GetRoutePlan | project/TransitSystem/src/TransitSystemClasses/RouteFinder.java:247-270 | the itinerary of a labelled shortest walk |
| Routes.RouteFinder.LabelIsRoute | project/TransitSystem/src/TransitSystemClasses/RouteFinder.java:214-233 | a label is the last route read on which the two stations are consecutive |
| Graphs.DistanceIsLeast | project/TransitSystem/src/TransitSystemClasses/RouteFinder.java:79-117 | a hop distance is the least number of links that reaches the station |
| Graphs.BfsLoopMeaning | project/TransitSystem/src/TransitSystemClasses/RouteFinder.java:91-115 | the frontier loop returns the distance to the end, or 12 when the search runs dry first |
| Graphs.ShortestPathLengthMeaning | project/TransitSystem/src/TransitSystemClasses/RouteFinder.java:79-117 | for a reachable end the result is its hop distance; for an unreachable one it is 12 |
| Graphs.ShortestPathLengthSymmetric | project/TransitSystem/src/TransitSystemClasses/RouteFinder.java:79-117 | on a symmetric graph, the length from a to b equals that from b to a |
| Graphs.TreeLoopMeaning | project/TransitSystem/src/TransitSystemClasses/RouteFinder.java:134-160 | the tree loop stops at start's layer with a distance tree, or fails when it runs dry |
| Graphs.TreePathMeaning | project/TransitSystem/src/TransitSystemClasses/RouteFinder.java:123-164 | a reachable start yields its distance and a tree of every station up to it |
| Graphs.TreePathOutcome | project/TransitSystem/src/TransitSystemClasses/RouteFinder.java:123-164 | RouteNotFound exactly when start cannot be reached from end |
| Graphs.NeighbourCloser | project/TransitSystem/src/TransitSystemClasses/RouteFinder.java:181-192 | a station i + 1 links away has a neighbour i links away, so the walk down never gets stuck |
| Graphs.ShortestWalkLength | project/TransitSystem/src/TransitSystemClasses/RouteFinder.java:175-195 | a shortest walk has exactly the shortest path length in links |
| Stats.StopsReached | project/TransitSystem/src/TransitSystemClasses/DataGenerator.java:29-40 | the loop adds, over the cards, the stops of one mode on journeys started in the period |
| Stats.NoJourneyNoStops | project/TransitSystem/src/TransitSystemClasses/DataGenerator.java:29-40 | no stop counts unless some journey started in the period |
| Stats.JourneyCountedWhole | project/TransitSystem/src/TransitSystemClasses/DataGenerator.java:35-36 | a journey counts all its stops by its first leg's date |
| Stats.StopSumNonNegative | project/TransitSystem/src/TransitSystemClasses/DataGenerator.java:36-37 | with no negative stop count the figure is not negative |
| Stats.WholeDollarsBounds | project/TransitSystem/src/TransitSystemClasses/DataGenerator.java:90-96 | the cast to int keeps whole dollars and moves the rest toward zero |
| Stats.RevenueAsWritten | project/TransitSystem/src/TransitSystemClasses/DataGenerator.java:87-99 | the loop as written returns the revenue truncated to whole dollars after each card |
| Stats.PeriodRevenue | project/TransitSystem/src/TransitSystemClasses/DataGenerator.java:87-99 | the loop with a cents accumulator returns every amount of every log dated in the period |
| Stats.TruncationLoss | project/TransitSystem/src/TransitSystemClasses/DataGenerator.java:87-99 | with no negative amount, the truncated figure is at most the revenue and under a dollar per card below it |
| Stats.RevenueDropsCents | project/TransitSystem/src/TransitSystemClasses/DataGenerator.java:87-99 | one card with one 50-cent fare today shows a revenue of 0 |
| Stats.NothingDatedNoRevenue | project/TransitSystem/src/TransitSystemClasses/DataGenerator.java:67-79 | a period with no entries counts no revenue in either accumulator |
| Stats.RevenueConcat | project/TransitSystem/src/TransitSystemClasses/DataGenerator.java:89 | revenue adds up over any split of the cards, so their order does not matter |
| Stats.CountIn | project/TransitSystem/src/TransitSystemClasses/DataGenerator.java:108-111 | the number of card purchases confirmed in the period, at most all of them |
| Stats.CardRevenue | project/TransitSystem/src/TransitSystemClasses/DataGenerator.java:107-113 | the purchases in the period times today's new-card price, zero with none, and bounded by all purchases |
| Text.TrimSlice | project/TransitSystem/src/GUI/Main.java:103 | trim is a slice that drops exactly the leading and trailing chars at or below U+0020 |
| Text.TrimEmptyIff | project/TransitSystem/src/GUI/Main.java:90 | trim is empty exactly when every char is at or below U+0020 |
| Text.IndexOf | project/TransitSystem/src/GUI/Main.java:93-94 | the first position of the char, or -1 when it is absent |
| Text.IntToStringRoundTrip | assignment1/src/Player.java:90 | the decimal text of an int reads back as that int |
| Text.Fixed2RoundTrip | project/TransitSystem/src/TransitSystemClasses/Payment.java:138 | a "%.2f" amount reads back as its cents |
| Text.DoubleTextRoundTrip | project/TransitSystem/src/TransitSystemClasses/Fares.java:29-54 | a Double.toString amount below 10^7 dollars reads back as its cents |
| Validators.ValidateCreditCardInfo | project/TransitSystem/src/GUI/EditCardController.java:511-525 | passing needs every entry, a long enough card number and a three-digit CVV |
| Validators.ValidateMeaning | project/TransitSystem/src/GUI/EditCardController.java:511-525 | passes exactly when every entry is present, the trimmed card number has 16 characters and the CVV is three digits |
| Validators.Accepted | project/TransitSystem/src/GUI/EditCardController.java:511-525 | a 16-character trimmed number with a three-digit CVV passes |
| Validators.PaddedNumberAccepted | project/TransitSystem/src/GUI/EditCardController.java:521 | blanks around the card number are tolerated |
| Validators.PaddedCvvRejected | project/TransitSystem/src/GUI/EditCardController.java:521 | a blank before the CVV fails the digit check |
| Validators.LettersPassAsNumber | project/TransitSystem/src/GUI/EditCardController.java:521 | sixteen letters pass as a card number: its characters are not checked |
| Validators.LoadAmount | project/TransitSystem/src/GUI/EditCardController.java:270-280 | an amount exactly when the trimmed input is one or more digits, and it is their value |
| Validators.LoadAmountRoundTrip | project/TransitSystem/src/GUI/EditCardController.java:273-280 | any amount typed in decimal, padded or not, reads back as itself |
| Validators.LoadAmountNeedsDigits | project/TransitSystem/src/GUI/EditCardController.java:274 | a sign, a decimal point or an empty input is refused |
| Tournament.Player.constructor | assignment1/src/Player.java:22-26 | a new player has played no games |
| Tournament.Player.AddGame | assignment1/src/Player.java:51-56 | the game is appended, and the game then has this player, added only if no equal player was there |
| Tournament.Player.ToString | assignment1/src/Player.java:89-97 | the loop builds "name, rank" and then one game id per line |
| Tournament.PlayerTextLines | assignment1/src/Player.java:89-97 | the printed player splits back into its heading and its game ids |
| Tournament.Game.constructor | assignment1/src/Game.java:22-25 | a new game has no players |
| Tournament.Game.AddPlayer | assignment1/src/Game.java:53-58 | the player is appended; the player gets the game exactly when no equal game was listed; each then lists the other |
| Tournament.Game.ToString | assignment1/src/Game.java:122-133 | the loop and the comma deletion build the id and the comma-separated names in brackets |
| Tournament.LastIndexOf | assignment1/src/Game.java:129 | the last position of the char, or -1 when it is absent |
| Tournament.GameTextNames | assignment1/src/Game.java:122-133 | the names read back from between the brackets |
| Tournament.NoPlayersText | assignment1/src/Game.java:122-133 | a game without players prints empty brackets |
| Tournament.EqualsIgnoresOrder | assignment1/src/Game.java:76-92 | games with the same id and the same players in any order are equal |
| Tournament.SamePlayersIsContainment | assignment1/src/Game.java:100-115 | hasSamePlayers is containment and not symmetric |
| Tournament.OnePlayerTwoGames | assignment1/src/Game.java:53-58 | a player added to two games with different ids is listed in both, and both list it |
| Tournament.SameIdGameNotListed | assignment1/src/Game.java:53-58 | a second game with the same id gets the player but is not listed on it |
| Farm.Clamp | assignment2/src/FarmObject.java:119-130 | the clamped value lies in the bounds and is the value itself when it already does |
| Farm.ClampIdempotent | assignment2/src/FarmObject.java:119-130 | clamping twice is clamping once |
| Farm.ClampNearest | assignment2/src/FarmObject.java:119-130 | the clamped point is the in-bounds point nearest the one asked for |
| Farm.FarmObject.constructor | assignment2/src/FarmObject.java:30-34 | the object keeps its appearance, colour and point, unclamped |
| Farm.FarmObject.AtOrigin | assignment2/src/FarmObject.java:42-46 | the object starts at (0, 0), outside the bounds |
| Farm.FarmObject.SetCoordinates | assignment2/src/FarmObject.java:119-131 | both coordinates are clamped into the field, and appearance and colour are unchanged |
| Farm.NewFood | assignment2/src/Food.java:18-20 | food is an orange "%" at the given point |
| Farm.BlowFoodVertical | assignment2/src/Food.java:38-40 | y moves by the wind; then both coordinates are clamped |
| Farm.BlowFoodHorizontal | assignment2/src/Food.java:46-48 | x moves by the wind; then both coordinates are clamped |
| Farm.CalmWindKeepsPlace | assignment2/src/Food.java:38-48 | food in bounds stays where it is in a calm wind |
| Farm.Manure.constructor | assignment2/src/Manure.java:25-28 | manure is a dark brown "*" at the point, stamped with the clock reading |
| Farm.AddedBounded | assignment2/src/Manure.java:36-40 | the capped add never goes past 20 entries and never drops one |
| Farm.Field.constructor | assignment2/src/Manure.java:15 | the food queue and manure list start empty |
| Farm.Field.AddFood | assignment2/src/Food.java:28-32 | the food is queued only below 20, so the cap holds |
| Farm.Field.AddManure | assignment2/src/Manure.java:36-40 | the manure is listed only below 20, so the cap holds |
| Farm.Field.SweepManureAsWritten | assignment2/src/Main.java:146-151 | the loop as written leaves the list of `Farm.SweptAsWritten` |
| Farm.Field.SweepManure | assignment2/src/Main.java:146-151 | the corrected loop leaves exactly the entries that have not expired |
| Farm.FreshExact | assignment2/src/Main.java:146-151 | the intended sweep keeps exactly the unexpired entries, in order |
| Farm.FreshIdempotent | assignment2/src/Main.java:146-151 | sweeping twice clears nothing more |
| Farm.FreshAppend | assignment2/src/Main.java:146-151 | the sweep works entry by entry over any split of the list |
| Farm.SweptKeepsFresh | assignment2/src/Main.java:146-151 | the sweep as written keeps every unexpired entry |
| Farm.SweptShrinks | assignment2/src/Main.java:146-151 | the sweep as written only removes entries |
| Farm.SweepSkipsExpired | assignment2/src/Main.java:146-151 | of two expired entries in a row, the sweep as written keeps the second |
| Farm.AllExpiredHalfSwept | assignment2/src/Main.java:146-151 | when everything has expired, the sweep as written clears half the list, rounded up |

## Left out

- **Logging and I/O:**
  - Logging to files is not modelled.
  - JavaFX windows and alerts are not modelled.
  - Serialisation of the registries (DataSource readFromFile and saveToFile) is not modelled.
  - The file-missing exception of readStations is not modelled; the model reads the file's text.
- **Randomness and the clock.** The random draws for transaction ids and card numbers are parameters, and so is the clock (`LocalDateTime.now()`, `System.currentTimeMillis()`).
- **Accounts.Registry.ConfirmFinalize:** the acceptance instant is a parameter rather than a reading of the clock.
- **Users.User.GetSHA256:** SHA-256 is a function parameter. Only its hex encoding, and what verification means in terms of the digest, are proved.
- **Floating point:**
  - Amounts are exact integer cents where the source uses float and double.
  - `Float.valueOf` rounding of the load amount is not modelled.
- **The calendar:** the year and month of a day, and the text of a date, are a parameter. The day count of a pass's printed period (Period.getDays) is therefore not computed.
- **Omitted operations, which change nothing the model tracks:**
  - TransitUserAccount.changeName and isValidName (a Unicode regular expression).
  - passInfo, viewCardTransactions, averageTransitCostPerMonth and hasPass: reports built from the card state that is modelled.
- **Accounts.TransitUserAccount.ViewCardRecentTrip:** the "not used recently" branch cannot be taken, since getLastThreeTrips always returns three places, so it is not modelled.
- **TransitUser:** it holds its User as a field rather than extending it.
- **readFromFile:** its pruning of logs and journeys older than three years is not modelled.
- **Storage.ReadStations:**
  - Scanner line splitting is modelled for '\n' only.
  - A route name or station holding '(', ':', ';' or '-' is outside the round-trip lemmas.
- **Storage.ReadLine:** the transit type is compared with ASCII-only case folding. Java's equalsIgnoreCase also folds other letters, so a type such as "ſubway" (with U+017F, long s) is a subway line in the source but an unknown transit type here.
- **Line separator:** System.lineSeparator() is fixed to "\n". This affects card receipts, fare information, route plans and Player.toString.
- **HashMap iteration order** is an explicit parameter. It matters to:
  - the station file's line order;
  - the label of a link shared by two routes;
  - the order cards are summed in;
  - the bus table's key order;
  - which of several equally close neighbours the shortest path goes through (Routes.WalkDown picks any one of them).
- **Routes.RouteFinder.GetRoutePlan:** requires different start and end stations, both in the graph, and so do Routes.RouteFinder.GetOptimalPath, Routes.RouteFinder.GetShortestPath and Routes.TracePath. The route planner's "View" button refuses equal stations, but its "subway first" and "not subway first" toggles (RoutePlannerController.java:48-50 and 65-67) call getRoutePlan(s, s). With start equal to end, the source does this:
  - some station cannot be reached from s: RouteNotFoundException;
  - s is the only station: the plan "Start at s", "Take null", "s", or an ArrayIndexOutOfBoundsException when s is linked to itself;
  - every station is one link from s, and s is not linked to itself: a NullPointerException in getRoutePlan;
  - every station is one link from s, and s is linked to itself on route r (a route lists s twice in a row): the plan "Start at s", "Take r", "s --> s";
  - the farthest station is two links away: the round trip s --> B --> s;
  - the farthest station is three or more links away: a NullPointerException in getOptimalPath.
  The model covers none of these outcomes: neither the crashes nor the plans that lead back to s.
- **Routes.RouteFinder.GetTreePath:** requires end to be a station. Its only caller, getShortestPath, always passes a station.
- **Farm animation:**
  - Animal movement, eggs and drawing are not modelled.
  - Each frame's random wind is a parameter of the blow methods.
  - The frame handler's food loop just calls them.
  - The sweep reads the clock once per frame, not once per entry.
  - Coordinates and wind are exact reals. The double rounding of `x + wind` and `y + wind` is not modelled.
- **equals methods:** the null and class checks in Game.equals, Player.equals and hasSamePlayers are not modelled; only objects of the right type are compared.
- **Tournament.java:** not part of this model (a driver with no logic of its own).

## Findings

| source | as written | input that shows it | evidently intended | confidence | as-written member | corrected member |
|---|---|---|---|---|---|---|
| project/TransitSystem/src/TransitSystemClasses/DataGenerator.java:87-99 | the revenue accumulator is an `int`, so each `+=` of a card's double total drops the cents | one card whose only fare today is a subway station of $0.50: the daily fare revenue is 0.0 | a revenue that keeps the cents, returned as a double | not executed | Stats.RevenueAsWritten (Stats.RevenueDropsCents) | Stats.PeriodRevenue (Stats.TruncationLoss) |
| assignment2/src/Main.java:146-151 | after `remove(i)` the loop still increments i, so the entry moving into place i is never examined | two expired manure entries in a row: the second one stays | every expired entry is removed | not executed | Farm.Field.SweepManureAsWritten (Farm.SweepSkipsExpired) | Farm.Field.SweepManure (Farm.FreshExact) |
