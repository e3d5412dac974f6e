/**
 * The customer's booking screen: the accept / counter / reject write sequence with its
 * early aborts, the price the screen shows (the last history entry's price, with no
 * positivity filter), and the condition under which the "Respond" block renders.
 */
module CustomerBookings {
  import opened Common
  import opened JsText
  import opened Bookings
  import WorkerBookings

  datatype Response = Accept | Counter | Reject

  // ---------------------------------------------------------------------------
  // Prices
  // ---------------------------------------------------------------------------

  /** The price on a card and in the "Worker's Latest Offer" panel: the last history entry's
      price when there is any history (which may be null), else the offered price. */
  function ShownPrice(v: BookingView): Option<int> {
    if v.negotiations == [] then Some(v.booking.offeredPrice)
    else v.negotiations[|v.negotiations| - 1].proposedPrice
  }

  /** `selectedBooking?.negotiations?.length ? last.proposed_price : selectedBooking?.offered_price`. */
  function SelectedPrice(selected: Option<BookingView>): Option<int> {
    if selected.None? then None else ShownPrice(selected.value)
  }

  /** The price a counter offer stores: `parseInt(counterOffer)` when the field is filled
      (null when that is NaN), else the selected booking's shown price. */
  function CounterPrice(counterOffer: string, selected: Option<BookingView>): Option<int> {
    if counterOffer != "" then ParseIntAuto(counterOffer) else SelectedPrice(selected)
  }

  /** A counter price typed as a number is stored as that number, and an empty field falls
      back to the last entry's price or the offered price. */
  lemma CounterPriceIsTypedOrShown(k: int, selected: Option<BookingView>)
    ensures CounterPrice(IntToString(k), selected) == Some(k)
    ensures CounterPrice("", selected) == SelectedPrice(selected)
    ensures selected.Some? && selected.value.negotiations == [] ==>
      CounterPrice("", selected) == Some(selected.value.booking.offeredPrice)
  {
    IntToStringRoundTrip(k);
    NatToStringNonEmpty(if k < 0 then -k else k);
  }

  lemma NatToStringNonEmpty(n: nat)
    ensures NatToString(n) != []
  {
  }

  /** The worker's and the customer's price rules agree whenever the history is empty or its
      last entry has a positive price. */
  lemma ResolversAgree(v: BookingView)
    requires v.negotiations == [] || WorkerBookings.HasPositivePrice(v.negotiations[|v.negotiations| - 1])
    ensures ShownPrice(v) == Some(WorkerBookings.EffectivePrice(v.negotiations, v.booking.offeredPrice))
  {
    var negs := v.negotiations;
    if negs != [] {
      assert negs == negs[..|negs| - 1] + [negs[|negs| - 1]];
      WorkerBookings.EffectivePriceAppend(negs[..|negs| - 1], negs[|negs| - 1], v.booking.offeredPrice);
    } else {
      WorkerBookings.EffectivePriceIsLatestOffer(negs, v.booking.offeredPrice);
    }
  }

  /** When the last entry carries no positive price the two rules may differ: after a priced
      offer followed by a plain message without a price, the worker sees the offer and the
      customer sees no price at all. */
  lemma ResolversCanDisagree(b: Booking, offer: Negotiation, note: Negotiation)
    requires offer.proposedPrice == Some(500) && note.proposedPrice == None
    ensures var v := BookingView(b, [offer, note]);
      ShownPrice(v) == None && WorkerBookings.EffectivePrice(v.negotiations, b.offeredPrice) == 500
  {
    WorkerBookings.EffectivePriceAppend([offer], note, b.offeredPrice);
    WorkerBookings.EffectivePriceAppend([], offer, b.offeredPrice);
    WorkerBookings.EffectivePriceIsLatestOffer([], b.offeredPrice);
    assert [offer] + [note] == [offer, note];
    assert [] + [offer] == [offer];
  }

  // ---------------------------------------------------------------------------
  // What a response writes
  // ---------------------------------------------------------------------------

  function ResponseStatus(a: Response): Status {
    match a
    case Accept => Accepted
    case Counter => Negotiating
    case Reject => Cancelled
  }

  /** The booking update of a response, stamped with the clock reading `now`. */
  function StatusUpdate(a: Response, now: string): (p: Patch)
    ensures p.status == ResponseStatus(a) && p.updatedAt == Some(now)
    ensures p.finalPrice.None? && p.scheduledAt.None? && p.completedAt.None?
  {
    Patch(ResponseStatus(a), None, None, None, Some(now))
  }

  /** The ledger row a response inserts: an acceptance or rejection carrying the message and
      the shown price, or a price offer whose message defaults to "Counter offer". */
  function ResponseRow(a: Response, bookingId: string, userId: string, msg: string, counterOffer: string,
                       selected: Option<BookingView>): (n: Negotiation)
    ensures n.bookingId == bookingId && n.senderId == userId
    ensures n.proposedDate.None? && n.proposedTime.None?
    ensures a == Accept ==> n.messageType == Acceptance && n.message == Some(msg) && n.proposedPrice == SelectedPrice(selected)
    ensures a == Reject ==> n.messageType == Rejection && n.message == Some(msg) && n.proposedPrice == SelectedPrice(selected)
    ensures a == Counter ==> n.messageType == PriceOffer && n.proposedPrice == CounterPrice(counterOffer, selected)
    ensures a == Counter ==> n.message == Some(if msg == "" then "Counter offer" else msg)
  {
    var kind := match a case Accept => Acceptance case Reject => Rejection case Counter => PriceOffer;
    var price := if a == Counter then CounterPrice(counterOffer, selected) else SelectedPrice(selected);
    var text := if a == Counter && msg == "" then "Counter offer" else msg;
    Negotiation(bookingId, userId, kind, price, None, None, Some(text))
  }

  /** A typed counter offer that is positive becomes both the worker's effective price and
      the customer's shown price once the row is in the booking's history. */
  lemma CounterOfferReachesBothSides(v: BookingView, userId: string, msg: string, k: int)
    requires k > 0
    ensures var row := ResponseRow(Counter, v.booking.id, userId, msg, IntToString(k), Some(v));
      var after := v.(negotiations := v.negotiations + [row]);
      && WorkerBookings.EffectivePrice(after.negotiations, v.booking.offeredPrice) == k
      && ShownPrice(after) == Some(k)
  {
    CounterPriceIsTypedOrShown(k, Some(v));
    var row := ResponseRow(Counter, v.booking.id, userId, msg, IntToString(k), Some(v));
    WorkerBookings.EffectivePriceAppend(v.negotiations, row, v.booking.offeredPrice);
  }

  // ---------------------------------------------------------------------------
  // The "Respond" block
  // ---------------------------------------------------------------------------

  /** `negotiations.findIndex(n => n.from_worker)`: -1 when there is no worker entry. */
  function FirstWorkerIndex(negs: seq<Negotiation>, isWorker: Negotiation -> bool): (r: int)
    ensures -1 <= r < |negs|
    ensures r >= 0 ==> isWorker(negs[r]) && forall j :: 0 <= j < r ==> !isWorker(negs[j])
    ensures r == -1 ==> forall j :: 0 <= j < |negs| ==> !isWorker(negs[j])
  {
    if negs == [] then -1
    else if isWorker(negs[0]) then 0
    else
      var k := FirstWorkerIndex(negs[1..], isWorker);
      if k == -1 then -1 else k + 1
  }

  /** `negotiations.map((n, i) => n.from_worker ? i : -1).filter(i => i !== -1).pop()`:
      the last worker entry's index, undefined when there is none. */
  function LastWorkerIndex(negs: seq<Negotiation>, isWorker: Negotiation -> bool): (r: Option<int>)
    ensures r.Some? ==> 0 <= r.value < |negs| && isWorker(negs[r.value])
    ensures r.Some? ==> forall j :: r.value < j < |negs| ==> !isWorker(negs[j])
    ensures r.None? ==> forall j :: 0 <= j < |negs| ==> !isWorker(negs[j])
    decreases |negs|
  {
    if negs == [] then None
    else if isWorker(negs[|negs| - 1]) then Some(|negs| - 1)
    else LastWorkerIndex(negs[..|negs| - 1], isWorker)
  }

  /** `negotiations.filter(n => n.from_worker).length`, the "offers received" count. */
  function WorkerCount(negs: seq<Negotiation>, isWorker: Negotiation -> bool): (r: nat)
    ensures r <= |negs|
  {
    if negs == [] then 0
    else (if isWorker(negs[0]) then 1 else 0) + WorkerCount(negs[1..], isWorker)
  }

  predicate HasWorkerEntry(negs: seq<Negotiation>, isWorker: Negotiation -> bool) {
    exists i :: 0 <= i < |negs| && isWorker(negs[i])
  }

  /** The render condition as written: a history, a worker entry, status negotiating, and the
      first worker entry being the last worker entry. */
  predicate RespondShownAsWritten(v: BookingView, isWorker: Negotiation -> bool) {
    && v.negotiations != []
    && HasWorkerEntry(v.negotiations, isWorker)
    && v.booking.status == Negotiating
    && LastWorkerIndex(v.negotiations, isWorker) == Some(FirstWorkerIndex(v.negotiations, isWorker))
  }

  /** The render condition as evidently intended: a negotiating booking with a worker entry to
      respond to. */
  predicate RespondShown(v: BookingView, isWorker: Negotiation -> bool) {
    && v.negotiations != []
    && HasWorkerEntry(v.negotiations, isWorker)
    && v.booking.status == Negotiating
  }

  lemma {:induction false} WorkerCountSplit(negs: seq<Negotiation>, isWorker: Negotiation -> bool, k: nat)
    requires k <= |negs|
    ensures WorkerCount(negs, isWorker) == WorkerCount(negs[..k], isWorker) + WorkerCount(negs[k..], isWorker)
    decreases k
  {
    if k > 0 {
      assert negs[..k][1..] == negs[1..][..k - 1];
      assert negs[k..] == negs[1..][k - 1..];
      WorkerCountSplit(negs[1..], isWorker, k - 1);
    } else {
      assert negs[k..] == negs;
    }
  }

  lemma {:induction false} WorkerCountZero(negs: seq<Negotiation>, isWorker: Negotiation -> bool)
    ensures WorkerCount(negs, isWorker) == 0 <==> forall j :: 0 <= j < |negs| ==> !isWorker(negs[j])
    decreases |negs|
  {
    if negs != [] {
      WorkerCountZero(negs[1..], isWorker);
      if forall j :: 0 <= j < |negs[1..]| ==> !isWorker(negs[1..][j]) {
        if !isWorker(negs[0]) {
          forall j | 0 <= j < |negs| ensures !isWorker(negs[j]) {
            if j > 0 {
              assert negs[j] == negs[1..][j - 1];
            }
          }
        }
      } else {
        var j :| 0 <= j < |negs[1..]| && isWorker(negs[1..][j]);
        assert isWorker(negs[j + 1]);
      }
    }
  }

  /** A history whose only worker entry is at `i` counts one offer. */
  lemma OnlyWorkerEntry(negs: seq<Negotiation>, isWorker: Negotiation -> bool, i: nat)
    requires i < |negs| && isWorker(negs[i])
    requires forall j :: 0 <= j < |negs| && j != i ==> !isWorker(negs[j])
    ensures WorkerCount(negs, isWorker) == 1
  {
    WorkerCountSplit(negs, isWorker, i);
    WorkerCountZero(negs[..i], isWorker);
    var rest := negs[i..];
    WorkerCountSplit(rest, isWorker, 1);
    assert rest[..1] == [negs[i]];
    assert forall j :: 0 <= j < |rest[1..]| ==> !isWorker(rest[1..][j]) by {
      forall j | 0 <= j < |rest[1..]| ensures !isWorker(rest[1..][j]) {
        assert rest[1..][j] == negs[i + 1 + j];
      }
    }
    WorkerCountZero(rest[1..], isWorker);
  }

  /** A history with worker entries at two positions counts at least two offers. */
  lemma TwoWorkerEntries(negs: seq<Negotiation>, isWorker: Negotiation -> bool, i: nat, j: nat)
    requires i < j < |negs| && isWorker(negs[i]) && isWorker(negs[j])
    ensures WorkerCount(negs, isWorker) >= 2
  {
    WorkerCountSplit(negs, isWorker, j);
    assert negs[..j][i] == negs[i];
    WorkerCountZero(negs[..j], isWorker);
    assert negs[j..][0] == negs[j];
    WorkerCountZero(negs[j..], isWorker);
  }

  /** As written, the block renders exactly when the booking is negotiating and its history
      holds one worker entry: a second worker offer hides it. */
  lemma RespondAsWrittenNeedsSingleWorkerEntry(v: BookingView, isWorker: Negotiation -> bool)
    ensures RespondShownAsWritten(v, isWorker) <==>
      v.booking.status == Negotiating && WorkerCount(v.negotiations, isWorker) == 1
  {
    var negs := v.negotiations;
    var first := FirstWorkerIndex(negs, isWorker);
    var last := LastWorkerIndex(negs, isWorker);
    if first == -1 {
      WorkerCountZero(negs, isWorker);
      assert !HasWorkerEntry(negs, isWorker);
    } else {
      assert HasWorkerEntry(negs, isWorker);
      assert last.Some? && first <= last.value;
      if first == last.value {
        OnlyWorkerEntry(negs, isWorker, first);
      } else {
        TwoWorkerEntries(negs, isWorker, first, last.value);
      }
    }
  }

  /** The as-written condition implies the intended one, and any negotiating booking with two
      or more worker entries satisfies the intended condition but not the written one. */
  lemma RespondBlockHiddenAfterSecondOffer(v: BookingView, isWorker: Negotiation -> bool)
    ensures RespondShownAsWritten(v, isWorker) ==> RespondShown(v, isWorker)
    ensures v.booking.status == Negotiating && WorkerCount(v.negotiations, isWorker) >= 2 ==>
      RespondShown(v, isWorker) && !RespondShownAsWritten(v, isWorker)
  {
    RespondAsWrittenNeedsSingleWorkerEntry(v, isWorker);
    if WorkerCount(v.negotiations, isWorker) >= 2 {
      WorkerCountZero(v.negotiations, isWorker);
    }
  }

  /** The "Latest Worker Offer" figure: `filter(n => n.from_worker).pop()?.proposed_price`. */
  function LatestWorkerOffer(negs: seq<Negotiation>, isWorker: Negotiation -> bool): (p: Option<int>)
    ensures !HasWorkerEntry(negs, isWorker) ==> p.None?
  {
    match LastWorkerIndex(negs, isWorker)
    case Some(i) => negs[i].proposedPrice
    case None => None
  }

  /** The latest worker offer is the price of the last worker entry: a worker entry with no
      worker entry after it. */
  lemma LatestWorkerOfferIsLastWorkerEntry(negs: seq<Negotiation>, isWorker: Negotiation -> bool, k: int)
    requires 0 <= k < |negs| && isWorker(negs[k])
    requires forall j :: k < j < |negs| ==> !isWorker(negs[j])
    ensures LatestWorkerOffer(negs, isWorker) == negs[k].proposedPrice
  {
    var last := LastWorkerIndex(negs, isWorker);
    assert last == Some(k);
  }

  // ---------------------------------------------------------------------------
  // fetchBookings
  // ---------------------------------------------------------------------------

  /** `.eq('customer_id', userId)`, in the store's order. */
  function RowsOfCustomer(rows: seq<Booking>, userId: string): (r: seq<Booking>)
    ensures forall i :: 0 <= i < |r| ==> r[i].customerId == userId
    ensures forall b :: b in rows && b.customerId == userId ==> b in r
    decreases |rows|
  {
    if rows == [] then []
    else (if rows[0].customerId == userId then [rows[0]] else []) + RowsOfCustomer(rows[1..], userId)
  }

  /** The fetch keeps exactly the rows of the customer. */
  lemma {:induction false} RowsOfCustomerMembers(rows: seq<Booking>, userId: string)
    ensures forall b :: b in RowsOfCustomer(rows, userId) <==> b in rows && b.customerId == userId
    decreases |rows|
  {
    if rows != [] {
      RowsOfCustomerMembers(rows[1..], userId);
      assert forall b :: b in rows <==> b == rows[0] || b in rows[1..];
    }
  }

  /** The fetch distributes over concatenation, so the kept rows stay in the store's order. */
  lemma {:induction false} RowsOfCustomerConcat(a: seq<Booking>, b: seq<Booking>, userId: string)
    ensures RowsOfCustomer(a + b, userId) == RowsOfCustomer(a, userId) + RowsOfCustomer(b, userId)
    decreases |a|
  {
    if a == [] {
      assert a + b == b;
    } else {
      assert (a + b)[0] == a[0];
      assert (a + b)[1..] == a[1..] + b;
      RowsOfCustomerConcat(a[1..], b, userId);
    }
  }

  /** The fetched list: the customer's rows, none of them with a negotiation history, since
      the query does not read the ledger. */
  function CustomerViews(rows: seq<Booking>, userId: string): (r: seq<BookingView>)
    ensures |r| == |RowsOfCustomer(rows, userId)|
    ensures forall i :: 0 <= i < |r| ==> r[i].booking == RowsOfCustomer(rows, userId)[i] && r[i].negotiations == []
  {
    var mine := RowsOfCustomer(rows, userId);
    seq(|mine|, i requires 0 <= i < |mine| => BookingView(mine[i], []))
  }

  /** Every fetched card belongs to the customer, shows its offered price, and renders no
      "Respond" block, under either condition. */
  lemma FetchedCardsShowOfferedPrice(rows: seq<Booking>, userId: string, isWorker: Negotiation -> bool)
    ensures forall v :: v in CustomerViews(rows, userId) ==>
      && v.booking.customerId == userId
      && ShownPrice(v) == Some(v.booking.offeredPrice)
      && !RespondShown(v, isWorker) && !RespondShownAsWritten(v, isWorker)
  {
  }

  // ---------------------------------------------------------------------------
  // The screen's state and handlers
  // ---------------------------------------------------------------------------

  class CustomerBookingsPage {
    const userId: string
    const store: Store
    var bookings: seq<BookingView>
    var selected: Option<BookingView>
    var responseMessage: string
    var counterOffer: string

    constructor (userId: string, store: Store)
      ensures this.userId == userId && this.store == store
      ensures bookings == [] && selected == None && responseMessage == "" && counterOffer == ""
    {
      this.userId := userId;
      this.store := store;
      bookings := [];
      selected := None;
      responseMessage := "";
      counterOffer := "";
    }

    /** `fetchBookings`: a failed read empties the list. */
    method FetchBookings(fails: bool)
      modifies this`bookings
      ensures bookings == if fails then [] else CustomerViews(store.bookings, userId)
    {
      if fails {
        bookings := [];
      } else {
        bookings := CustomerViews(store.bookings, userId);
      }
    }

    /** A click on a card's "Respond" button. The button renders here under the corrected
        condition `RespondShown`; as written it renders under `RespondShownAsWritten`. */
    method OpenResponse(v: BookingView, isWorker: Negotiation -> bool)
      modifies this`selected
      ensures selected == if RespondShown(v, isWorker) then Some(v) else old(selected)
    {
      if RespondShown(v, isWorker) {
        selected := Some(v);
      }
    }

    /** `handleResponse`. Accept and reject update the booking first and stop if that fails;
        then, only with a message, they record an acceptance or rejection (a failure there is
        only logged). A counter with a message or a price inserts its offer first and stops if
        that fails; then it sets the booking to negotiating (a failure there is only logged).
        A counter with neither writes nothing. Unless it stopped early, the handler re-reads
        the list and clears the selection and both inputs. */
    method HandleResponse(bookingId: string, a: Response, now: string,
                          firstFails: bool, secondFails: bool, fetchFails: bool)
      modifies this, store
      ensures var row := ResponseRow(a, bookingId, userId, old(responseMessage), old(counterOffer), old(selected));
        a != Counter ==>
          && store.bookings == (if firstFails then old(store.bookings)
                                else PatchWhere(old(store.bookings), bookingId, StatusUpdate(a, now)))
          && store.ledger == (if !firstFails && old(responseMessage) != "" && !secondFails
                              then old(store.ledger) + [row] else old(store.ledger))
      ensures var row := ResponseRow(a, bookingId, userId, old(responseMessage), old(counterOffer), old(selected));
        a == Counter && (old(responseMessage) != "" || old(counterOffer) != "") ==>
          && store.ledger == (if firstFails then old(store.ledger) else old(store.ledger) + [row])
          && store.bookings == (if !firstFails && !secondFails
                                then PatchWhere(old(store.bookings), bookingId, StatusUpdate(a, now))
                                else old(store.bookings))
      ensures a == Counter && old(responseMessage) == "" && old(counterOffer) == "" ==> unchanged(store)
      ensures var stopped := firstFails && (a != Counter || old(responseMessage) != "" || old(counterOffer) != "");
        && (stopped ==> selected == old(selected) && responseMessage == old(responseMessage)
                        && counterOffer == old(counterOffer) && bookings == old(bookings))
        && (!stopped ==> selected == None && responseMessage == "" && counterOffer == ""
                         && bookings == (if fetchFails then [] else CustomerViews(store.bookings, userId)))
    {
      var row := ResponseRow(a, bookingId, userId, responseMessage, counterOffer, selected);
      var stopped := WriteResponse(bookingId, a, now, row, responseMessage, counterOffer, firstFails, secondFails);
      if stopped {
        return;
      }
      FetchBookings(fetchFails);
      selected := None;
      responseMessage := "";
      counterOffer := "";
    }

    /** The store writes of `handleResponse`, in order; `stopped` when the first write failed
        and the handler returns early. */
    method WriteResponse(bookingId: string, a: Response, now: string, row: Negotiation,
                         message: string, counter: string, firstFails: bool, secondFails: bool)
      returns (stopped: bool)
      modifies store
      ensures stopped == (firstFails && (a != Counter || message != "" || counter != ""))
      ensures a != Counter ==>
        && store.bookings == (if firstFails then old(store.bookings)
                              else PatchWhere(old(store.bookings), bookingId, StatusUpdate(a, now)))
        && store.ledger == (if !firstFails && message != "" && !secondFails
                            then old(store.ledger) + [row] else old(store.ledger))
      ensures a == Counter && (message != "" || counter != "") ==>
        && store.ledger == (if firstFails then old(store.ledger) else old(store.ledger) + [row])
        && store.bookings == (if !firstFails && !secondFails
                              then PatchWhere(old(store.bookings), bookingId, StatusUpdate(a, now))
                              else old(store.bookings))
      ensures a == Counter && message == "" && counter == "" ==> unchanged(store)
    {
      stopped := false;
      if a != Counter {
        var ok := store.UpdateBooking(bookingId, StatusUpdate(a, now), firstFails);
        if !ok {
          return true;
        }
        if message != "" {
          var _ := store.InsertNegotiation(row, secondFails);
        }
      } else if message != "" || counter != "" {
        var ok := store.InsertNegotiation(row, firstFails);
        if !ok {
          return true;
        }
        var _ := store.UpdateBooking(bookingId, StatusUpdate(a, now), secondFails);
      }
    }
  }
}
