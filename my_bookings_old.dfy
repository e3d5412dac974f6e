/**
 * The earlier customer booking screen, which answers a negotiation by rewriting its own
 * in-memory list instead of writing to the store.
 */
module LegacyBookings {
  import opened Common
  import opened JsText
  import opened Bookings

  /** One history entry of the earlier screen's record shape. */
  datatype LegacyNegotiation = LegacyNegotiation(message: string, priceOffer: int, fromWorker: bool)

  /** A booking of the earlier screen. `negotiatedPrice` is `None` when the field is absent or
      holds NaN (both read as falsy). */
  datatype LegacyBooking = LegacyBooking(
    id: string,
    offeredPrice: int,
    negotiatedPrice: Option<int>,
    status: Status,
    negotiations: seq<LegacyNegotiation>)

  datatype Response = Accept | Counter | Reject

  /** The booking after one response: accept, reject and counter set accepted, cancelled and
      negotiating; only a counter sets the negotiated price, to `Number(counterOffer)`. */
  function Respond(b: LegacyBooking, a: Response, counterOffer: string): (r: LegacyBooking)
    ensures r.id == b.id && r.offeredPrice == b.offeredPrice && r.negotiations == b.negotiations
    ensures r.status == (match a case Accept => Accepted case Reject => Cancelled case Counter => Negotiating)
    ensures r.negotiatedPrice == if a == Counter then ToNumber(counterOffer) else b.negotiatedPrice
  {
    b.(status := if a == Accept then Accepted else if a == Reject then Cancelled else Negotiating,
       negotiatedPrice := if a == Counter then ToNumber(counterOffer) else b.negotiatedPrice)
  }

  /** `prev.map(booking => booking.id === bookingId ? {...} : booking)`. */
  function RespondAll(bookings: seq<LegacyBooking>, id: string, a: Response, counterOffer: string): (r: seq<LegacyBooking>)
    ensures |r| == |bookings|
    ensures forall i :: 0 <= i < |bookings| && bookings[i].id != id ==> r[i] == bookings[i]
    ensures forall i :: 0 <= i < |bookings| && bookings[i].id == id ==> r[i] == Respond(bookings[i], a, counterOffer)
  {
    seq(|bookings|, i requires 0 <= i < |bookings| =>
      if bookings[i].id == id then Respond(bookings[i], a, counterOffer) else bookings[i])
  }

  /** `booking.negotiated_price || booking.offered_price`: zero and NaN fall back. */
  function ShownPrice(b: LegacyBooking): int {
    if b.negotiatedPrice.Some? && b.negotiatedPrice.value != 0 then b.negotiatedPrice.value else b.offeredPrice
  }

  /** After a counter typed as a non-zero number the card shows that number; an empty or
      unparsable counter field makes the card fall back to the offered price; accepting or
      rejecting leaves the shown price as it was. */
  lemma ShownPriceAfterResponse(b: LegacyBooking, a: Response, counterOffer: string, k: int)
    ensures a == Counter && k != 0 ==> ShownPrice(Respond(b, a, IntToString(k))) == k
    ensures a == Counter && ToNumber(counterOffer).None? ==> ShownPrice(Respond(b, a, counterOffer)) == b.offeredPrice
    ensures a == Counter ==> ShownPrice(Respond(b, a, "")) == b.offeredPrice
    ensures a != Counter ==> ShownPrice(Respond(b, a, counterOffer)) == ShownPrice(b)
  {
    if a == Counter {
      if k != 0 {
        IntToStringRoundTrip(k);
      }
      assert Trim("") == [];
    }
  }

  /** The latest offer on a card and in the response panel: the last entry's price, or the
      offered price without any history. */
  function LatestOffer(b: LegacyBooking): int {
    if b.negotiations == [] then b.offeredPrice else b.negotiations[|b.negotiations| - 1].priceOffer
  }

  /** `negotiations.filter(n => n.from_worker).length`. */
  function OffersReceived(negs: seq<LegacyNegotiation>): (r: nat)
    ensures r <= |negs|
  {
    if negs == [] then 0 else (if negs[0].fromWorker then 1 else 0) + OffersReceived(negs[1..])
  }

  /** A new entry adds one to the count exactly when it is the worker's, and a history without
      worker entries counts none. */
  lemma {:induction false} OffersReceivedAppend(negs: seq<LegacyNegotiation>, n: LegacyNegotiation)
    ensures OffersReceived(negs + [n]) == OffersReceived(negs) + (if n.fromWorker then 1 else 0)
    ensures (forall i :: 0 <= i < |negs| ==> !negs[i].fromWorker) ==> OffersReceived(negs) == 0
    decreases |negs|
  {
    if negs == [] {
      assert [] + [n] == [n];
      assert [n][1..] == [];
    } else {
      assert (negs + [n])[1..] == negs[1..] + [n];
      OffersReceivedAppend(negs[1..], n);
      if forall i :: 0 <= i < |negs| ==> !negs[i].fromWorker {
        assert forall i :: 0 <= i < |negs[1..]| ==> !negs[1..][i].fromWorker by {
          forall i | 0 <= i < |negs[1..]| ensures !negs[1..][i].fromWorker {
            assert negs[1..][i] == negs[i + 1];
          }
        }
      }
    }
  }

  /** "Awaiting your response" on entry `i`: a worker entry of a negotiating booking that is
      the last entry of the history. */
  predicate AwaitingResponse(b: LegacyBooking, i: int) {
    0 <= i < |b.negotiations| && b.negotiations[i].fromWorker && b.status == Negotiating
    && i == |b.negotiations| - 1
  }

  /** The badge appears on at most one entry, and on some entry exactly when the booking is
      negotiating and its latest entry is the worker's; it then sits on the entry whose price
      is the latest offer. */
  lemma AwaitingResponseOnLatestWorkerEntry(b: LegacyBooking)
    ensures forall i, j :: AwaitingResponse(b, i) && AwaitingResponse(b, j) ==> i == j
    ensures (exists i :: AwaitingResponse(b, i)) <==>
      b.status == Negotiating && b.negotiations != [] && b.negotiations[|b.negotiations| - 1].fromWorker
    ensures forall i :: AwaitingResponse(b, i) ==> b.negotiations[i].priceOffer == LatestOffer(b)
  {
    if b.status == Negotiating && b.negotiations != [] && b.negotiations[|b.negotiations| - 1].fromWorker {
      assert AwaitingResponse(b, |b.negotiations| - 1);
    }
  }

  /** A response neither adds nor removes history, so the offer count and the latest offer
      stay as they were. */
  lemma RespondKeepsHistory(b: LegacyBooking, a: Response, counterOffer: string)
    ensures OffersReceived(Respond(b, a, counterOffer).negotiations) == OffersReceived(b.negotiations)
    ensures LatestOffer(Respond(b, a, counterOffer)) == LatestOffer(b)
  {
  }

  class LegacyBookingsPage {
    var bookings: seq<LegacyBooking>
    var selected: Option<LegacyBooking>
    var responseMessage: string
    var counterOffer: string

    constructor (bookings: seq<LegacyBooking>)
      ensures this.bookings == bookings && selected == None && responseMessage == "" && counterOffer == ""
    {
      this.bookings := bookings;
      selected := None;
      responseMessage := "";
      counterOffer := "";
    }

    /** The card's "Send Message / Counter Offer" button, rendered for negotiating bookings. */
    method OpenResponse(b: LegacyBooking)
      modifies this`selected
      ensures selected == if b.status == Negotiating then Some(b) else old(selected)
    {
      if b.status == Negotiating {
        selected := Some(b);
      }
    }

    /** `handleResponse`: rewrites the matching bookings in the list, then closes the panel and
        clears both inputs. */
    method HandleResponse(id: string, a: Response)
      modifies this
      ensures bookings == RespondAll(old(bookings), id, a, old(counterOffer))
      ensures selected == None && responseMessage == "" && counterOffer == ""
    {
      bookings := RespondAll(bookings, id, a, counterOffer);
      selected := None;
      responseMessage := "";
      counterOffer := "";
    }
  }
}
