/**
 * The service-booking records shared by the worker and customer screens, and the
 * hosted store they are read from and written to, as an in-memory object whose
 * writes succeed or fail as the environment decides.
 */
module Bookings {
  import opened Common

  /** `service_bookings.status`. The customer screens use the first five words and the
      worker screen adds `confirmed` and `in_progress`; one vocabulary serves both. */
  datatype Status = Pending | Negotiating | Accepted | Confirmed | InProgress | Completed | Cancelled

  /** `booking_negotiations.message_type` as this application writes it. */
  datatype MessageType = Message | PriceOffer | TimeChange | Acceptance | Rejection

  /** One row of the append-only negotiation ledger. A price the client computed as NaN
      is serialised as `null`, so it is `None` here like an absent price. */
  datatype Negotiation = Negotiation(
    bookingId: string,
    senderId: string,
    messageType: MessageType,
    proposedPrice: Option<int>,
    proposedDate: Option<string>,
    proposedTime: Option<string>,
    message: Option<string>)

  /** One row of `service_bookings`. */
  datatype Booking = Booking(
    id: string,
    customerId: string,
    serviceId: string,
    workerId: string,
    description: string,
    location: string,
    preferredDate: string,
    preferredTime: string,
    offeredPrice: int,
    finalPrice: Option<int>,
    status: Status,
    scheduledAt: Option<string>,
    completedAt: Option<string>,
    updatedAt: Option<string>,
    specialInstructions: string,
    customerPhone: string)

  /** The columns one `update({...})` call writes: the status always, the others only when
      present (`None` means the key is not in the update object, so the column keeps its value). */
  datatype Patch = Patch(
    status: Status,
    finalPrice: Option<int>,
    scheduledAt: Option<string>,
    completedAt: Option<string>,
    updatedAt: Option<string>)

  function StatusPatch(s: Status): Patch {
    Patch(s, None, None, None, None)
  }

  function Overwrite<T>(was: Option<T>, given: Option<T>): Option<T> {
    if given.Some? then given else was
  }

  /** The row after an update: the patched columns change, and the identity, the parties,
      the request fields and the offered price never do. */
  function ApplyPatch(b: Booking, p: Patch): (r: Booking)
    ensures r.id == b.id && r.customerId == b.customerId && r.workerId == b.workerId
    ensures r.serviceId == b.serviceId && r.offeredPrice == b.offeredPrice
    ensures r.description == b.description && r.location == b.location
    ensures r.preferredDate == b.preferredDate && r.preferredTime == b.preferredTime
    ensures r.specialInstructions == b.specialInstructions && r.customerPhone == b.customerPhone
    ensures r.status == p.status
    ensures r.finalPrice == if p.finalPrice.Some? then p.finalPrice else b.finalPrice
    ensures r.scheduledAt == if p.scheduledAt.Some? then p.scheduledAt else b.scheduledAt
    ensures r.completedAt == if p.completedAt.Some? then p.completedAt else b.completedAt
    ensures r.updatedAt == if p.updatedAt.Some? then p.updatedAt else b.updatedAt
  {
    b.(status := p.status,
       finalPrice := Overwrite(b.finalPrice, p.finalPrice),
       scheduledAt := Overwrite(b.scheduledAt, p.scheduledAt),
       completedAt := Overwrite(b.completedAt, p.completedAt),
       updatedAt := Overwrite(b.updatedAt, p.updatedAt))
  }

  /** Sending the same update twice leaves the row as one update does. */
  lemma ApplyPatchTwice(b: Booking, p: Patch)
    ensures ApplyPatch(ApplyPatch(b, p), p) == ApplyPatch(b, p)
  {
  }

  /** `update(p).eq('id', id)` over the whole table: every row with that id is patched,
      every other row is left as it was, and the table keeps its length and order. */
  function PatchWhere(rows: seq<Booking>, id: string, p: Patch): (r: seq<Booking>)
    ensures |r| == |rows|
    ensures forall i :: 0 <= i < |rows| && rows[i].id != id ==> r[i] == rows[i]
    ensures forall i :: 0 <= i < |rows| && rows[i].id == id ==> r[i] == ApplyPatch(rows[i], p)
  {
    seq(|rows|, i requires 0 <= i < |rows| => if rows[i].id == id then ApplyPatch(rows[i], p) else rows[i])
  }

  /** A booking together with its negotiation history, oldest entry first. */
  datatype BookingView = BookingView(booking: Booking, negotiations: seq<Negotiation>)

  /** The hosted store: the `service_bookings` table and the `booking_negotiations` ledger
      (in insertion order, which is ascending `created_at`). Whether a write succeeds is
      decided by the caller's `fails` argument, standing for the network and the server. */
  class Store {
    var bookings: seq<Booking>
    var ledger: seq<Negotiation>

    constructor (bookings: seq<Booking>, ledger: seq<Negotiation>)
      ensures this.bookings == bookings && this.ledger == ledger
    {
      this.bookings := bookings;
      this.ledger := ledger;
    }

    /** `from('service_bookings').update(p).eq('id', id)`. */
    method UpdateBooking(id: string, p: Patch, fails: bool) returns (ok: bool)
      modifies this
      ensures ok == !fails
      ensures ledger == old(ledger)
      ensures bookings == if ok then PatchWhere(old(bookings), id, p) else old(bookings)
    {
      ok := !fails;
      if ok {
        bookings := PatchWhere(bookings, id, p);
      }
    }

    /** `from('booking_negotiations').insert(n)`: appends to the ledger. */
    method InsertNegotiation(n: Negotiation, fails: bool) returns (ok: bool)
      modifies this
      ensures ok == !fails
      ensures bookings == old(bookings)
      ensures ledger == if ok then old(ledger) + [n] else old(ledger)
    {
      ok := !fails;
      if ok {
        ledger := ledger + [n];
      }
    }
  }
}
