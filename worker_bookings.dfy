/**
 * The worker's booking screen: the action-to-status map, the buttons each status
 * offers, the "effective price" read off the negotiation history, the message-type
 * rule for a submitted negotiation, and the grouping of ledger rows by booking.
 */
module WorkerBookings {
  import opened Common
  import opened JsText
  import opened Bookings

  // ---------------------------------------------------------------------------
  // handleBookingAction: which update each action writes
  // ---------------------------------------------------------------------------

  /** The `additionalData` the confirm button passes. */
  datatype ConfirmData = ConfirmData(finalPrice: int, scheduledAt: string)

  const KnownActions: set<string> := {"accept", "reject", "confirm", "start", "complete"}

  /** The `switch (action)`: the update to write, or the error it throws. Only `confirm`
      writes a final price and a schedule, only `complete` stamps `completed_at` (with the
      clock reading `now`), and nothing here touches `updated_at`. */
  function ActionPatch(action: string, extra: Option<ConfirmData>, now: string): (r: Result<Patch>)
    ensures r.Ok? <==> action in KnownActions
    ensures r.Err? ==> r.error == "Unknown action: " + action
    ensures r.Ok? && (r.value.finalPrice.Some? || r.value.scheduledAt.Some?) ==> action == "confirm"
    ensures r.Ok? ==> (r.value.completedAt.Some? <==> action == "complete")
    ensures r.Ok? && action == "complete" ==> r.value.completedAt == Some(now)
    ensures r.Ok? ==> r.value.updatedAt.None?
  {
    if action == "accept" then Ok(StatusPatch(Accepted))
    else if action == "reject" then Ok(StatusPatch(Cancelled))
    else if action == "confirm" then
      Ok(Patch(Confirmed,
               if extra.Some? then Some(extra.value.finalPrice) else None,
               if extra.Some? then Some(extra.value.scheduledAt) else None,
               None, None))
    else if action == "start" then Ok(StatusPatch(InProgress))
    else if action == "complete" then Ok(Patch(Completed, None, None, Some(now), None))
    else Err("Unknown action: " + action)
  }

  /** The worker-facing lifecycle: pending and negotiating lead to negotiating, accepted or
      cancelled; then accepted, confirmed, in progress and completed follow one another;
      completed and cancelled lead nowhere. */
  predicate CanMoveTo(from: Status, to: Status) {
    match from
    case Pending => to == Negotiating || to == Accepted || to == Cancelled
    case Negotiating => to == Negotiating || to == Accepted || to == Cancelled
    case Accepted => to == Confirmed
    case Confirmed => to == InProgress
    case InProgress => to == Completed
    case Completed => false
    case Cancelled => false
  }

  // ---------------------------------------------------------------------------
  // The buttons a booking card renders for each status
  // ---------------------------------------------------------------------------

  /** A button either calls `handleBookingAction(id, action)` or opens the negotiation form
      with `startNegotiation(booking, kind)`. */
  datatype Button = Act(action: string) | Negotiate(kind: string)

  /** The buttons of a booking card, in render order. */
  function OfferedButtons(s: Status): seq<Button> {
    match s
    case Pending => [Act("accept"), Negotiate("price_offer"), Negotiate("time_change"), Act("reject")]
    case Negotiating => [Negotiate("price_offer"), Act("accept"), Act("reject"), Negotiate("message")]
    case Accepted => [Act("confirm"), Negotiate("message")]
    case Confirmed => [Act("start"), Negotiate("message")]
    case InProgress => [Act("complete")]
    case Completed => []
    case Cancelled => []
  }

  /** Every action button the screen offers is a known action (so "Unknown action" cannot be
      reached from it) and moves the booking along the lifecycle; a price-offer form is only
      offered where moving to negotiating is a lifecycle step; the finished statuses offer nothing. */
  lemma OfferedButtonsFollowLifecycle(s: Status, extra: Option<ConfirmData>, now: string)
    ensures forall b :: b in OfferedButtons(s) && b.Act? ==>
      ActionPatch(b.action, extra, now).Ok? && CanMoveTo(s, ActionPatch(b.action, extra, now).value.status)
    ensures forall b :: b in OfferedButtons(s) && b.Negotiate? ==>
      b.kind in {"price_offer", "time_change", "message"} && (b.kind == "price_offer" ==> CanMoveTo(s, Negotiating))
    ensures OfferedButtons(s) == [] <==> (s == Completed || s == Cancelled)
  {
    var bs := OfferedButtons(s);
    forall b | b in bs && b.Act?
      ensures ActionPatch(b.action, extra, now).Ok? && CanMoveTo(s, ActionPatch(b.action, extra, now).value.status)
    {
      ActionTarget(b.action, extra, now);
    }
  }

  /** The status each button action moves a booking to. */
  lemma ActionTarget(action: string, extra: Option<ConfirmData>, now: string)
    requires action in {"accept", "reject", "confirm", "start", "complete"}
    ensures ActionPatch(action, extra, now).Ok?
    ensures ActionPatch(action, extra, now).value.status ==
      if action == "accept" then Accepted
      else if action == "reject" then Cancelled
      else if action == "confirm" then Confirmed
      else if action == "start" then InProgress
      else Completed
  {
  }

  /** The confirm button's `additionalData`: the booking's original offered price as the final
      price, and the preferred date and time joined with `T` as the schedule. */
  function ConfirmDataFor(b: Booking): ConfirmData {
    ConfirmData(b.offeredPrice, b.preferredDate + "T" + b.preferredTime)
  }

  /** Confirming from the card writes the original offered price as `final_price`, whatever
      price the negotiation history ends on. */
  lemma ConfirmWritesOfferedPrice(b: Booking, now: string)
    ensures var r := ActionPatch("confirm", Some(ConfirmDataFor(b)), now);
      && r.Ok? && r.value.status == Confirmed
      && ApplyPatch(b, r.value).finalPrice == Some(b.offeredPrice)
      && ApplyPatch(b, r.value).scheduledAt == Some(b.preferredDate + "T" + b.preferredTime)
  {
  }

  // ---------------------------------------------------------------------------
  // The effective price
  // ---------------------------------------------------------------------------

  /** `negotiation.proposed_price && negotiation.proposed_price > 0`. */
  predicate HasPositivePrice(n: Negotiation) {
    n.proposedPrice.Some? && n.proposedPrice.value > 0
  }

  function Reverse<T>(s: seq<T>): (r: seq<T>)
    ensures |r| == |s|
  {
    if s == [] then [] else Reverse(s[1..]) + [s[0]]
  }

  lemma {:induction false} ReverseSnoc<T>(s: seq<T>, x: T)
    ensures Reverse(s + [x]) == [x] + Reverse(s)
  {
    if s != [] {
      assert (s + [x])[1..] == s[1..] + [x];
      ReverseSnoc(s[1..], x);
    } else {
      assert Reverse([x]) == Reverse([x][1..]) + [x];
    }
  }

  /** `.find(n => n.proposed_price && n.proposed_price > 0)`: the first priced entry. */
  function FindPriced(s: seq<Negotiation>): (r: Option<Negotiation>)
    ensures r.Some? ==> HasPositivePrice(r.value)
  {
    if s == [] then None
    else if HasPositivePrice(s[0]) then Some(s[0])
    else FindPriced(s[1..])
  }

  /** `negotiations.slice().reverse().find(...)`, falling back to the offered price. */
  function EffectivePrice(negs: seq<Negotiation>, offered: int): int {
    match FindPriced(Reverse(negs))
    case Some(n) => n.proposedPrice.value
    case None => offered
  }

  /** Appending an entry: a positively priced entry sets the effective price, any other entry
      leaves it as it was. */
  lemma EffectivePriceAppend(negs: seq<Negotiation>, n: Negotiation, offered: int)
    ensures EffectivePrice(negs + [n], offered)
         == if HasPositivePrice(n) then n.proposedPrice.value else EffectivePrice(negs, offered)
  {
    ReverseSnoc(negs, n);
    assert ([n] + Reverse(negs))[1..] == Reverse(negs);
  }

  /** The effective price is the price of the last entry with a positive price, or the
      offered price when no entry has one. */
  lemma {:induction false} EffectivePriceIsLatestOffer(negs: seq<Negotiation>, offered: int)
    ensures (forall i :: 0 <= i < |negs| ==> !HasPositivePrice(negs[i])) ==> EffectivePrice(negs, offered) == offered
    ensures forall i :: 0 <= i < |negs| && HasPositivePrice(negs[i])
                     && (forall j :: i < j < |negs| ==> !HasPositivePrice(negs[j]))
                     ==> EffectivePrice(negs, offered) == negs[i].proposedPrice.value
    decreases |negs|
  {
    if negs != [] {
      var init, last := negs[..|negs| - 1], negs[|negs| - 1];
      assert negs == init + [last];
      EffectivePriceIsLatestOffer(init, offered);
      EffectivePriceAppend(init, last, offered);
      forall i | 0 <= i < |negs| && HasPositivePrice(negs[i]) && (forall j :: i < j < |negs| ==> !HasPositivePrice(negs[j]))
        ensures EffectivePrice(negs, offered) == negs[i].proposedPrice.value
      {
        if i < |negs| - 1 {
          assert !HasPositivePrice(last);
          assert init[i] == negs[i];
          assert forall j :: i < j < |init| ==> !HasPositivePrice(init[j]) by {
            forall j | i < j < |init| ensures !HasPositivePrice(init[j]) {
              assert init[j] == negs[j];
            }
          }
        }
      }
      if forall i :: 0 <= i < |negs| ==> !HasPositivePrice(negs[i]) {
        assert !HasPositivePrice(negs[|negs| - 1]);
        assert forall i :: 0 <= i < |init| ==> !HasPositivePrice(init[i]) by {
          forall i | 0 <= i < |init| ensures !HasPositivePrice(init[i]) {
            assert init[i] == negs[i];
          }
        }
      }
    }
  }

  /** An entry that carries the current effective price (what a message or time change stores),
      or no positive price at all, leaves the effective price unchanged. */
  lemma CarriedPriceKeepsEffectivePrice(negs: seq<Negotiation>, n: Negotiation, offered: int)
    requires n.proposedPrice == Some(EffectivePrice(negs, offered)) || !HasPositivePrice(n)
    ensures EffectivePrice(negs + [n], offered) == EffectivePrice(negs, offered)
  {
    EffectivePriceAppend(negs, n, offered);
  }

  // ---------------------------------------------------------------------------
  // The negotiation form and what it writes
  // ---------------------------------------------------------------------------

  /** The form state behind the negotiation modal; every field is the text of an input. */
  datatype NegotiationForm = NegotiationForm(
    bookingId: string,
    messageType: string,
    proposedPrice: string,
    proposedDate: string,
    proposedTime: string,
    message: string)

  const BlankForm := NegotiationForm("", "message", "", "", "", "")

  /** The message type actually written: a price offer needs a price, a time change needs a
      date or a time, and everything else is a plain message. */
  function ClassifyMessage(f: NegotiationForm): (t: MessageType)
    ensures t == PriceOffer <==> f.messageType == "price_offer" && f.proposedPrice != ""
    ensures t == TimeChange <==> f.messageType == "time_change" && (f.proposedDate != "" || f.proposedTime != "")
    ensures t == Message || t == PriceOffer || t == TimeChange
  {
    if f.messageType == "price_offer" && f.proposedPrice != "" then PriceOffer
    else if f.messageType == "time_change" && (f.proposedDate != "" || f.proposedTime != "") then TimeChange
    else Message
  }

  /** The price a submission stores: `Number(proposedPrice)` for a price offer; otherwise the
      selected booking's effective price, or null when no booking is selected. */
  function PriceToStore(f: NegotiationForm, selected: Option<BookingView>): (p: Option<int>)
    ensures ClassifyMessage(f) != PriceOffer && selected.Some? ==>
      p == Some(EffectivePrice(selected.value.negotiations, selected.value.booking.offeredPrice))
    ensures ClassifyMessage(f) != PriceOffer && selected.None? ==> p.None?
  {
    if ClassifyMessage(f) == PriceOffer && f.proposedPrice != "" then ToNumber(f.proposedPrice)
    else if selected.Some? then Some(EffectivePrice(selected.value.negotiations, selected.value.booking.offeredPrice))
    else None
  }

  /** `text || null`. */
  function OrNull(s: string): Option<string> {
    if s == "" then None else Some(s)
  }

  /** The ledger row a submission inserts. */
  function NegotiationRow(f: NegotiationForm, selected: Option<BookingView>, sender: string): Negotiation {
    Negotiation(f.bookingId, sender, ClassifyMessage(f), PriceToStore(f, selected),
                OrNull(f.proposedDate), OrNull(f.proposedTime), OrNull(f.message))
  }

  /** `startNegotiation(booking, kind)`: the form opens on the booking, pre-filled with its
      preferred date and time, and with the effective price as text for a price offer only. */
  function Prefill(v: BookingView, kind: string): (f: NegotiationForm)
    ensures f.bookingId == v.booking.id && f.messageType == kind && f.message == ""
    ensures f.proposedPrice != "" <==> kind == "price_offer"
  {
    NegotiationForm(
      v.booking.id, kind,
      if kind == "price_offer" then IntToString(EffectivePrice(v.negotiations, v.booking.offeredPrice)) else "",
      v.booking.preferredDate, v.booking.preferredTime, "")
  }

  /** Submitting a pre-filled price offer unchanged writes a price offer at exactly the
      effective price (the text round-trips through `toString` and `Number`). */
  lemma PrefilledOfferStoresEffectivePrice(v: BookingView, sender: string)
    ensures var row := NegotiationRow(Prefill(v, "price_offer"), Some(v), sender);
      && row.messageType == PriceOffer
      && row.proposedPrice == Some(EffectivePrice(v.negotiations, v.booking.offeredPrice))
  {
    IntToStringRoundTrip(EffectivePrice(v.negotiations, v.booking.offeredPrice));
  }

  /** Submitting a pre-filled message or time change writes a row that carries the current
      effective price, so appending it to the booking's history leaves that price unchanged. */
  lemma PrefilledNonOfferKeepsPrice(v: BookingView, kind: string, msg: string, sender: string)
    requires kind != "price_offer"
    ensures var row := NegotiationRow(Prefill(v, kind).(message := msg), Some(v), sender);
      && row.messageType != PriceOffer
      && EffectivePrice(v.negotiations + [row], v.booking.offeredPrice)
         == EffectivePrice(v.negotiations, v.booking.offeredPrice)
  {
    var row := NegotiationRow(Prefill(v, kind).(message := msg), Some(v), sender);
    CarriedPriceKeepsEffectivePrice(v.negotiations, row, v.booking.offeredPrice);
  }

  // ---------------------------------------------------------------------------
  // Grouping the ledger by booking
  // ---------------------------------------------------------------------------

  /** The entries of one booking, in ledger order. */
  function ForBooking(negs: seq<Negotiation>, id: string): (r: seq<Negotiation>)
    ensures |r| <= |negs|
    decreases |negs|
  {
    if negs == [] then []
    else
      var last := negs[|negs| - 1];
      ForBooking(negs[..|negs| - 1], id) + (if last.bookingId == id then [last] else [])
  }

  function BookingIdsOf(negs: seq<Negotiation>): set<string> {
    set i | 0 <= i < |negs| :: negs[i].bookingId
  }

  /** The result the grouping `reduce` builds: one list per booking id that occurs. */
  function Grouped(negs: seq<Negotiation>): map<string, seq<Negotiation>> {
    map id | id in BookingIdsOf(negs) :: ForBooking(negs, id)
  }

  lemma {:induction false} ForBookingAbsent(negs: seq<Negotiation>, id: string)
    requires id !in BookingIdsOf(negs)
    ensures ForBooking(negs, id) == []
    decreases |negs|
  {
    if negs != [] {
      var init := negs[..|negs| - 1];
      assert BookingIdsOf(init) <= BookingIdsOf(negs) by {
        forall x | x in BookingIdsOf(init) ensures x in BookingIdsOf(negs) {
          var i :| 0 <= i < |init| && init[i].bookingId == x;
          assert negs[i].bookingId == x;
        }
      }
      ForBookingAbsent(init, id);
    }
  }

  /** The `reduce` over the ledger rows: each row is pushed onto its booking's list, a list
      being created the first time its booking id is seen. */
  method GroupByBooking(negs: seq<Negotiation>) returns (groups: map<string, seq<Negotiation>>)
    ensures groups == Grouped(negs)
  {
    groups := map[];
    for i := 0 to |negs|
      invariant groups.Keys == BookingIdsOf(negs[..i])
      invariant forall id :: id in groups ==> groups[id] == ForBooking(negs[..i], id)
    {
      var n := negs[i];
      BookingIdsSnoc(negs, i);
      ForBookingSnoc(negs, i);
      if n.bookingId !in groups {
        ForBookingAbsent(negs[..i], n.bookingId);
        groups := groups[n.bookingId := []];
      }
      groups := groups[n.bookingId := groups[n.bookingId] + [n]];
    }
    assert negs[..|negs|] == negs;
  }

  lemma BookingIdsSnoc(negs: seq<Negotiation>, i: int)
    requires 0 <= i < |negs|
    ensures BookingIdsOf(negs[..i + 1]) == BookingIdsOf(negs[..i]) + {negs[i].bookingId}
  {
    var n := negs[i];
    assert negs[..i + 1][i] == n;
    forall x | x in BookingIdsOf(negs[..i + 1]) ensures x in BookingIdsOf(negs[..i]) + {n.bookingId} {
      var j :| 0 <= j < i + 1 && negs[..i + 1][j].bookingId == x;
      if j < i {
        assert negs[..i][j].bookingId == x;
      }
    }
    forall x | x in BookingIdsOf(negs[..i]) ensures x in BookingIdsOf(negs[..i + 1]) {
      var j :| 0 <= j < i && negs[..i][j].bookingId == x;
      assert negs[..i + 1][j].bookingId == x;
    }
  }

  lemma ForBookingSnoc(negs: seq<Negotiation>, i: int)
    requires 0 <= i < |negs|
    ensures forall id ::
      ForBooking(negs[..i + 1], id) == ForBooking(negs[..i], id) + (if negs[i].bookingId == id then [negs[i]] else [])
  {
    assert negs[..i + 1][..i] == negs[..i];
  }

  /** The rows of one booking are exactly the ledger rows carrying its id. */
  lemma {:induction false} ForBookingMembers(negs: seq<Negotiation>, id: string, n: Negotiation)
    ensures n in ForBooking(negs, id) <==> n in negs && n.bookingId == id
    decreases |negs|
  {
    if negs != [] {
      var init := negs[..|negs| - 1];
      assert negs == init + [negs[|negs| - 1]];
      ForBookingMembers(init, id, n);
    }
  }

  /** Grouping distributes over concatenation, so each booking's list keeps ledger order. */
  lemma {:induction false} ForBookingConcat(a: seq<Negotiation>, b: seq<Negotiation>, id: string)
    ensures ForBooking(a + b, id) == ForBooking(a, id) + ForBooking(b, id)
    decreases |b|
  {
    if b != [] {
      var init := b[..|b| - 1];
      assert (a + b)[..|a + b| - 1] == a + init;
      ForBookingConcat(a, init, id);
    } else {
      assert a + b == a;
    }
  }

  // ---------------------------------------------------------------------------
  // fetchBookings
  // ---------------------------------------------------------------------------

  /** `.eq('worker_id', workerId)`, in the store's order. */
  function RowsOfWorker(rows: seq<Booking>, workerId: string): (r: seq<Booking>)
    ensures forall i :: 0 <= i < |r| ==> r[i].workerId == workerId
    ensures forall b :: b in rows && b.workerId == workerId ==> b in r
    decreases |rows|
  {
    if rows == [] then []
    else (if rows[0].workerId == workerId then [rows[0]] else []) + RowsOfWorker(rows[1..], workerId)
  }

  /** The fetch keeps exactly the rows of the worker. */
  lemma {:induction false} RowsOfWorkerMembers(rows: seq<Booking>, workerId: string)
    ensures forall b :: b in RowsOfWorker(rows, workerId) <==> b in rows && b.workerId == workerId
    decreases |rows|
  {
    if rows != [] {
      RowsOfWorkerMembers(rows[1..], workerId);
      assert forall b :: b in rows <==> b == rows[0] || b in rows[1..];
    }
  }

  /** The fetch distributes over concatenation, so the kept rows stay in the store's order. */
  lemma {:induction false} RowsOfWorkerConcat(a: seq<Booking>, b: seq<Booking>, workerId: string)
    ensures RowsOfWorker(a + b, workerId) == RowsOfWorker(a, workerId) + RowsOfWorker(b, workerId)
    decreases |a|
  {
    if a == [] {
      assert a + b == b;
    } else {
      assert (a + b)[0] == a[0];
      assert (a + b)[1..] == a[1..] + b;
      RowsOfWorkerConcat(a[1..], b, workerId);
    }
  }

  function IdsOf(rows: seq<Booking>): set<string> {
    set i | 0 <= i < |rows| :: rows[i].id
  }

  /** `.in('booking_id', ids)`, in ledger order. */
  function WithBookingIn(negs: seq<Negotiation>, ids: set<string>): seq<Negotiation>
    decreases |negs|
  {
    if negs == [] then []
    else
      var last := negs[|negs| - 1];
      WithBookingIn(negs[..|negs| - 1], ids) + (if last.bookingId in ids then [last] else [])
  }

  lemma {:induction false} ForBookingWithIn(negs: seq<Negotiation>, ids: set<string>, id: string)
    requires id in ids
    ensures ForBooking(WithBookingIn(negs, ids), id) == ForBooking(negs, id)
    decreases |negs|
  {
    if negs != [] {
      var init, last := negs[..|negs| - 1], negs[|negs| - 1];
      ForBookingWithIn(init, ids, id);
      var w := WithBookingIn(init, ids);
      var tail := if last.bookingId in ids then [last] else [];
      ForBookingConcat(w, tail, id);
    }
  }

  /** Each booking row with its group, or an empty list when none was found. */
  function Attach(rows: seq<Booking>, groups: map<string, seq<Negotiation>>): (r: seq<BookingView>)
    ensures |r| == |rows|
    ensures forall i :: 0 <= i < |rows| ==> r[i].booking == rows[i]
  {
    seq(|rows|, i requires 0 <= i < |rows| =>
      BookingView(rows[i], if rows[i].id in groups then groups[rows[i].id] else []))
  }

  /** What a successful fetch shows: the worker's bookings, each with its negotiation rows. */
  function WorkerViews(rows: seq<Booking>, ledger: seq<Negotiation>, workerId: string): seq<BookingView> {
    var mine := RowsOfWorker(rows, workerId);
    if mine == [] then [] else Attach(mine, Grouped(WithBookingIn(ledger, IdsOf(mine))))
  }

  /** Every fetched booking belongs to the worker and gets a list, possibly empty, holding
      exactly its own ledger rows in ledger order. */
  lemma FetchedHistories(rows: seq<Booking>, ledger: seq<Negotiation>, workerId: string)
    ensures var views := WorkerViews(rows, ledger, workerId);
      forall i :: 0 <= i < |views| ==>
        views[i].booking.workerId == workerId
        && views[i].negotiations == ForBooking(ledger, views[i].booking.id)
  {
    var mine := RowsOfWorker(rows, workerId);
    var views := WorkerViews(rows, ledger, workerId);
    if mine != [] {
      var sel := WithBookingIn(ledger, IdsOf(mine));
      forall i | 0 <= i < |views|
        ensures views[i].negotiations == ForBooking(ledger, views[i].booking.id)
      {
        var id := mine[i].id;
        assert id in IdsOf(mine);
        ForBookingWithIn(ledger, IdsOf(mine), id);
        if id !in BookingIdsOf(sel) {
          ForBookingAbsent(sel, id);
        }
      }
    }
  }

  /** `bookings.find(b => b.id === id)`. */
  function FindView(views: seq<BookingView>, id: string): (r: Option<BookingView>)
    ensures r.Some? ==> r.value in views && r.value.booking.id == id
    ensures r.None? ==> forall v :: v in views ==> v.booking.id != id
  {
    if views == [] then None
    else if views[0].booking.id == id then Some(views[0])
    else FindView(views[1..], id)
  }

  /** `find` returns the first booking with the id: one with that id and no such booking
      before it is the one found. */
  lemma {:induction false} FindViewFirst(views: seq<BookingView>, id: string, k: int)
    requires 0 <= k < |views| && views[k].booking.id == id
    requires forall j :: 0 <= j < k ==> views[j].booking.id != id
    ensures FindView(views, id) == Some(views[k])
    decreases k
  {
    if k > 0 {
      FindViewFirst(views[1..], id, k - 1);
    }
  }

  // ---------------------------------------------------------------------------
  // The screen's state and handlers
  // ---------------------------------------------------------------------------

  class WorkerBookingsPage {
    const workerId: string
    const store: Store
    var bookings: seq<BookingView>
    var selected: Option<BookingView>
    var form: NegotiationForm
    var showModal: bool

    constructor (workerId: string, store: Store)
      ensures this.workerId == workerId && this.store == store
      ensures bookings == [] && selected == None && form == BlankForm && !showModal
    {
      this.workerId := workerId;
      this.store := store;
      bookings := [];
      selected := None;
      form := BlankForm;
      showModal := false;
    }

    /** `fetchBookings`: on success the list is replaced by the worker's bookings with their
        grouped histories; a failed read leaves it as it was. */
    method FetchBookings(fails: bool)
      modifies this`bookings
      ensures bookings == if fails then old(bookings) else WorkerViews(store.bookings, store.ledger, workerId)
    {
      if fails {
        return;
      }
      var mine := RowsOfWorker(store.bookings, workerId);
      if mine == [] {
        bookings := [];
        return;
      }
      var groups := GroupByBooking(WithBookingIn(store.ledger, IdsOf(mine)));
      bookings := Attach(mine, groups);
    }

    /** `handleBookingAction`: an unknown action writes nothing; otherwise the update is sent
        and, when it succeeds, the list is re-read. The ledger is never written. */
    method HandleBookingAction(bookingId: string, action: string, extra: Option<ConfirmData>, now: string,
                               updateFails: bool, fetchFails: bool)
      modifies this`bookings, store
      ensures store.ledger == old(store.ledger)
      ensures var p := ActionPatch(action, extra, now);
        && store.bookings == (if p.Ok? && !updateFails then PatchWhere(old(store.bookings), bookingId, p.value)
                              else old(store.bookings))
        && bookings == (if p.Ok? && !updateFails && !fetchFails
                        then WorkerViews(store.bookings, store.ledger, workerId) else old(bookings))
    {
      var p := ActionPatch(action, extra, now);
      if p.Err? {
        return;
      }
      var ok := store.UpdateBooking(bookingId, p.value, updateFails);
      if ok {
        FetchBookings(fetchFails);
      }
    }

    /** `startNegotiation`: opens the modal on the booking with the pre-filled form. */
    method StartNegotiation(v: BookingView, kind: string)
      modifies this`form, this`selected, this`showModal
      ensures form == Prefill(v, kind) && selected == Some(v) && showModal
    {
      form := Prefill(v, kind);
      selected := Some(v);
      showModal := true;
    }

    /** A click on one of a card's buttons. */
    method Click(v: BookingView, b: Button, now: string, updateFails: bool, fetchFails: bool)
      modifies this`form, this`selected, this`showModal, this`bookings, store
      ensures b.Negotiate? ==> form == Prefill(v, b.kind) && selected == Some(v) && showModal
      ensures b.Negotiate? ==> bookings == old(bookings) && unchanged(store)
      ensures b.Act? ==> store.ledger == old(store.ledger)
      ensures b.Act? ==> form == old(form) && selected == old(selected) && showModal == old(showModal)
      ensures b.Act? ==> var p := ActionPatch(b.action, if b.action == "confirm" then Some(ConfirmDataFor(v.booking)) else None, now);
        && store.bookings == (if p.Ok? && !updateFails then PatchWhere(old(store.bookings), v.booking.id, p.value)
                              else old(store.bookings))
        && bookings == (if p.Ok? && !updateFails && !fetchFails
                        then WorkerViews(store.bookings, store.ledger, workerId) else old(bookings))
    {
      if b.Negotiate? {
        StartNegotiation(v, b.kind);
      } else {
        var extra := if b.action == "confirm" then Some(ConfirmDataFor(v.booking)) else None;
        HandleBookingAction(v.booking.id, b.action, extra, now, updateFails, fetchFails);
      }
    }

    /** `handleNegotiation`: inserts the ledger row first and stops if that fails; then, when the
        form has a price, sets the booking to negotiating (a failure there is only logged);
        then clears the form, closes the modal, re-reads the list (`fetchFails`) and, by a
        second read of its own (`refetchFails`), the selected booking. */
    method HandleNegotiation(insertFails: bool, updateFails: bool, fetchFails: bool, refetchFails: bool)
      modifies this, store
      ensures var row := NegotiationRow(old(form), old(selected), workerId);
        store.ledger == if insertFails then old(store.ledger) else old(store.ledger) + [row]
      ensures store.bookings ==
        if !insertFails && old(form).proposedPrice != "" && !updateFails
        then PatchWhere(old(store.bookings), old(form).bookingId, StatusPatch(Negotiating))
        else old(store.bookings)
      ensures insertFails ==>
        form == old(form) && showModal == old(showModal) && selected == old(selected) && bookings == old(bookings)
      ensures !insertFails ==> form == BlankForm && !showModal
      ensures !insertFails && fetchFails ==> bookings == old(bookings)
      ensures !insertFails && !fetchFails ==> bookings == WorkerViews(store.bookings, store.ledger, workerId)
      ensures !insertFails ==>
        var updated := if refetchFails then [] else WorkerViews(store.bookings, store.ledger, workerId);
        selected ==
          if old(selected).Some? && FindView(updated, old(selected).value.booking.id).Some?
          then FindView(updated, old(selected).value.booking.id)
          else old(selected)
      ensures !insertFails && !fetchFails && !refetchFails && old(selected).Some?
        && FindView(bookings, old(selected).value.booking.id).Some?
        ==> selected == FindView(bookings, old(selected).value.booking.id)
    {
      var row := NegotiationRow(form, selected, workerId);
      var inserted := WriteNegotiation(row, form.bookingId, form.proposedPrice != "", insertFails, updateFails);
      if !inserted {
        return;
      }
      showModal := false;
      form := BlankForm;
      FetchBookings(fetchFails);
      RefreshSelection(refetchFails);
    }

    /** The store writes of `handleNegotiation`: the ledger row, then, for a priced form, the
        status update. */
    method WriteNegotiation(row: Negotiation, bookingId: string, priced: bool, insertFails: bool, updateFails: bool)
      returns (inserted: bool)
      modifies store
      ensures inserted == !insertFails
      ensures store.ledger == if insertFails then old(store.ledger) else old(store.ledger) + [row]
      ensures store.bookings ==
        if !insertFails && priced && !updateFails
        then PatchWhere(old(store.bookings), bookingId, StatusPatch(Negotiating))
        else old(store.bookings)
    {
      inserted := store.InsertNegotiation(row, insertFails);
      if inserted && priced {
        var _ := store.UpdateBooking(bookingId, StatusPatch(Negotiating), updateFails);
      }
    }

    /** `getUpdatedBookings` and the `find` after it: a second read of the worker's bookings
        (an empty list when it fails) is searched for the selected booking, which is replaced
        when found and kept otherwise. */
    method RefreshSelection(readFails: bool)
      modifies this`selected
      ensures var updated := if readFails then [] else WorkerViews(store.bookings, store.ledger, workerId);
        selected ==
          if old(selected).Some? && FindView(updated, old(selected).value.booking.id).Some?
          then FindView(updated, old(selected).value.booking.id)
          else old(selected)
      ensures readFails ==> selected == old(selected)
    {
      if selected.Some? {
        var updated := if readFails then [] else WorkerViews(store.bookings, store.ledger, workerId);
        var refreshed := FindView(updated, selected.value.booking.id);
        if refreshed.Some? {
          selected := refreshed;
        }
      }
    }
  }
}
