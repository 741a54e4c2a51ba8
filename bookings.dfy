/** The bookings page: the read-side buckets, the actions each row offers,
    the single-column writes those actions make, and the notices they send. */
module Bookings {
  import opened Rental
  import Seqs

  /** The per-row test of `filterBookingsByStatus`. An end date is compared
      with `now` in the same unit; a bucket name other than the three shown
      selects every booking. */
  predicate InBucket(b: Booking, bucket: string, now: int): (r: bool)
    ensures bucket == "active" && r ==> b.endDate >= now && (b.status == Accepted || b.status == Completed)
    ensures b.status == Rejected || b.status == Cancelled || b.status == Returned ==>
      (r <==> bucket != "active" && bucket != "pending")
    ensures bucket != "active" && bucket != "pending" && bucket != "past" ==> r
  {
    if bucket == "active" then (b.status == Accepted || b.status == Completed) && b.endDate >= now
    else if bucket == "pending" then b.status == Pending
    else if bucket == "past" then
      b.endDate < now || b.status == Rejected || b.status == Cancelled || b.status == Returned
    else true
  }

  function BucketOf(bucket: string, now: int): Booking -> bool {
    (b: Booking) => InBucket(b, bucket, now)
  }

  /** `filterBookingsByStatus`: the bookings of one bucket, in list order. */
  function FilterBookingsByStatus(bookings: seq<Booking>, bucket: string, now: int): (r: seq<Booking>)
    ensures Seqs.IsSubsequence(r, bookings)
    ensures bucket == "active" ==> forall b :: b in r <==>
      b in bookings && (b.status == Accepted || b.status == Completed) && b.endDate >= now
    ensures bucket == "pending" ==> forall b :: b in r <==> b in bookings && b.status == Pending
    ensures bucket == "past" ==> forall b :: b in r <==>
      b in bookings && (b.endDate < now || b.status == Rejected || b.status == Cancelled || b.status == Returned)
    ensures bucket != "active" && bucket != "pending" && bucket != "past" ==> r == bookings
  {
    if bucket != "active" && bucket != "pending" && bucket != "past" then
      Seqs.FilterKeepsAll(bookings, BucketOf(bucket, now));
      Seqs.Filter(bookings, BucketOf(bucket, now))
    else
      Seqs.Filter(bookings, BucketOf(bucket, now))
  }

  /** No booking is both active and past, or both active and pending. */
  lemma ActiveIsDisjoint(bookings: seq<Booking>, now: int, b: Booking)
    ensures !(b in FilterBookingsByStatus(bookings, "active", now) && b in FilterBookingsByStatus(bookings, "past", now))
    ensures !(b in FilterBookingsByStatus(bookings, "active", now) && b in FilterBookingsByStatus(bookings, "pending", now))
  {
  }

  /** A pending request whose end date has passed is listed twice: under
      pending and under past. */
  lemma StalePendingInTwoBuckets(bookings: seq<Booking>, now: int, b: Booking)
    requires b in bookings && b.status == Pending && b.endDate < now
    ensures b in FilterBookingsByStatus(bookings, "pending", now)
    ensures b in FilterBookingsByStatus(bookings, "past", now)
    ensures b !in FilterBookingsByStatus(bookings, "active", now)
  {
  }

  /** Which list the page shows: bookings the user rents, or bookings of the
      user's listings. */
  datatype Tab = RenterTab | OwnerTab

  /** The buttons a booking row can show. */
  datatype Action = Accept | Decline | MarkPaid | MarkReturned | CancelRequest

  /** A write to one column of a booking row. */
  datatype Update = StatusUpdate(status: Status) | PaymentUpdate(payment: PaymentStatus)

  /** The handler each button calls, with its argument. */
  function Effect(a: Action): Update {
    match a
    case Accept => StatusUpdate(Accepted)
    case Decline => StatusUpdate(Rejected)
    case MarkPaid => PaymentUpdate(Paid)
    case MarkReturned => StatusUpdate(Returned)
    case CancelRequest => StatusUpdate(Cancelled)
  }

  /** The action buttons of one row, in the order they are rendered. A row
      whose listing no longer exists is drawn as "Listing no longer
      available" with its dates, price and status, and no button. Only
      pending and accepted rows offer anything, never more than two buttons. */
  function OfferedActions(tab: Tab, b: Booking): (r: seq<Action>)
    ensures b.listingTitle.None? ==> r == []
    ensures r != [] ==> b.status == Pending || b.status == Accepted
    ensures |r| <= 2
  {
    if b.listingTitle.None? then []
    else
      (if tab == OwnerTab && b.status == Pending then [Accept, Decline] else []) +
      (if tab == OwnerTab && b.status == Accepted then
         (if b.paymentStatus == PaymentPending then [MarkPaid] else []) + [MarkReturned]
       else []) +
      (if tab == RenterTab && b.status == Pending then [CancelRequest] else [])
  }

  /** Some button of the row performs this write. */
  ghost predicate Offers(tab: Tab, b: Booking, u: Update) {
    exists a :: a in OfferedActions(tab, b) && Effect(a) == u
  }

  /** Reference transition table of the status column. */
  predicate StatusTransition(tab: Tab, from: Status, to: Status) {
    || (tab == OwnerTab && from == Pending && (to == Accepted || to == Rejected))
    || (tab == OwnerTab && from == Accepted && to == Returned)
    || (tab == RenterTab && from == Pending && to == Cancelled)
  }

  /** Reference transition table of the payment column. */
  predicate PaymentTransition(tab: Tab, status: Status, from: PaymentStatus, to: PaymentStatus) {
    tab == OwnerTab && status == Accepted && from == PaymentPending && to == Paid
  }

  /** The per-role, per-status button guards implement exactly the
      transition table on rows whose listing still exists: a write is
      offered if and only if the listing is there and the table allows it. */
  lemma GuardsMatchTable(tab: Tab, b: Booking, u: Update)
    ensures Offers(tab, b, u) <==>
      b.listingTitle.Some? &&
      match u
      case StatusUpdate(to) => StatusTransition(tab, b.status, to)
      case PaymentUpdate(p) => PaymentTransition(tab, b.status, b.paymentStatus, p)
  {
    var acts := OfferedActions(tab, b);
    if b.listingTitle.None? {
      return;
    }
    match u
    case StatusUpdate(to) =>
      if StatusTransition(tab, b.status, to) {
        var a := if to == Accepted then Accept else if to == Rejected then Decline
                 else if to == Returned then MarkReturned else CancelRequest;
        assert a in acts && Effect(a) == u;
      }
    case PaymentUpdate(p) =>
      if PaymentTransition(tab, b.status, b.paymentStatus, p) {
        assert MarkPaid in acts && Effect(MarkPaid) == u;
      }
  }

  /** Rejected, cancelled, completed and returned bookings offer no action,
      and neither does an accepted booking to its renter. */
  lemma SettledRowsOfferNothing(tab: Tab, b: Booking)
    requires b.status in {Rejected, Cancelled, Completed, Returned} || (tab == RenterTab && b.status == Accepted)
    ensures OfferedActions(tab, b) == []
  {
  }

  /** The two message texts that quote the listing's title. */
  predicate NamesListing(s: Status) {
    s == Accepted || s == Rejected
  }

  /** The message text of `handleStatusUpdate`. The accept and decline texts
      quote the listing's title, read from the listing the row was fetched
      with; every other status is reported by its column value. */
  function StatusText(title: Option<string>, newStatus: Status): (r: string)
    requires NamesListing(newStatus) ==> title.Some?
    ensures NamesListing(newStatus) ==>
      |r| > 18 + |title.value| && r[..18] == "Your booking for \"" && r[18..18 + |title.value|] == title.value
    ensures !NamesListing(newStatus) ==> |r| > 26 && r[26..] == StatusName(newStatus)
  {
    if newStatus == Accepted then "Your booking for \"" + title.value + "\" has been accepted!"
    else if newStatus == Rejected then "Your booking for \"" + title.value + "\" has been declined."
    else "Booking status updated to " + StatusName(newStatus)
  }

  /** Different new statuses give different message texts. */
  lemma StatusTextsDistinct(title: Option<string>, s1: Status, s2: Status)
    requires NamesListing(s1) || NamesListing(s2) ==> title.Some?
    requires s1 != s2
    ensures StatusText(title, s1) != StatusText(title, s2)
  {
    var t1, t2 := StatusText(title, s1), StatusText(title, s2);
    var generic := "Booking status updated to ";
    var prefix := "Your booking for \"";
    if (s1 == Accepted || s1 == Rejected) && (s2 == Accepted || s2 == Rejected) {
      var k := |prefix| + |title.value| + 11;
      assert t1[k] != t2[k];
    } else if s1 == Accepted || s1 == Rejected || s2 == Accepted || s2 == Rejected {
      assert t1[0] != t2[0];
    } else {
      assert t1[|generic|..] == StatusName(s1) && t2[|generic|..] == StatusName(s2);
      assert StatusName(s1) != StatusName(s2) by {
        assert |StatusName(s1)| != |StatusName(s2)| || StatusName(s1)[1] != StatusName(s2)[1];
      }
    }
  }

  /** The notice `handleStatusUpdate` writes after a status change: from the
      acting user to the booking's renter, tagged with the booking. */
  function StatusNotice(b: Booking, sender: UserId, newStatus: Status): (n: Notice)
    requires NamesListing(newStatus) ==> b.listingTitle.Some?
    ensures n.senderId == sender && n.receiverId == b.renterId && n.bookingId == b.id
    ensures n.text == StatusText(b.listingTitle, newStatus)
  {
    Notice(sender, b.renterId, b.id, StatusText(b.listingTitle, newStatus))
  }

  /** As written, a renter who cancels a request is sent the cancellation
      notice themselves: its sender and its recipient are both the renter,
      and the listing's owner is never told. */
  lemma CancelNoticeReturnsToRenter(b: Booking, ownerId: UserId)
    requires b.status == Pending && b.listingTitle.Some? && ownerId != b.renterId
    ensures CancelRequest in OfferedActions(RenterTab, b)
    ensures StatusNotice(b, b.renterId, Cancelled).receiverId == StatusNotice(b, b.renterId, Cancelled).senderId
    ensures StatusNotice(b, b.renterId, Cancelled).receiverId != ownerId
  {
  }

  /** The notice addressed as evidently intended: to the other party of the
      booking, the owner when the renter acts and the renter when the owner
      acts. */
  function CounterpartyNotice(b: Booking, ownerId: UserId, tab: Tab, newStatus: Status): (n: Notice)
    requires NamesListing(newStatus) ==> b.listingTitle.Some?
    ensures n.senderId == (if tab == OwnerTab then ownerId else b.renterId)
    ensures n.receiverId == (if tab == OwnerTab then b.renterId else ownerId)
    ensures n.bookingId == b.id && n.text == StatusText(b.listingTitle, newStatus)
  {
    var sender := if tab == OwnerTab then ownerId else b.renterId;
    var receiver := if tab == OwnerTab then b.renterId else ownerId;
    Notice(sender, receiver, b.id, StatusText(b.listingTitle, newStatus))
  }

  /** With the corrected addressing, every status change offered on either
      tab is reported to the other party, never back to the one who acted,
      and owner-initiated changes reach the renter as the code already does. */
  lemma CounterpartyNoticeReachesOtherParty(tab: Tab, b: Booking, ownerId: UserId, a: Action)
    requires ownerId != b.renterId && a in OfferedActions(tab, b) && Effect(a).StatusUpdate?
    ensures CounterpartyNotice(b, ownerId, tab, Effect(a).status).receiverId !=
            CounterpartyNotice(b, ownerId, tab, Effect(a).status).senderId
    ensures tab == OwnerTab ==>
            CounterpartyNotice(b, ownerId, tab, Effect(a).status) == StatusNotice(b, ownerId, Effect(a).status)
    ensures tab == RenterTab ==>
      a == CancelRequest && CounterpartyNotice(b, ownerId, tab, Effect(a).status).receiverId == ownerId
  {
  }

  /** Every row is stored under its own id. */
  ghost predicate Keyed(t: map<BookingId, Booking>) {
    forall id :: id in t ==> t[id].id == id
  }

  /** `update({ status })` on the row with the given id: only that row's
      status column changes. */
  function WithStatus(t: map<BookingId, Booking>, id: BookingId, s: Status): (r: map<BookingId, Booking>)
    ensures r.Keys == t.Keys
    ensures forall k :: k in t && k != id ==> r[k] == t[k]
    ensures id in t ==> r[id].status == s && r[id].(status := t[id].status) == t[id]
    ensures Keyed(t) ==> Keyed(r)
  {
    if id in t then t[id := t[id].(status := s)] else t
  }

  /** `update({ payment_status })` on the row with the given id: only that
      row's payment column changes. */
  function WithPayment(t: map<BookingId, Booking>, id: BookingId, p: PaymentStatus): (r: map<BookingId, Booking>)
    ensures r.Keys == t.Keys
    ensures forall k :: k in t && k != id ==> r[k] == t[k]
    ensures id in t ==> r[id].paymentStatus == p && r[id].(paymentStatus := t[id].paymentStatus) == t[id]
    ensures Keyed(t) ==> Keyed(r)
  {
    if id in t then t[id := t[id].(paymentStatus := p)] else t
  }

  /** Marking a booking paid twice is the same as marking it once. */
  lemma PaymentUpdateIdempotent(t: map<BookingId, Booking>, id: BookingId, p: PaymentStatus)
    ensures WithPayment(WithPayment(t, id, p), id, p) == WithPayment(t, id, p)
  {
  }

  /** The two columns are independent: a status write and a payment write
      commute. */
  lemma UpdatesCommute(t: map<BookingId, Booking>, id1: BookingId, s: Status, id2: BookingId, p: PaymentStatus)
    ensures WithStatus(WithPayment(t, id2, p), id1, s) == WithPayment(WithStatus(t, id1, s), id2, p)
  {
  }

  /** The bookings table, updated in place by the page's two handlers. */
  class BookingTable {
    var rows: map<BookingId, Booking>

    ghost predicate Valid()
      reads this
    {
      Keyed(rows)
    }

    constructor (initial: map<BookingId, Booking>)
      requires Keyed(initial)
      ensures Valid() && rows == initial
    {
      rows := initial;
    }

    /** `handleStatusUpdate`: when the write succeeds, set the status column
        and, if the row is known, notify its renter. A failed write changes
        nothing and sends nothing. When the text would quote the title of a
        listing that no longer exists, reading it throws after the write and
        no notice is sent. Rows are keyed, so the notice names the booking
        that was written. */
    method UpdateStatus(bookingId: BookingId, newStatus: Status, sender: UserId, writeOk: bool)
      returns (notice: Option<Notice>)
      requires Valid()
      modifies this
      ensures Valid()
      ensures rows == if writeOk then WithStatus(old(rows), bookingId, newStatus) else old(rows)
      ensures notice ==
        if writeOk && bookingId in old(rows) && (NamesListing(newStatus) ==> old(rows)[bookingId].listingTitle.Some?)
        then Some(StatusNotice(old(rows)[bookingId], sender, newStatus))
        else None
      ensures notice.Some? ==> notice.value.bookingId == bookingId && notice.value.receiverId == rows[bookingId].renterId
    {
      notice := None;
      if writeOk {
        var found := bookingId in rows && (NamesListing(newStatus) ==> rows[bookingId].listingTitle.Some?);
        var before := if found then Some(rows[bookingId]) else None;
        rows := WithStatus(rows, bookingId, newStatus);
        if found {
          notice := Some(StatusNotice(before.value, sender, newStatus));
        }
      }
    }

    /** `handlePaymentUpdate`: when the write succeeds, set the payment
        column; nothing else changes and no notice is sent. */
    method UpdatePayment(bookingId: BookingId, payment: PaymentStatus, writeOk: bool)
      requires Valid()
      modifies this
      ensures Valid()
      ensures rows == if writeOk then WithPayment(old(rows), bookingId, payment) else old(rows)
    {
      if writeOk {
        rows := WithPayment(rows, bookingId, payment);
      }
    }

    /** A click on one of a row's buttons. Every change made this way follows
        the transition table; dates, renter and price never change, and any
        notice concerns the clicked booking and goes to its renter. */
    method Perform(tab: Tab, bookingId: BookingId, a: Action, sender: UserId, writeOk: bool)
      returns (notice: Option<Notice>)
      requires Valid() && bookingId in rows && a in OfferedActions(tab, rows[bookingId])
      modifies this
      ensures Valid() && rows.Keys == old(rows).Keys
      ensures forall k :: k in rows && k != bookingId ==> rows[k] == old(rows)[k]
      ensures rows[bookingId].status == old(rows)[bookingId].status ||
              StatusTransition(tab, old(rows)[bookingId].status, rows[bookingId].status)
      ensures rows[bookingId].paymentStatus == old(rows)[bookingId].paymentStatus ||
              PaymentTransition(tab, old(rows)[bookingId].status, old(rows)[bookingId].paymentStatus,
                                rows[bookingId].paymentStatus)
      ensures rows[bookingId].startDate == old(rows)[bookingId].startDate
      ensures rows[bookingId].endDate == old(rows)[bookingId].endDate
      ensures rows[bookingId].totalPrice == old(rows)[bookingId].totalPrice
      ensures rows[bookingId].renterId == old(rows)[bookingId].renterId
      ensures notice.Some? ==> notice.value.bookingId == bookingId && notice.value.receiverId == rows[bookingId].renterId
      ensures !writeOk ==> rows == old(rows) && notice == None
      ensures writeOk && Effect(a).PaymentUpdate? ==>
        rows == WithPayment(old(rows), bookingId, Effect(a).payment) && notice == None
      ensures writeOk && Effect(a).StatusUpdate? ==>
        && rows == WithStatus(old(rows), bookingId, Effect(a).status)
        && notice == Some(StatusNotice(old(rows)[bookingId], sender, Effect(a).status))
    {
      GuardsMatchTable(tab, rows[bookingId], Effect(a));
      match Effect(a)
      case StatusUpdate(s) =>
        notice := UpdateStatus(bookingId, s, sender, writeOk);
      case PaymentUpdate(p) =>
        UpdatePayment(bookingId, p, writeOk);
        notice := None;
    }
  }
}
