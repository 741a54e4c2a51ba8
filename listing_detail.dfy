/** The listing detail page: which days existing bookings block, what a
    request costs, the booking request it writes, the guards on its two
    buttons, and the image carousel. */
module ListingDetail {
  import opened Rental
  import Seqs

  /** The statuses `fetchExistingBookings` selects: only these bookings are
      treated as holding days. */
  predicate IsBlockingStatus(s: Status) {
    s == Accepted || s == Pending
  }

  /** The row filter of `fetchExistingBookings`, for one listing. */
  function BlockerOf(listingId: ListingId): Booking -> bool {
    (b: Booking) => b.listingId == listingId && IsBlockingStatus(b.status)
  }

  /** `fetchExistingBookings`: the listing's bookings that are pending or
      accepted. */
  function ExistingBookings(all: seq<Booking>, listingId: ListingId): (r: seq<Booking>)
    ensures forall b :: b in r <==> b in all && b.listingId == listingId && IsBlockingStatus(b.status)
    ensures Seqs.IsSubsequence(r, all)
  {
    Seqs.Filter(all, BlockerOf(listingId))
  }

  /** A booking covers a day when the day lies in its range, both end days
      included. */
  predicate Covers(b: Booking, d: int) {
    b.startDate <= d <= b.endDate
  }

  /** `isDateAvailable`: no fetched booking covers the day. */
  function IsDateAvailable(existing: seq<Booking>, d: int): (r: bool)
    ensures r <==> forall k :: 0 <= k < |existing| ==> !Covers(existing[k], d)
    ensures existing == [] ==> r
  {
    existing == [] || (!Covers(existing[0], d) && IsDateAvailable(existing[1..], d))
  }

  /** A day is unavailable exactly when some pending or accepted booking of
      the listing covers it. */
  lemma BlockedExactlyWhenCovered(all: seq<Booking>, listingId: ListingId, d: int)
    ensures !IsDateAvailable(ExistingBookings(all, listingId), d) <==>
            exists b :: b in all && b.listingId == listingId && IsBlockingStatus(b.status) && Covers(b, d)
  {
    var existing := ExistingBookings(all, listingId);
    if !IsDateAvailable(existing, d) {
      var k :| 0 <= k < |existing| && Covers(existing[k], d);
      assert existing[k] in existing;
    }
  }

  /** The first and the last day of a fetched booking are themselves blocked. */
  lemma EndDaysBlocked(existing: seq<Booking>, b: Booking)
    requires b in existing && b.startDate <= b.endDate
    ensures !IsDateAvailable(existing, b.startDate)
    ensures !IsDateAvailable(existing, b.endDate)
  {
    var k :| 0 <= k < |existing| && existing[k] == b;
    assert Covers(existing[k], b.startDate) && Covers(existing[k], b.endDate);
  }

  /** A booking that is rejected, cancelled, completed or returned never
      changes which days are available. */
  lemma {:induction false} SettledBookingsNeverBlock(all: seq<Booking>, b: Booking, listingId: ListingId, d: int)
    requires !IsBlockingStatus(b.status)
    ensures IsDateAvailable(ExistingBookings(all + [b], listingId), d) ==
            IsDateAvailable(ExistingBookings(all, listingId), d)
  {
    Seqs.FilterSnoc(all, b, BlockerOf(listingId));
    assert ExistingBookings(all + [b], listingId) == ExistingBookings(all, listingId);
  }

  /** The number of days `handleBooking` charges: the whole days from start
      to end, plus one so that both end days count. */
  function DayCount(startDate: int, endDate: int): int {
    endDate - startDate + 1
  }

  /** The total price `handleBooking` stores: the listing price times the
      day count. */
  function TotalPrice(price: int, startDate: int, endDate: int): (t: int)
    ensures startDate == endDate ==> t == price
    ensures startDate <= endDate && price > 0 ==> t >= price
  {
    var n := DayCount(startDate, endDate);
    assert startDate <= endDate && price > 0 ==> price * n >= price by {
      if startDate <= endDate && price > 0 {
        assert price * n == price + price * (n - 1);
      }
    }
    price * n
  }

  /** Reference definition: the price charged day by day over every day of
      the range. */
  function DailySum(price: int, startDate: int, endDate: int): int
    decreases endDate - startDate
  {
    if endDate < startDate then 0 else DailySum(price, startDate, endDate - 1) + price
  }

  /** The stored total is the sum of one price per day over the inclusive
      range. */
  lemma {:induction false} TotalIsDailySum(price: int, startDate: int, endDate: int)
    requires startDate <= endDate + 1
    ensures TotalPrice(price, startDate, endDate) == DailySum(price, startDate, endDate)
    decreases endDate - startDate
  {
    if endDate >= startDate {
      TotalIsDailySum(price, startDate, endDate - 1);
      assert price * DayCount(startDate, endDate) == price * DayCount(startDate, endDate - 1) + price;
    }
  }

  /** Each extra day adds exactly one price: the total grows linearly. */
  lemma TotalGrowsByPrice(price: int, startDate: int, endDate: int)
    ensures TotalPrice(price, startDate, endDate + 1) == TotalPrice(price, startDate, endDate) + price
  {
    assert price * DayCount(startDate, endDate + 1) == price * DayCount(startDate, endDate) + price;
  }

  /** Three inclusive days at 1000 per day cost 3000. */
  lemma ThreeDaysAtThousand(d: int)
    ensures TotalPrice(1000, d, d + 2) == 3000
  {
  }

  /** What `handleBooking` ends in. */
  datatype RequestOutcome =
    | SignInRequired
    | InsertFailed
    | Requested(booking: Booking, notice: Notice)

  /** The text of the message sent to the owner; the two dates arrive
      already formatted. */
  function RequestText(title: string, startLabel: string, endLabel: string): string {
    "New booking request for \"" + title + "\" from " + startLabel + " to " + endLabel
  }

  /** `handleBooking`: without a signed-in user it asks to sign in;
      otherwise it inserts a pending booking for the chosen dates at the
      computed total and, when the insert returns the new row's id, notifies
      the listing's owner about that booking. */
  function RequestBooking(
    user: Option<UserId>, listing: Listing, startDate: int, endDate: int,
    insertedId: Option<BookingId>, startLabel: string, endLabel: string): (r: RequestOutcome)
    ensures r.SignInRequired? <==> user.None?
    ensures r.InsertFailed? <==> user.Some? && insertedId.None?
    ensures r.Requested? ==>
      && r.booking.id == insertedId.value
      && r.booking.listingId == listing.id
      && r.booking.renterId == user.value
      && r.booking.startDate == startDate && r.booking.endDate == endDate
      && r.booking.totalPrice == TotalPrice(listing.price, startDate, endDate)
      && r.booking.status == Pending
      && r.booking.paymentStatus == PaymentPending
    ensures r.Requested? ==>
      && r.notice.senderId == user.value
      && r.notice.receiverId == listing.ownerId
      && r.notice.bookingId == r.booking.id
  {
    match user
    case None => SignInRequired
    case Some(renter) =>
      match insertedId
      case None => InsertFailed
      case Some(id) =>
        var b := Booking(id, listing.id, Some(listing.title), renter, startDate, endDate,
                         TotalPrice(listing.price, startDate, endDate), Pending, PaymentPending);
        Requested(b, Notice(renter, listing.ownerId, id, RequestText(listing.title, startLabel, endLabel)))
  }

  /** The "Request to Book" button: disabled for the listing's owner only;
      a visitor who is not signed in may press it and is asked to sign in. */
  predicate RequestButtonDisabled(user: Option<UserId>, listing: Listing): (r: bool)
    ensures user.None? ==> !r
    ensures r ==> user.Some? && user.value == listing.ownerId
    ensures user.Some? && user.value != listing.ownerId ==> !r
  {
    user.Some? && user.value == listing.ownerId
  }

  /** The "Confirm Booking" button: disabled while a date is empty or a
      request is in flight. An empty date input is `None`. */
  predicate ConfirmDisabled(startInput: Option<int>, endInput: Option<int>, inFlight: bool): (r: bool)
    ensures inFlight ==> r
    ensures !r ==> startInput.Some? && endInput.Some?
    ensures startInput.Some? && endInput.Some? && !inFlight ==> !r
  {
    startInput.None? || endInput.None? || inFlight
  }

  /** Opening the booking dialog and confirming it: nothing happens while
      either button is disabled; otherwise `handleBooking` runs. */
  function SubmitRequest(
    user: Option<UserId>, listing: Listing, startInput: Option<int>, endInput: Option<int>,
    inFlight: bool, insertedId: Option<BookingId>, startLabel: string, endLabel: string): (r: Option<RequestOutcome>)
    ensures r.Some? <==> !RequestButtonDisabled(user, listing) && !ConfirmDisabled(startInput, endInput, inFlight)
    ensures r.Some? && r.value.Requested? ==> r.value.booking.renterId != listing.ownerId
    ensures r.Some? && r.value.Requested? ==>
      r.value.booking.startDate == startInput.value && r.value.booking.endDate == endInput.value
  {
    if RequestButtonDisabled(user, listing) || ConfirmDisabled(startInput, endInput, inFlight) then None
    else Some(RequestBooking(user, listing, startInput.value, endInput.value, insertedId, startLabel, endLabel))
  }

  /** `nextImage`: the last image is followed by the first. */
  function NextImage(prev: int, count: int): (r: int)
    ensures 0 <= prev < count ==> 0 <= r < count && r == (prev + 1) % count
  {
    if prev == count - 1 then 0 else prev + 1
  }

  /** `prevImage`: the first image is preceded by the last. */
  function PrevImage(prev: int, count: int): (r: int)
    ensures 0 <= prev < count ==> 0 <= r < count && (r + 1) % count == prev
  {
    if prev == 0 then count - 1 else prev - 1
  }

  /** Going back undoes going forward, and forward undoes back. */
  lemma NextPrevInverse(i: int, count: int)
    requires 0 <= i < count
    ensures PrevImage(NextImage(i, count), count) == i
    ensures NextImage(PrevImage(i, count), count) == i
  {
  }

  /** The index after k presses of the "next" button. */
  ghost function NextTimes(i: int, count: int, k: nat): int {
    if k == 0 then i else NextImage(NextTimes(i, count, k - 1), count)
  }

  /** Pressing "next" k times (k at most count) from index i moves k images
      on, wrapping past the last image once; so `count` presses return to
      the starting image. */
  lemma {:induction false} NextTimesWraps(i: int, count: int, k: nat)
    requires 0 <= i < count && k <= count
    ensures NextTimes(i, count, k) == if i + k < count then i + k else i + k - count
    ensures k == count ==> NextTimes(i, count, k) == i
  {
    if k > 0 {
      NextTimesWraps(i, count, k - 1);
    }
  }
}
