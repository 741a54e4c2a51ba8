/** The entities the pages share: listings, bookings with their two status
    axes, and the notification messages the booking flow writes. Calendar
    dates are whole day numbers; prices are whole currency units. */
module Rental {

  datatype Option<T> = None | Some(value: T)

  type UserId = string
  type ListingId = string
  type BookingId = string

  /** The values the `status` column of a booking takes. */
  datatype Status = Pending | Accepted | Rejected | Cancelled | Completed | Returned

  /** The values of the independent `payment_status` column. */
  datatype PaymentStatus = PaymentPending | Paid | Refunded

  /** The column value as the pages spell it. */
  function StatusName(s: Status): string {
    match s
    case Pending => "pending"
    case Accepted => "accepted"
    case Rejected => "rejected"
    case Cancelled => "cancelled"
    case Completed => "completed"
    case Returned => "returned"
  }

  /** A row of the listings table, as the catalogue pages read it. Absent
      optional columns are `None`. */
  datatype Listing = Listing(
    id: ListingId,
    ownerId: UserId,
    title: string,
    description: Option<string>,
    category: string,
    price: int,
    location: Option<string>,
    createdAt: int,
    images: seq<string>)

  /** A row of the bookings table together with the title of the listing it
      was fetched with; `None` when that listing no longer exists and the
      join came back empty. */
  datatype Booking = Booking(
    id: BookingId,
    listingId: ListingId,
    listingTitle: Option<string>,
    renterId: UserId,
    startDate: int,
    endDate: int,
    totalPrice: int,
    status: Status,
    paymentStatus: PaymentStatus)

  /** A row written to the messages table to notify a party of a booking event. */
  datatype Notice = Notice(senderId: UserId, receiverId: UserId, bookingId: BookingId, text: string)
}
