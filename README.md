# Rental marketplace: booking and list logic

This project models the logic inside the pages of a peer-to-peer rental
marketplace and proves properties of that logic. The marketplace is a React
single-page app over a hosted Postgres database. Users list items for rent,
request bookings for a date range, accept or decline requests, and message
each other. The model covers:

- **Listing detail** (`listing_detail.dfy`): which days are blocked by
  existing bookings, the price of a request, the booking request and owner
  notice that `handleBooking` writes, the two button guards, and the image
  carousel.
- **Bookings** (`bookings.dfy`): the active / pending / past buckets, the
  action buttons each row offers, and the single-column writes those buttons
  make. The bookings table is a class whose map of rows is updated in place.
  The notices the status buttons send are modelled too.
- **Profile** (`profile.dfy`): the active-bookings and completed-rentals
  counters and the defaults of the statistics strip.
- **Catalogue** (`listings.dfy`, `listing_filters.dfy`): the five-filter
  pipeline, the sort option table, an in-place sort on an array, the
  active-filter badge and the clear button.
- **Home** (`home.dfy`): the four-filter pipeline and its clear button.
- **Messages** (`messages.dfy`): grouping a newest-first message list into
  one conversation per counterpart in a single loop, resetting unread
  badges, the conversation search, and the send guard with its trim.
- **Listing form** (`create_listing.dfy`): the two parallel photo lists, the
  shown entries and the files still to upload. The model covers adding,
  removing, uploading and saving them, and the defaults of a loaded listing.

`text.dfy` holds the string operations the pages use: lower-casing,
substring search, prefix tests and trimming. `seqs.dfy` holds the generic
`filter` and the order-preserving subsequence relation. `rental.dfy` holds
the shared rows: listings, bookings, statuses and notices.

Modelling conventions:

- Calendar dates and "now" are whole day numbers in one unit.
- Prices are integers.
- Strings are sequences of characters.
- Database reads are inputs.
- Each database write is either a function of the old table or an outcome
  parameter. For example, `writeOk` says whether the write succeeded, and an
  `Option` holds the id the insert returned.

The model keeps the following behaviours of the code, which a reader of the
pages' labels might not expect:

- The availability check `isDateAvailable` is defined but no control calls it.
- Both pending and accepted bookings block days.
- Accepting a request does not re-check for overlaps.
- No button moves a booking to `completed`.
- Actions that are not allowed are simply not offered; there is no
  "invalid transition" or "forbidden" error.
- A pending request whose end date has passed is shown under both pending
  and past.
- `handleBooking` itself has no owner check and no start ≤ end check. Only
  the button is disabled for the owner.

## Model

| member | source | states |
|---|---|---|
| Seqs.Filter | src/pages/Bookings.jsx:130 | `filter` keeps exactly the elements satisfying the test, in their original order, never more than were there |
| Seqs.FilterIf | src/pages/Listings.jsx:81-106 | a filter step runs only when its input is set; otherwise the list passes through unchanged |
| Text.ToLower | src/pages/Listings.jsx:83 | lower-casing keeps the length and maps every character through the A-Z fold |
| Text.ToLowerIdempotent | src/pages/Listings.jsx:83 | lower-casing twice equals lower-casing once |
| Text.ContainsEmpty | src/pages/Listings.jsx:83 | every text contains the empty string |
| Text.TrimStartDrops | src/pages/Messages.jsx:163 | leading trim drops only white space and stops at the first other character |
| Text.TrimEndDrops | src/pages/Messages.jsx:163 | trailing trim drops only white space and stops at the last other character |
| Text.TrimIsSlice | src/pages/Messages.jsx:173 | the trimmed text is the contiguous slice of the draft after its leading white space |
| Text.TrimEnds | src/pages/Messages.jsx:173 | a non-empty trimmed text neither starts nor ends with white space |
| Text.TrimEmptyIff | src/pages/Messages.jsx:163 | a draft trims to nothing if and only if it is white space throughout |
| ListingDetail.ExistingBookings | src/pages/ListingDetail.jsx:72-84 | the blocking set is exactly the listing's pending or accepted bookings, in fetched order |
| ListingDetail.IsDateAvailable | src/pages/ListingDetail.jsx:137-144 | a day is available if and only if no fetched booking covers it; with none fetched every day is available |
| ListingDetail.BlockedExactlyWhenCovered | src/pages/ListingDetail.jsx:137-144 | a day is unavailable exactly when some pending or accepted booking of the listing covers it, both ends included |
| ListingDetail.EndDaysBlocked | src/pages/ListingDetail.jsx:137-144 | the first and last day of a fetched booking are blocked |
| ListingDetail.SettledBookingsNeverBlock | src/pages/ListingDetail.jsx:76-78 | adding a rejected, cancelled, completed or returned booking never changes availability |
| ListingDetail.TotalPrice | src/pages/ListingDetail.jsx:95-100 | a one-day rental costs exactly the price; a valid range at a positive price costs at least the price |
| ListingDetail.TotalIsDailySum | src/pages/ListingDetail.jsx:95-100 | the total equals one price per day summed over the inclusive range |
| ListingDetail.TotalGrowsByPrice | src/pages/ListingDetail.jsx:95-100 | each extra day adds exactly one price |
| ListingDetail.ThreeDaysAtThousand | src/pages/ListingDetail.jsx:95-100 | three inclusive days at 1000 cost 3000 |
| ListingDetail.RequestBooking | src/pages/ListingDetail.jsx:86-124 | no user means sign-in; a failed insert ends there; otherwise a pending, payment-pending booking for the chosen dates at the computed total, and a notice to the owner carrying that booking's id |
| ListingDetail.RequestButtonDisabled | src/pages/ListingDetail.jsx:354 | "Request to Book" is disabled for the listing's owner and for no one else, including a visitor who is not signed in |
| ListingDetail.ConfirmDisabled | src/pages/ListingDetail.jsx:452 | "Confirm Booking" is disabled while a request is in flight, and enabled only when both dates are filled and none is in flight |
| ListingDetail.SubmitRequest | src/pages/ListingDetail.jsx:354-452 | a request is made if and only if neither the owner guard nor the empty-date/in-flight guard disables it; a request never comes from the owner |
| ListingDetail.NextImage | src/pages/ListingDetail.jsx:146-150 | the next index stays in range and is the successor modulo the image count |
| ListingDetail.PrevImage | src/pages/ListingDetail.jsx:152-156 | the previous index stays in range and is the predecessor modulo the image count |
| ListingDetail.NextPrevInverse | src/pages/ListingDetail.jsx:146-156 | back undoes forward and forward undoes back |
| ListingDetail.NextTimesWraps | src/pages/ListingDetail.jsx:146-150 | k presses move k images on, wrapping once; as many presses as images return to the start |
| Bookings.InBucket | src/pages/Bookings.jsx:130-143 | an active booking has not ended and is accepted or completed; a rejected, cancelled or returned booking is in past and in no other named bucket; an unknown bucket takes every booking |
| Bookings.FilterBookingsByStatus | src/pages/Bookings.jsx:127-144 | each bucket holds exactly the bookings its test accepts, as an order-preserving subsequence; an unknown bucket returns every booking |
| Bookings.ActiveIsDisjoint | src/pages/Bookings.jsx:133-140 | no booking is both active and past, or both active and pending |
| Bookings.StalePendingInTwoBuckets | src/pages/Bookings.jsx:136-139 | a pending booking whose end date has passed is under pending and under past, not active |
| Bookings.OfferedActions | src/pages/Bookings.jsx:232-254 | a row whose listing no longer exists offers no button; only pending and accepted rows offer any, at most two |
| Bookings.GuardsMatchTable | src/pages/Bookings.jsx:232-368 | a write is offered by some button of the row if and only if the row's listing still exists and the per-role transition table allows it |
| Bookings.SettledRowsOfferNothing | src/pages/Bookings.jsx:323-368 | rejected, cancelled, completed and returned rows, and accepted rows seen by the renter, offer no action |
| Bookings.StatusText | src/pages/Bookings.jsx:68-73 | accept and decline texts quote the listing's title after `Your booking for "`; any other status is reported by its column value |
| Bookings.StatusTextsDistinct | src/pages/Bookings.jsx:69-73 | different new statuses produce different notification texts |
| Bookings.StatusNotice | src/pages/Bookings.jsx:75-82 | the notice goes from the acting user to the booking's renter, tagged with the booking, with the status-dependent text; the accept and decline texts need the listing's title |
| Bookings.CancelNoticeReturnsToRenter | src/pages/Bookings.jsx:75-82 | a renter's cancellation notice is addressed to the renter, who sent it, and never to the owner |
| Bookings.CounterpartyNotice | src/pages/Bookings.jsx:75-82 | the corrected notice goes to the other party of the booking |
| Bookings.CounterpartyNoticeReachesOtherParty | src/pages/Bookings.jsx:75-82 | with corrected addressing every offered status change reaches the other party; owner-side notices are unchanged |
| Bookings.WithStatus | src/pages/Bookings.jsx:59-62 | a status write changes only that row's status column; keys and other rows are kept |
| Bookings.WithPayment | src/pages/Bookings.jsx:94-97 | a payment write changes only that row's payment column; keys and other rows are kept |
| Bookings.PaymentUpdateIdempotent | src/pages/Bookings.jsx:92-104 | marking paid twice equals marking paid once |
| Bookings.UpdatesCommute | src/pages/Bookings.jsx:57-104 | a status write and a payment write commute |
| Bookings.BookingTable.UpdateStatus | src/pages/Bookings.jsx:57-90 | a successful write sets the status and notifies the renter of a known row, unless the text would quote the title of a listing that no longer exists; a failed write changes nothing and sends nothing; a notice names the written booking |
| Bookings.BookingTable.UpdatePayment | src/pages/Bookings.jsx:92-104 | a successful write sets the payment status; nothing else changes |
| Bookings.BookingTable.Perform | src/pages/Bookings.jsx:323-368 | a failed write changes nothing and sends nothing; a successful click writes exactly its button's column value to its row (WithStatus or WithPayment of the old table), which the transition table allows, never touching the dates, renter or price; a status click also sends StatusNotice of the old row to its renter, a payment click sends nothing |
| Profile.ActiveBookings | src/pages/Profile.jsx:81 | the count of pending or accepted bookings; 0 without data or without such bookings; at most the number of bookings |
| Profile.CompletedRentals | src/pages/Profile.jsx:82 | the count of completed or returned bookings; 0 without data or without such bookings; at most the number of bookings |
| Profile.CountsGrowOneAtATime | src/pages/Profile.jsx:81-82 | each further booking adds one to the counter of its status class and nothing to the other |
| Profile.CountsWithinTotal | src/pages/Profile.jsx:81-82 | the two counts together never exceed the number of bookings |
| Profile.FetchStats | src/pages/Profile.jsx:84-89 | the two counters are ActiveBookings and CompletedRentals of the fetched statuses; a missing listing count or rating becomes 0; missing booking data gives zero counts; the counts fit in the bookings |
| Profile.ShowRating | src/pages/Profile.jsx:324 | a dash exactly when the rating is not positive, otherwise the rating itself |
| Profile.MissingRatingShowsDash | src/pages/Profile.jsx:88 | a user without a rating sees a dash |
| ListingFilters.EmptyTermMatches | src/pages/Listings.jsx:83 | the case-insensitive test for an empty term accepts every text |
| Listings.MatchesSearch | src/pages/Listings.jsx:82-86 | an empty query matches every listing |
| ListingFilters.TermCaseIgnored | src/pages/Listings.jsx:83 | lower-casing the term first changes no match |
| Listings.SearchIgnoresQueryCase | src/pages/Listings.jsx:82-86 | the search selects the same listings whatever the case of the query |
| Listings.Selected | src/pages/Listings.jsx:80-106 | with no input set every listing is selected; a set category admits only listings of that category |
| Listings.SelectedMeaning | src/pages/Listings.jsx:80-106 | search over title, description or category ignoring case; exact category; inclusive price bounds; location present and containing the input |
| Listings.Filtered | src/pages/Listings.jsx:78-106 | the filtered list is an order-preserving subsequence holding exactly the listings every active filter accepts |
| Listings.FindSortOption | src/pages/Listings.jsx:110 | a found option is in the table with that id; none is found exactly when no option has that id |
| Listings.PopularIsNewest | src/pages/Listings.jsx:25-31 | "popular" sorts as "newest" does, newest first by creation time; every menu entry is found by its id |
| Listings.InOrderMeaning | src/pages/Listings.jsx:112-121 | ascending keeps the key non-decreasing, descending non-increasing |
| Listings.SortInPlace | src/pages/Listings.jsx:111-121 | the array ends up ordered by the option and is a permutation of what it held |
| Listings.SortedCopy | src/pages/Listings.jsx:110-122 | the sorted list is ordered by the option and is a permutation of its input |
| Listings.ApplyFilters | src/pages/Listings.jsx:77-125 | the shown list holds exactly the accepted listings, each as often as fetched; a known option orders it; an unknown one keeps the fetched order |
| Listings.ActiveFiltersCount | src/pages/Listings.jsx:136-142 | the badge is between 0 and 5, and 0 exactly when every filter input is empty |
| Listings.NoFiltersKeepEverything | src/pages/Listings.jsx:78-106 | with no filter set every listing is kept in fetched order |
| Listings.ClearFilters | src/pages/Listings.jsx:127-134 | clearing leaves no active filter and selects newest first |
| Listings.ClearedShowsAll | src/pages/Listings.jsx:127-134 | after clearing, every fetched listing is shown, sorted newest first |
| Home.Accepts | src/pages/Home.jsx:58-76 | with no input set every listing is accepted; a set category admits only listings of that category |
| Home.AcceptsMeaning | src/pages/Home.jsx:58-76 | search over title or description, not category, ignoring case; exact category; inclusive price bounds |
| Home.FilterListings | src/pages/Home.jsx:54-79 | the result is an order-preserving subsequence holding exactly the accepted listings, and the whole list when no input is set |
| Home.HomeWithinCatalogue | src/pages/Home.jsx:58-63 | whatever the home page accepts, the catalogue accepts under the same inputs, since the catalogue also searches the category |
| Home.ClearAll | src/pages/Home.jsx:211-215 | clearing empties the search, category and both price bounds, after which every listing is accepted |
| Messages.Counterpart | src/pages/Messages.jsx:98-109 | the other party is the receiver when the user sent the message and the sender otherwise |
| Messages.FirstIndex | src/pages/Messages.jsx:102-108 | the first position of a counterpart in the newest-first list, which is its newest message |
| Messages.UnreadCount | src/pages/Messages.jsx:113-116 | the unread count is at most the number of messages, and 0 for a counterpart not in the list |
| Messages.UnreadCountSnoc | src/pages/Messages.jsx:113-116 | a further message adds one to its counterpart's count exactly when the user received it unread |
| Messages.GroupConversations | src/pages/Messages.jsx:95-119 | one conversation per distinct counterpart, in order of first appearance, each holding that counterpart's newest message and its exact unread count |
| Messages.ResetUnread | src/pages/Messages.jsx:150-154 | the opened conversation's count becomes 0 and every other conversation is unchanged |
| Messages.ResetRemovesOneBadge | src/pages/Messages.jsx:150-154 | opening a conversation removes exactly its own badge from the total; opening it twice equals opening it once |
| Messages.NoMatchUnchanged | src/pages/Messages.jsx:150-154 | a reset for a counterpart not in the list changes nothing |
| Messages.MarkConversationRead | src/pages/Messages.jsx:143-147 | exactly the messages received from the opened counterpart become read |
| Messages.RefetchAgreesWithReset | src/pages/Messages.jsx:143-154 | after the write, grouping again finds no unread message from the opened counterpart and the same counts for every other counterpart |
| Messages.FilterConversations | src/pages/Messages.jsx:190-192 | exactly the conversations whose counterpart name contains the term ignoring case, in order; an empty term keeps all |
| Messages.SendMessage | src/pages/Messages.jsx:161-174 | nothing is sent if and only if no conversation is open or the draft is white space throughout; otherwise the trimmed, non-empty draft goes to the counterpart |
| CreateListing.HandleImageChange | src/pages/CreateListing.jsx:84-102 | exactly the chosen image files are appended to the pending files, and their previews to the shown list, in the order chosen; aligned lists stay aligned |
| CreateListing.AppendImages | src/pages/CreateListing.jsx:85-99 | the loop pushes each image file and its preview after the existing entries |
| CreateListing.ImagesAmongIsFilter | src/pages/CreateListing.jsx:89 | the files the loop pushes are `filter` by image type |
| CreateListing.AppendKeepsAligned | src/pages/CreateListing.jsx:84-102 | appending files with their previews keeps the two lists aligned |
| CreateListing.RemoveIndex | src/pages/CreateListing.jsx:105-106 | the filter by index drops exactly the element at that position, or nothing when it is out of range |
| CreateListing.RemoveImage | src/pages/CreateListing.jsx:104-109 | as written: the same position leaves both lists, each losing only that element when it has one |
| CreateListing.RemoveImageAligned | src/pages/CreateListing.jsx:104-109 | corrected: exactly the chosen shown entry goes, with its own pending file, and aligned lists stay aligned |
| CreateListing.RemovalsAgreeWithoutHosted | src/pages/CreateListing.jsx:104-109 | on a new listing, with no stored photos, both removals agree |
| CreateListing.RemovedPhotoStillSaved | src/pages/CreateListing.jsx:104-109 | as written, removing a new photo of an edited listing leaves its file pending, and the photo is uploaded and saved anyway |
| CreateListing.UploadControlShown | src/pages/CreateListing.jsx:220 | the upload control shows exactly while there is room for another photo under five |
| CreateListing.ControlReturnsAfterRemoval | src/pages/CreateListing.jsx:220 | with five photos shown the upload control is hidden, and removing any one brings it back, both with the removal as written and with the corrected one |
| CreateListing.Successes | src/pages/CreateListing.jsx:117-125 | at most one URL per upload |
| CreateListing.SuccessesMembers | src/pages/CreateListing.jsx:117-125 | the collected URLs are exactly those of the successful uploads |
| CreateListing.AllUploadedAllKept | src/pages/CreateListing.jsx:117-125 | when every upload succeeds there is one URL per file |
| CreateListing.UploadImages | src/pages/CreateListing.jsx:111-131 | the result is the shown `http` entries in order, then the URL of each successful upload in order |
| CreateListing.PushUploaded | src/pages/CreateListing.jsx:114-128 | the loop appends the URL of each successful upload after those collected |
| CreateListing.Saved | src/pages/CreateListing.jsx:139-145 | with no pending file the shown list is saved as it is; otherwise every saved entry is a hosted URL or an uploaded one |
| CreateListing.HostedPrefix | src/pages/CreateListing.jsx:112 | on aligned lists exactly the leading stored URLs pass the `http` test |
| CreateListing.NoPreviewIsHosted | src/pages/CreateListing.jsx:112 | no preview passes the `http` test |
| CreateListing.SavedMatchesShown | src/pages/CreateListing.jsx:139-145 | on aligned lists the saved photos are the shown stored URLs followed by the uploads; when all uploads succeed, as many photos are saved as were shown |
| CreateListing.OrElse | src/pages/CreateListing.jsx:68 | an absent or empty value gives the fallback, any other value itself |
| CreateListing.LoadForm | src/pages/CreateListing.jsx:66-76 | the loaded form keeps the row's title, category and price, and every present non-empty description, price unit, location and date; missing optional columns take the blank form's values; the price unit is never empty |
| CreateListing.LoadPhotos | src/pages/CreateListing.jsx:77 | on the first load the photos are the stored URLs in order, or none, and nothing is pending upload: `fetchListing` leaves the pending files as they were and the edit form starts with none |
| CreateListing.RemovedStoredUrlSavesPreview | src/pages/CreateListing.jsx:104-109 | as written, removing a stored photo of an edited listing drops the new file instead, and its preview is saved as a photo without being uploaded |
| CreateListing.LoadedPhotosAligned | src/pages/CreateListing.jsx:77 | a listing whose stored URLs are all `http` URLs loads aligned |

## Left out

- Network I/O is not modelled: the database queries, inserts and updates, the
  storage uploads, public-URL lookups and the realtime message subscription.
  Their results are parameters: the fetched rows, the returned id, a write's
  success flag, and one upload outcome per file.
- Authentication, sessions and routing are not modelled; the signed-in
  user is an `Option` parameter.
- Rendering is not modelled: layout, colours, alerts, navigation and the
  dashboard and landing pages.
- Date parsing and formatting are not modelled. Dates and "now" are day
  numbers. A date column is the day of its UTC midnight, and `now` is the
  day number of the first UTC midnight at or after the current instant, so
  a booking leaves active and enters past on its own end day. The
  formatted dates in the booking notice arrive as strings.
  `created_at` is an integer in the model, although the code compares the
  timestamp strings.
- `parseFloat` on the price boxes and floating-point prices are not
  modelled. A filled price box is its integer value, so a box that parses
  to NaN is not modelled.
- Case folding covers only A-Z. Other Unicode case mappings are not modelled.
- The asynchronous `FileReader` callbacks are not modelled: previews are
  appended in selection order. A preview is represented by the file it was
  read from rather than by its `data:` URL text; a `data:` URL never starts
  with `http`.
- Concurrency is not modelled: two users acting on one booking at once, and
  a conversation list refreshed mid-update.
- The default of the `payment_status` column is not modelled;
  `ListingDetail.RequestBooking` assumes that a new booking's payment status
  is pending.
- Listings.SortInPlace: the sort uses insertion by adjacent swaps, not the
  engine's `Array.prototype.sort`. The comparator never returns 0, so the
  order of equal keys is unspecified, and the contract promises nothing
  about it.
- Messages.GroupConversations: the code treats a missing message list
  (`messages?.forEach` on null) as an empty one, so the model takes a list.
- Messages.ResetUnread: the reset and the read-marking write happen only
  when the conversation's messages were fetched without error; the model
  shows the successful path.
- CreateListing.HandleImageChange: the "Photos (Max 5)" label is enforced
  only by hiding the upload control, so one multi-file selection can add
  more than five photos. The model keeps the code's behaviour and does not
  cap the list.
- Bookings.BookingTable.UpdateStatus: when the notice text would quote
  the title of a listing that no longer exists, the code throws after the
  write and shows its failure alert. The model sends no notice and does not
  model the alert or the skipped refetch. No button of such a row can reach
  this path.
- CreateListing.LoadPhotos: `fetchListing` runs again whenever the
  signed-in user object changes; such a reload resets the shown list to the
  stored URLs but keeps any files already pending. The model states the
  first load only, where nothing is pending.
- The booking request's notice insert is not checked for errors in the
  code, and the model does not model its failure.
- Listing creation and update of the remaining form fields, the profile
  photo upload and the review list are not modelled; they are plain
  database writes.

## Findings

| source | as written | input that shows it | evidently intended | confidence | as-written member | corrected member |
|---|---|---|---|---|---|---|
| src/pages/Bookings.jsx:75-82 | every status notice goes to `booking.renter_id`, including the one sent when the renter cancels | a renter cancels a pending request: sender and receiver are both the renter, and the owner is never told | the notice goes to the other party: the owner when the renter acts | not executed | Bookings.CancelNoticeReturnsToRenter | Bookings.CounterpartyNotice |
| src/pages/CreateListing.jsx:104-109 | `removeImage(i)` drops position `i` from both the shown list and the pending files, but on an edited listing the shown list starts with the stored URLs | shown `[stored http URL, preview of f]`, pending `[f]`; `removeImage(1)` leaves pending `[f]`, so `f` is uploaded and saved although the user removed it; conversely `removeImage(0)` on the same lists drops `f` from pending and keeps its preview, so nothing is uploaded and the preview itself is saved as a photo | drop pending file `i − (number of stored URLs)` when `i` points at a preview, and no file when it points at a stored URL | not executed | CreateListing.RemovedPhotoStillSaved | CreateListing.RemoveImageAligned |
