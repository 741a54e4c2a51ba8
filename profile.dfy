/** The statistics strip of the profile page: two counts over the statuses
    of the user's bookings, the listing count and the rating, each falling
    back to 0 when the data is missing. */
module Profile {
  import opened Rental
  import Seqs

  /** Statuses counted as active bookings. */
  predicate IsOpen(s: Status) {
    s == Pending || s == Accepted
  }

  /** Statuses counted as completed rentals. */
  predicate IsFinished(s: Status) {
    s == Completed || s == Returned
  }

  /** `activeBookings`: how many of the fetched statuses are pending or
      accepted; 0 when nothing was fetched. */
  function ActiveBookings(data: Option<seq<Status>>): (n: nat)
    ensures data.None? ==> n == 0
    ensures data.Some? ==> n <= |data.value|
    ensures data.Some? && (forall s :: s in data.value ==> !IsOpen(s)) ==> n == 0
  {
    match data
    case None => 0
    case Some(statuses) =>
      var selected := Seqs.Filter(statuses, IsOpen);
      assert selected != [] ==> selected[0] in selected;
      |selected|
  }

  /** `completedRentals`: how many of the fetched statuses are completed or
      returned; 0 when nothing was fetched. */
  function CompletedRentals(data: Option<seq<Status>>): (n: nat)
    ensures data.None? ==> n == 0
    ensures data.Some? ==> n <= |data.value|
    ensures data.Some? && (forall s :: s in data.value ==> !IsFinished(s)) ==> n == 0
  {
    match data
    case None => 0
    case Some(statuses) =>
      var selected := Seqs.Filter(statuses, IsFinished);
      assert selected != [] ==> selected[0] in selected;
      |selected|
  }

  /** The counts are counts: an empty list gives 0 and each further booking
      adds one to the counter its status belongs to and nothing to the other. */
  lemma {:induction false} CountsGrowOneAtATime(statuses: seq<Status>, s: Status)
    ensures ActiveBookings(Some([])) == 0 && CompletedRentals(Some([])) == 0
    ensures ActiveBookings(Some(statuses + [s])) == ActiveBookings(Some(statuses)) + (if IsOpen(s) then 1 else 0)
    ensures CompletedRentals(Some(statuses + [s])) == CompletedRentals(Some(statuses)) + (if IsFinished(s) then 1 else 0)
  {
    Seqs.FilterSnoc(statuses, s, IsOpen);
    Seqs.FilterSnoc(statuses, s, IsFinished);
  }

  /** No status is both active and completed, so the two counts together
      never exceed the number of bookings. */
  lemma CountsWithinTotal(statuses: seq<Status>)
    ensures ActiveBookings(Some(statuses)) + CompletedRentals(Some(statuses)) <= |statuses|
  {
    Seqs.DisjointFilterSizes(statuses, IsOpen, IsFinished);
  }

  datatype Stats = Stats(totalListings: nat, activeBookings: nat, completedRentals: nat, averageRating: real)

  /** The stats `fetchUserData` stores: a missing listing count or rating
      becomes 0, and so do counts over missing booking data. */
  function FetchStats(listingCount: Option<nat>, statuses: Option<seq<Status>>, rating: Option<real>): (st: Stats)
    ensures st.totalListings == (if listingCount.Some? then listingCount.value else 0)
    ensures st.averageRating == (if rating.Some? then rating.value else 0.0)
    ensures st.activeBookings == ActiveBookings(statuses)
    ensures st.completedRentals == CompletedRentals(statuses)
    ensures statuses.None? ==> st.activeBookings == 0 && st.completedRentals == 0
    ensures statuses.Some? ==> st.activeBookings + st.completedRentals <= |statuses.value|
  {
    var total := match listingCount case Some(c) => c case None => 0;
    var average := match rating case Some(r) => r case None => 0.0;
    match statuses
    case None => Stats(total, 0, 0, average)
    case Some(all) =>
      CountsWithinTotal(all);
      Stats(total, ActiveBookings(statuses), CompletedRentals(statuses), average)
  }

  /** How the rating cell is shown: a dash unless the rating is positive. */
  datatype RatingDisplay = Dash | OneDecimal(value: real)

  function ShowRating(rating: real): (d: RatingDisplay)
    ensures d.Dash? <==> rating <= 0.0
    ensures d.OneDecimal? ==> d.value == rating
  {
    if rating > 0.0 then OneDecimal(rating) else Dash
  }

  /** A user without a rating sees a dash. */
  lemma MissingRatingShowsDash(listingCount: Option<nat>, statuses: Option<seq<Status>>)
    ensures ShowRating(FetchStats(listingCount, statuses, None).averageRating) == Dash
  {
  }
}
