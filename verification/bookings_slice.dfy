/** The bookings slice (src/features/bookings/bookingsSlice.ts): the bookings
    of one customer or provider, the booking on display, and the pure parts
    of the thunks that produce its payloads. */
module BookingsSlice {
  import opened Common
  import opened Types
  import IdList
  import Lifecycle

  datatype Data = Data(bookings: seq<Booking>, currentBooking: Option<Booking>)

  type State = Lifecycle.Slice<Data>

  const Initial: State := Lifecycle.Slice(Data([], None), false, None)

  datatype Thunk =
    | FetchCustomerBookings
    | FetchProviderBookings
    | FetchBookingById
    | CreateBooking
    | UpdateBooking
    | CancelBooking

  datatype Action =
    | ClearCurrentBooking
    | ClearError
    | Pending(thunk: Thunk)
    | Rejected(thunk: Thunk, message: string)
    | CustomerBookingsFetched(bookings: seq<Booking>)
    | ProviderBookingsFetched(bookings: seq<Booking>)
    | BookingFetched(booking: Booking)
    | BookingCreated(booking: Booking)
    | BookingUpdated(booking: Booking)
    | BookingCancelled(booking: Booking)

  /** `createBooking.fulfilled`: exactly one booking appended at the end, and
      it becomes the current one. */
  function Created(d: Data, p: Booking): (e: Data)
    ensures |e.bookings| == |d.bookings| + 1
    ensures e.bookings[..|d.bookings|] == d.bookings && e.bookings[|d.bookings|] == p
    ensures e.currentBooking == Some(p)
  {
    Data(d.bookings + [p], Some(p))
  }

  /** `updateBooking.fulfilled` and `cancelBooking.fulfilled` (the same
      code): the first booking with the payload's id is replaced and every
      other index is unchanged; with no such booking the list is kept. The
      payload becomes the current booking. */
  function Replaced(d: Data, p: Booking): (e: Data)
    ensures |e.bookings| == |d.bookings|
    ensures !IdList.HasKey(d.bookings, BookingId, p.id) ==> e.bookings == d.bookings
    ensures forall i :: IdList.FirstOfKey(d.bookings, BookingId, i) && d.bookings[i].id == p.id ==>
      e.bookings == d.bookings[i := p]
    ensures e.currentBooking == Some(p)
  {
    Data(IdList.ReplaceFirst(d.bookings, BookingId, p), Some(p))
  }

  /** The slice reducer. */
  function Reduce(s: State, a: Action): (t: State)
    ensures a.Pending? ==> t.isLoading && t.error == None && t.data == s.data
    ensures a.Rejected? ==> !t.isLoading && t.error == Some(a.message) && t.data == s.data
    ensures a.ClearCurrentBooking? ==>
      t.data.currentBooking == None && t.data.bookings == s.data.bookings
      && t.isLoading == s.isLoading && t.error == s.error
    ensures a.ClearError? ==> t.error == None && t.data == s.data && t.isLoading == s.isLoading
    ensures !(a.Pending? || a.Rejected? || a.ClearCurrentBooking? || a.ClearError?) ==>
      !t.isLoading && t.error == s.error
    ensures (a.CustomerBookingsFetched? || a.ProviderBookingsFetched?) ==>
      t.data.bookings == a.bookings && t.data.currentBooking == s.data.currentBooking
    ensures a.BookingFetched? ==>
      t.data.bookings == s.data.bookings && t.data.currentBooking == Some(a.booking)
    ensures a.BookingCreated? ==> t.data == Created(s.data, a.booking)
    ensures (a.BookingUpdated? || a.BookingCancelled?) ==> t.data == Replaced(s.data, a.booking)
  {
    match a
    case ClearCurrentBooking => s.(data := s.data.(currentBooking := None))
    case ClearError => Lifecycle.ClearError(s)
    case Pending(_) => Lifecycle.Start(s)
    case Rejected(_, m) => Lifecycle.Fail(s, m)
    case CustomerBookingsFetched(l) => Lifecycle.Settle(s, s.data.(bookings := l))
    case ProviderBookingsFetched(l) => Lifecycle.Settle(s, s.data.(bookings := l))
    case BookingFetched(b) => Lifecycle.Settle(s, s.data.(currentBooking := Some(b)))
    case BookingCreated(b) => Lifecycle.Settle(s, Created(s.data, b))
    case BookingUpdated(b) => Lifecycle.Settle(s, Replaced(s.data, b))
    case BookingCancelled(b) => Lifecycle.Settle(s, Replaced(s.data, b))
  }

  /** An attempt that fails changes only the two flags. */
  lemma FailedAttemptKeepsData(s: State, th: Thunk, m: string)
    ensures Reduce(Reduce(s, Action.Pending(th)), Rejected(th, m)) == s.(isLoading := false, error := Some(m))
  {
  }

  /** Payloads that keep ids unique: fetched lists without duplicate ids and
      a created booking whose id the store has just assigned. */
  ghost predicate Admissible(s: State, a: Action) {
    match a
    case CustomerBookingsFetched(l) => IdList.UniqueKeys(l, BookingId)
    case ProviderBookingsFetched(l) => IdList.UniqueKeys(l, BookingId)
    case BookingCreated(b) => !IdList.HasKey(s.data.bookings, BookingId, b.id)
    case _ => true
  }

  /** Unique booking ids are an invariant of the reducer under admissible
      payloads. */
  lemma ReducePreservesUniqueIds(s: State, a: Action)
    requires IdList.UniqueKeys(s.data.bookings, BookingId)
    requires Admissible(s, a)
    ensures IdList.UniqueKeys(Reduce(s, a).data.bookings, BookingId)
  {
    match a
    case BookingUpdated(b) => IdList.ReplaceFirstKeepsUnique(s.data.bookings, BookingId, b);
    case BookingCancelled(b) => IdList.ReplaceFirstKeepsUnique(s.data.bookings, BookingId, b);
    case _ =>
  }

  /** The stored booking after `cancelBooking`'s write of `{status:
      'cancelled'}`: whatever the prior status — `completed` included — it
      becomes `cancelled`, and no other field changes. */
  function CancelWrite(stored: Booking): (b: Booking)
    ensures b.status == Cancelled
    ensures b.(status := stored.status) == stored
  {
    stored.(status := Cancelled)
  }

  /** `cancelBooking`: the status write, then the re-read returned under the
      requested id. A failed write rejects with its message. */
  function CancelBookingResult(id: string, stored: Booking, update: Write<()>): (r: Result<Booking>)
    ensures r.Ok? <==> update.Written?
    ensures update.WriteFailed? ==> r == Err(update.message)
    ensures r.Ok? ==> r.value.id == id && r.value.status == Cancelled
    ensures r.Ok? ==> r.value.(id := stored.id, status := stored.status) == stored
  {
    match update
    case WriteFailed(m) => Err(m)
    case Written(_) => Ok(CancelWrite(stored).(id := id))
  }

  /** Cancelling a booking in the list: whatever the store holds under its
      id — the local copy may be stale — the first booking with that id
      becomes the stored one with status `cancelled`, whatever its status
      was, and every other booking is untouched. */
  lemma CancelReachesList(s: State, i: nat, stored: Booking, update: Write<()>)
    requires IdList.FirstOfKey(s.data.bookings, BookingId, i)
    requires stored.id == s.data.bookings[i].id
    requires update.Written?
    ensures var t := Reduce(s, BookingCancelled(CancelBookingResult(stored.id, stored, update).value));
      && |t.data.bookings| == |s.data.bookings|
      && t.data.bookings[i] == stored.(status := Cancelled)
      && t.data.bookings[i].status == Cancelled
      && forall k :: 0 <= k < |s.data.bookings| && k != i ==> t.data.bookings[k] == s.data.bookings[k]
  {
    var p := CancelBookingResult(stored.id, stored, update).value;
    assert p == stored.(status := Cancelled);
    assert Replaced(s.data, p).bookings == s.data.bookings[i := p];
  }

  /** `fetchBookingById`: an existing document fulfils under its id, a
      missing one rejects with "Booking not found", a failed read rejects
      with the store's message. */
  function FetchBookingByIdResult(id: string, read: Read<Booking>): (r: Result<Booking>)
    ensures r.Ok? <==> read.Found?
    ensures r.Ok? ==> r.value == read.data.(id := id)
    ensures read.Missing? ==> r == Err("Booking not found")
    ensures read.ReadFailed? ==> r == Err(read.message)
  {
    match ReadOrReject(read, "Booking not found")
    case Ok(d) => Ok(d.(id := id))
    case Err(m) => Err(m)
  }

  /** What a settled `fetchBookingById` does to the slice: an existing
      document goes on display under the requested id; a missing one or a
      failed read leaves the bookings and the booking on display alone and
      shows "Booking not found" or the store's message. */
  lemma FetchBookingByIdReaches(s: State, id: string, read: Read<Booking>)
    ensures var r := FetchBookingByIdResult(id, read);
      var t := Reduce(Reduce(s, Action.Pending(FetchBookingById)),
                      if r.Ok? then BookingFetched(r.value) else Rejected(FetchBookingById, r.message));
      && !t.isLoading && t.data.bookings == s.data.bookings
      && (read.Found? ==> t.data.currentBooking == Some(read.data.(id := id)) && t.error == None)
      && (read.Missing? ==> t.data == s.data && t.error == Some("Booking not found"))
      && (read.ReadFailed? ==> t.data == s.data && t.error == Some(read.message))
  {
  }
}
