/** The state of the TravelGo "My Bookings" page
    (`TravelGo/frontend/src/components/Bookings.js`): the fetched bookings,
    the error and success alerts, and the cancel confirmation dialog. Server
    answers are parameters; the requests sent are recorded in fields. */
module BookingsPage {
  import opened Common
  import opened Catalog

  /** One entry of the `GET /bookings` reply as the page uses it. `status`
      is the text the server sent. */
  datatype BookingRow = BookingRow(
    id: int,
    serviceName: string,
    bookingDate: string,
    passengers: int,
    status: string)

  /** `getStatusBadge`: the colour of a status badge. */
  function StatusBadge(status: string): (variant: string)
    ensures status == "confirmed" <==> variant == "success"
    ensures status == "pending" <==> variant == "warning"
    ensures status == "cancelled" <==> variant == "danger"
    ensures variant in {"success", "warning", "danger", "secondary"}
  {
    if status == "confirmed" then "success"
    else if status == "pending" then "warning"
    else if status == "cancelled" then "danger"
    else "secondary"
  }

  /** The "Cancel Booking" button is rendered only for a booking whose status
      is the text of `Confirmed`. */
  predicate CancelOffered(b: BookingRow)
    ensures CancelOffered(b) <==> b.status == StatusText(Confirmed)
  {
    b.status == "confirmed"
  }

  /** Exactly the bookings with a green badge get a cancel button. */
  lemma CancelOfferedIffSuccessBadge(b: BookingRow)
    ensures CancelOffered(b) <==> StatusBadge(b.status) == "success"
  {
  }

  /** A row carrying the server's status text for `s`: its badge is green and
      its cancel button shown exactly when `s` is `Confirmed`, and each status
      gets its own badge colour. */
  lemma RowStatusFromServer(b: BookingRow, s: BookingStatus)
    requires b.status == StatusText(s)
    ensures CancelOffered(b) <==> s == Confirmed
    ensures StatusBadge(b.status) == "success" <==> s == Confirmed
    ensures StatusBadge(b.status) == "warning" <==> s == Pending
    ensures StatusBadge(b.status) == "danger" <==> s == Cancelled
  {
  }

  const LoadFailed := "Failed to load bookings"
  const CancelSucceeded := "Booking cancelled successfully"
  const CancelFailed := "Failed to cancel booking"

  class BookingsView {
    var bookings: seq<BookingRow>
    var loading: bool
    var error: string
    var success: string
    var showCancelModal: bool
    var selectedBooking: Option<BookingRow>
    /** How many `GET /bookings` requests the page has sent. */
    var fetchRequests: nat
    /** The ids in the `DELETE /bookings/{id}` requests the page has sent. */
    var deleteRequests: seq<int>

    /** The first render, before the user effect runs. */
    constructor ()
      ensures bookings == [] && loading && error == "" && success == ""
      ensures !showCancelModal && selectedBooking.None?
      ensures fetchRequests == 0 && deleteRequests == []
    {
      bookings := [];
      loading := true;
      error := "";
      success := "";
      showCancelModal := false;
      selectedBooking := None;
      fetchRequests := 0;
      deleteRequests := [];
    }

    /** The `[user]` effect: the bookings are fetched only when a user is
        logged in. */
    method UserChanged(user: Option<int>)
      modifies this
      ensures user.Some? ==> fetchRequests == old(fetchRequests) + 1
      ensures user.None? ==> fetchRequests == old(fetchRequests)
      ensures bookings == old(bookings) && loading == old(loading)
      ensures error == old(error) && success == old(success)
      ensures showCancelModal == old(showCancelModal) && selectedBooking == old(selectedBooking)
      ensures deleteRequests == old(deleteRequests)
    {
      if user.Some? {
        fetchRequests := fetchRequests + 1;
      }
    }

    /** `fetchBookings` completes: the list on success, `None` on failure.
        Loading ends either way; a failure sets the load error and keeps the
        old list. */
    method BookingsFetched(reply: Option<seq<BookingRow>>)
      modifies this
      ensures !loading
      ensures reply.Some? ==> bookings == reply.value && error == old(error)
      ensures reply.None? ==> bookings == old(bookings) && error == LoadFailed
      ensures success == old(success)
      ensures showCancelModal == old(showCancelModal) && selectedBooking == old(selectedBooking)
      ensures fetchRequests == old(fetchRequests) && deleteRequests == old(deleteRequests)
    {
      if reply.Some? {
        bookings := reply.value;
      } else {
        error := LoadFailed;
      }
      loading := false;
    }

    /** `handleCancelClick`: remembers the booking and opens the dialog; no
        request is sent. */
    method CancelClick(booking: BookingRow)
      modifies this
      ensures selectedBooking == Some(booking) && showCancelModal
      ensures bookings == old(bookings) && loading == old(loading)
      ensures error == old(error) && success == old(success)
      ensures fetchRequests == old(fetchRequests) && deleteRequests == old(deleteRequests)
    {
      selectedBooking := Some(booking);
      showCancelModal := true;
    }

    /** "Keep Booking" and the close icon: the dialog closes; no request is sent. */
    method KeepBooking()
      modifies this
      ensures !showCancelModal
      ensures selectedBooking == old(selectedBooking)
      ensures bookings == old(bookings) && loading == old(loading)
      ensures error == old(error) && success == old(success)
      ensures fetchRequests == old(fetchRequests) && deleteRequests == old(deleteRequests)
    {
      showCancelModal := false;
    }

    /** `handleCancelConfirm`. With a booking selected, one `DELETE` for its id
        is sent and `reply` is the server's answer: on success the success
        text is set and the bookings are fetched again; on failure the error
        is the server's detail or "Failed to cancel booking". The dialog closes
        in both cases and the local list is never edited. With nothing
        selected, reading `selectedBooking.id` throws before any request and
        the failure branch runs with no detail. */
    method CancelConfirm(reply: Reply)
      modifies this
      ensures !showCancelModal
      ensures bookings == old(bookings) && loading == old(loading)
      ensures selectedBooking == old(selectedBooking)
      ensures selectedBooking.Some? ==> deleteRequests == old(deleteRequests) + [selectedBooking.value.id]
      ensures selectedBooking.None? ==> deleteRequests == old(deleteRequests)
      ensures selectedBooking.Some? && reply.Success? ==>
        success == CancelSucceeded && error == old(error) && fetchRequests == old(fetchRequests) + 1
      ensures selectedBooking.Some? && reply.Failure? ==>
        error == DetailOr(reply.detail, CancelFailed) && success == old(success) && fetchRequests == old(fetchRequests)
      ensures selectedBooking.None? ==>
        error == CancelFailed && success == old(success) && fetchRequests == old(fetchRequests)
    {
      if selectedBooking.None? {
        error := CancelFailed;
        showCancelModal := false;
        return;
      }
      deleteRequests := deleteRequests + [selectedBooking.value.id];
      match reply {
        case Success =>
          success := CancelSucceeded;
          showCancelModal := false;
          fetchRequests := fetchRequests + 1;
        case Failure(detail) =>
          error := DetailOr(detail, CancelFailed);
          showCancelModal := false;
      }
    }

    /** The error alert's close button. */
    method DismissError()
      modifies this
      ensures error == ""
      ensures success == old(success) && bookings == old(bookings) && loading == old(loading)
      ensures showCancelModal == old(showCancelModal) && selectedBooking == old(selectedBooking)
      ensures fetchRequests == old(fetchRequests) && deleteRequests == old(deleteRequests)
    {
      error := "";
    }

    /** The success alert's close button. */
    method DismissSuccess()
      modifies this
      ensures success == ""
      ensures error == old(error) && bookings == old(bookings) && loading == old(loading)
      ensures showCancelModal == old(showCancelModal) && selectedBooking == old(selectedBooking)
      ensures fetchRequests == old(fetchRequests) && deleteRequests == old(deleteRequests)
    {
      success := "";
    }
  }

  /** Opening the dialog on a booking and backing out sends nothing and leaves
      the list and alerts as they were. */
  method ClickThenKeepSendsNothing(page: BookingsView, booking: BookingRow)
    modifies page
    ensures !page.showCancelModal
    ensures page.bookings == old(page.bookings)
    ensures page.error == old(page.error) && page.success == old(page.success)
    ensures page.fetchRequests == old(page.fetchRequests) && page.deleteRequests == old(page.deleteRequests)
  {
    page.CancelClick(booking);
    page.KeepBooking();
  }

  /** Clicking cancel on a booking and confirming sends one `DELETE` for
      exactly that booking's id. */
  method ClickThenConfirmDeletesThatBooking(page: BookingsView, booking: BookingRow, reply: Reply)
    modifies page
    ensures page.deleteRequests == old(page.deleteRequests) + [booking.id]
    ensures !page.showCancelModal && page.bookings == old(page.bookings)
  {
    page.CancelClick(booking);
    page.CancelConfirm(reply);
  }
}
