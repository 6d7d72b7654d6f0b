/** The state of the TravelGo services page
    (`TravelGo/frontend/src/components/Services.js`): the fetched services,
    the filter form, and the booking dialog. Each event handler is a method;
    what the server answers is a parameter, and the requests the page sends
    are recorded in fields so that contracts can say when one is sent. */
module ServicesPage {
  import opened Common
  import opened Catalog
  import opened ServiceFilter
  import Inventory

  /** One `onChange` of the filter form: the input's `name` picks the field and
      its `value` the new content (blank is `None` or the empty string). */
  datatype FilterChange =
    | SetServiceType(serviceType: Option<ServiceType>)
    | SetLocation(location: string)
    | SetMinPrice(minPrice: Option<real>)
    | SetMaxPrice(maxPrice: Option<real>)

  /** `handleFilterChange`: `{...filter, [name]: value}` replaces the named
      field and copies the other three. */
  function WithChange(c: Criteria, change: FilterChange): (r: Criteria)
    ensures change.SetServiceType? ==> r == c.(serviceType := change.serviceType)
    ensures change.SetLocation? ==> r == c.(location := change.location)
    ensures change.SetMinPrice? ==> r == c.(minPrice := change.minPrice)
    ensures change.SetMaxPrice? ==> r == c.(maxPrice := change.maxPrice)
  {
    match change
    case SetServiceType(t) => Criteria(t, c.location, c.minPrice, c.maxPrice)
    case SetLocation(l) => Criteria(c.serviceType, l, c.minPrice, c.maxPrice)
    case SetMinPrice(p) => Criteria(c.serviceType, c.location, p, c.maxPrice)
    case SetMaxPrice(p) => Criteria(c.serviceType, c.location, c.minPrice, p)
  }

  /** Setting a field twice keeps only the second value. */
  lemma WithChangeLastWins(c: Criteria, first: FilterChange, second: FilterChange)
    requires first.SetServiceType? == second.SetServiceType?
    requires first.SetLocation? == second.SetLocation?
    requires first.SetMinPrice? == second.SetMinPrice?
    ensures WithChange(WithChange(c, first), second) == WithChange(c, second)
  {
  }

  /** Changes to different fields commute. */
  lemma WithChangeCommutes(c: Criteria, a: FilterChange, b: FilterChange)
    requires a.SetServiceType? ==> !b.SetServiceType?
    requires a.SetLocation? ==> !b.SetLocation?
    requires a.SetMinPrice? ==> !b.SetMinPrice?
    requires a.SetMaxPrice? ==> !b.SetMaxPrice?
    ensures WithChange(WithChange(c, a), b) == WithChange(WithChange(c, b), a)
  {
  }

  const LoginRequired := "Please login to make a booking"
  const BookingCreated := "Booking created successfully!"
  const BookingFailed := "Booking failed"

  class ServicesView {
    var services: seq<Service>
    var filteredServices: seq<Service>
    var loading: bool
    var filter: Criteria
    var showBookingModal: bool
    var selectedService: Option<Service>
    var bookingDate: string
    var passengers: int
    var bookingError: string
    var bookingSuccess: string
    /** The logged-in user from the authentication context, if any. */
    const user: Option<int>
    /** How many `GET /services` requests the page has sent. */
    var servicesRequests: nat
    /** The bodies of the `POST /bookings` requests the page has sent. */
    var bookingRequests: seq<Inventory.BookingCreate>

    /** The `[services, filter]` effect has run after every change of either
        field, and the dialog is only open with a service selected. */
    ghost predicate Valid()
      reads this
    {
      && filteredServices == ApplyFilters(services, filter)
      && (showBookingModal ==> selectedService.Some?)
    }

    /** The first render: empty lists, blank filter, closed dialog, one
        passenger; the mount effect sends the first `GET /services`. */
    constructor (user: Option<int>)
      ensures Valid()
      ensures this.user == user
      ensures services == [] && filteredServices == [] && loading
      ensures filter == NoCriteria
      ensures !showBookingModal && selectedService.None?
      ensures bookingDate == "" && passengers == 1
      ensures bookingError == "" && bookingSuccess == ""
      ensures servicesRequests == 1 && bookingRequests == []
    {
      this.user := user;
      services := [];
      filteredServices := [];
      loading := true;
      filter := NoCriteria;
      showBookingModal := false;
      selectedService := None;
      bookingDate := "";
      passengers := 1;
      bookingError := "";
      bookingSuccess := "";
      servicesRequests := 1;
      bookingRequests := [];
    }

    /** `fetchServices` completes: a list on success, `None` on failure. Either
        way the page stops loading; on failure the old list stays. */
    method ServicesFetched(reply: Option<seq<Service>>)
      requires Valid()
      modifies this
      ensures Valid()
      ensures reply.Some? ==> services == reply.value
      ensures reply.None? ==> services == old(services)
      ensures !loading
      ensures filter == old(filter)
      ensures showBookingModal == old(showBookingModal) && selectedService == old(selectedService)
      ensures bookingDate == old(bookingDate) && passengers == old(passengers)
      ensures bookingError == old(bookingError) && bookingSuccess == old(bookingSuccess)
      ensures servicesRequests == old(servicesRequests) && bookingRequests == old(bookingRequests)
    {
      if reply.Some? {
        services := reply.value;
        filteredServices := ApplyFilters(services, filter);
      }
      loading := false;
    }

    /** `handleFilterChange`, followed by the effect that re-runs `applyFilters`. */
    method ChangeFilter(change: FilterChange)
      requires Valid()
      modifies this
      ensures Valid()
      ensures filter == WithChange(old(filter), change)
      ensures filteredServices == ApplyFilters(services, filter)
      ensures services == old(services) && loading == old(loading)
      ensures showBookingModal == old(showBookingModal) && selectedService == old(selectedService)
      ensures bookingDate == old(bookingDate) && passengers == old(passengers)
      ensures bookingError == old(bookingError) && bookingSuccess == old(bookingSuccess)
      ensures servicesRequests == old(servicesRequests) && bookingRequests == old(bookingRequests)
    {
      filter := WithChange(filter, change);
      filteredServices := ApplyFilters(services, filter);
    }

    /** `handleBookingClick`: without a user only the login alert is raised
        and no state changes; with one the service is selected, the dialog
        opens and both messages are cleared. */
    method BookingClick(service: Service) returns (alert: Option<string>)
      requires Valid()
      modifies this
      ensures Valid()
      ensures user.None? ==> alert == Some(LoginRequired) && unchanged(this)
      ensures user.Some? ==> alert.None?
      ensures user.Some? ==> selectedService == Some(service) && showBookingModal
      ensures user.Some? ==> bookingError == "" && bookingSuccess == ""
      ensures services == old(services) && filteredServices == old(filteredServices)
      ensures loading == old(loading) && filter == old(filter)
      ensures bookingDate == old(bookingDate) && passengers == old(passengers)
      ensures servicesRequests == old(servicesRequests) && bookingRequests == old(bookingRequests)
    {
      if user.None? {
        alert := Some(LoginRequired);
        return;
      }
      alert := None;
      selectedService := Some(service);
      showBookingModal := true;
      bookingError := "";
      bookingSuccess := "";
    }

    /** The date input's `onChange`. */
    method SetBookingDate(date: string)
      requires Valid()
      modifies this
      ensures Valid()
      ensures bookingDate == date
      ensures passengers == old(passengers) && showBookingModal == old(showBookingModal)
      ensures selectedService == old(selectedService)
      ensures services == old(services) && filteredServices == old(filteredServices) && filter == old(filter)
      ensures bookingError == old(bookingError) && bookingSuccess == old(bookingSuccess)
      ensures servicesRequests == old(servicesRequests) && bookingRequests == old(bookingRequests)
      ensures loading == old(loading)
    {
      bookingDate := date;
    }

    /** The passenger input's `onChange`; the number is taken as entered. */
    method SetPassengers(count: int)
      requires Valid()
      modifies this
      ensures Valid()
      ensures passengers == count
      ensures bookingDate == old(bookingDate) && showBookingModal == old(showBookingModal)
      ensures selectedService == old(selectedService)
      ensures services == old(services) && filteredServices == old(filteredServices) && filter == old(filter)
      ensures bookingError == old(bookingError) && bookingSuccess == old(bookingSuccess)
      ensures servicesRequests == old(servicesRequests) && bookingRequests == old(bookingRequests)
      ensures loading == old(loading)
    {
      passengers := count;
    }

    /** The dialog's Cancel button and close icon. */
    method CloseBookingModal()
      requires Valid()
      modifies this
      ensures Valid()
      ensures !showBookingModal
      ensures selectedService == old(selectedService)
      ensures bookingDate == old(bookingDate) && passengers == old(passengers)
      ensures services == old(services) && filteredServices == old(filteredServices) && filter == old(filter)
      ensures bookingError == old(bookingError) && bookingSuccess == old(bookingSuccess)
      ensures servicesRequests == old(servicesRequests) && bookingRequests == old(bookingRequests)
      ensures loading == old(loading)
    {
      showBookingModal := false;
    }

    /** `handleBookingSubmit`. The error is cleared first. With a service
        selected, one `POST /bookings` carrying its id, the date and the
        passenger count is sent and `reply` is what the server answers: on
        success the message is set, the dialog closes and the services are
        fetched again; on failure the error is the server's detail or
        "Booking failed" and the dialog stays as it was. With nothing
        selected, reading `selectedService.id` throws before any request,
        and the same handler reports "Booking failed". */
    method SubmitBooking(reply: Reply)
      requires Valid()
      modifies this
      ensures Valid()
      ensures selectedService.Some? ==>
        bookingRequests == old(bookingRequests) + [Inventory.BookingCreate(selectedService.value.id, bookingDate, passengers)]
      ensures selectedService.None? ==> bookingRequests == old(bookingRequests)
      ensures selectedService.Some? && reply.Success? ==>
        && bookingSuccess == BookingCreated && bookingError == ""
        && !showBookingModal
        && servicesRequests == old(servicesRequests) + 1
      ensures selectedService.Some? && reply.Failure? ==>
        && bookingError == DetailOr(reply.detail, BookingFailed)
        && bookingSuccess == old(bookingSuccess)
        && showBookingModal == old(showBookingModal)
        && servicesRequests == old(servicesRequests)
      ensures selectedService.None? ==>
        && bookingError == BookingFailed && bookingSuccess == old(bookingSuccess)
        && showBookingModal == old(showBookingModal) && servicesRequests == old(servicesRequests)
      ensures selectedService == old(selectedService)
      ensures bookingDate == old(bookingDate) && passengers == old(passengers)
      ensures services == old(services) && filteredServices == old(filteredServices) && filter == old(filter)
      ensures loading == old(loading)
    {
      bookingError := "";
      if selectedService.None? {
        bookingError := BookingFailed;
        return;
      }
      bookingRequests := bookingRequests + [Inventory.BookingCreate(selectedService.value.id, bookingDate, passengers)];
      match reply {
        case Success =>
          bookingSuccess := BookingCreated;
          showBookingModal := false;
          servicesRequests := servicesRequests + 1;
        case Failure(detail) =>
          bookingError := DetailOr(detail, BookingFailed);
      }
    }

    /** The browser's constraint validation of the dialog's form: the date
        input is `required`, and the passenger input is `required` with
        `min="1"` and, once a service is selected, `max` its free seats. */
    predicate FormComplete()
      reads this
    {
      && bookingDate != ""
      && 1 <= passengers
      && (selectedService.Some? ==> passengers <= selectedService.value.availableSeats)
    }

    /** "Confirm Booking" pressed. The form only exists while the dialog is
        shown, and the browser fires `onSubmit` only when the form passes
        validation; otherwise nothing happens. When it fires, the handler runs
        with the selected service, which the open dialog guarantees. */
    method SubmitForm(reply: Reply)
      requires Valid()
      modifies this
      ensures Valid()
      ensures selectedService == old(selectedService)
      ensures !(old(showBookingModal) && old(FormComplete())) ==> unchanged(this)
      ensures old(showBookingModal) && old(FormComplete()) ==>
        && selectedService.Some?
        && bookingRequests == old(bookingRequests) + [Inventory.BookingCreate(selectedService.value.id, bookingDate, passengers)]
        && (reply.Success? ==>
              && bookingSuccess == BookingCreated && bookingError == ""
              && !showBookingModal && servicesRequests == old(servicesRequests) + 1)
        && (reply.Failure? ==>
              && bookingError == DetailOr(reply.detail, BookingFailed) && bookingSuccess == old(bookingSuccess)
              && showBookingModal && servicesRequests == old(servicesRequests))
      ensures bookingDate == old(bookingDate) && passengers == old(passengers)
      ensures services == old(services) && filteredServices == old(filteredServices) && filter == old(filter)
      ensures loading == old(loading)
    {
      if showBookingModal && FormComplete() {
        SubmitBooking(reply);
      }
    }

    /** The success alert's close button. */
    method DismissSuccess()
      requires Valid()
      modifies this
      ensures Valid()
      ensures bookingSuccess == ""
      ensures bookingError == old(bookingError) && showBookingModal == old(showBookingModal)
      ensures selectedService == old(selectedService)
      ensures bookingDate == old(bookingDate) && passengers == old(passengers)
      ensures services == old(services) && filteredServices == old(filteredServices) && filter == old(filter)
      ensures servicesRequests == old(servicesRequests) && bookingRequests == old(bookingRequests)
      ensures loading == old(loading)
    {
      bookingSuccess := "";
    }
  }

  /** A logged-in user who opens the dialog on a service, with a date and a
      passenger count the form accepts, and submits, sends exactly one request
      for that service; a failure keeps the dialog open with the server's
      message. */
  method FailedBookingKeepsDialogOpen(page: ServicesView, service: Service, detail: string)
    requires page.Valid() && page.user.Some?
    requires page.bookingDate != "" && 1 <= page.passengers <= service.availableSeats
    requires detail != ""
    modifies page
    ensures page.Valid()
    ensures page.showBookingModal && page.bookingError == detail
    ensures page.bookingRequests == old(page.bookingRequests) + [Inventory.BookingCreate(service.id, old(page.bookingDate), old(page.passengers))]
  {
    var alert := page.BookingClick(service);
    page.SubmitForm(Failure(Some(detail)));
  }

  /** Without a date the browser blocks the submit: no request is sent and
      the page does not change. */
  method MissingDateSendsNothing(page: ServicesView, reply: Reply)
    requires page.Valid() && page.bookingDate == ""
    modifies page
    ensures page.bookingRequests == old(page.bookingRequests)
    ensures page.bookingError == old(page.bookingError) && page.showBookingModal == old(page.showBookingModal)
  {
    page.SubmitForm(reply);
  }
}
