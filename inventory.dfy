/** The seat inventory behind the TravelGo booking endpoints
    (`TravelGo/backend/main.py`): `POST /bookings`, `DELETE /bookings/{id}`,
    `GET /services` and `GET /bookings`.

    Each transaction is first stated as a pure function from the two tables
    to the new tables and the reply. Lemmas about those functions give seat
    conservation, the one-way status machine and the book/cancel round trip.
    The class `TravelDb` then performs the same transactions step by step on
    its fields, and each method is proved to commit exactly what the function
    describes. */
module Inventory {
  import opened Common
  import opened Catalog
  import opened Text

  /** The body of `POST /bookings`; `passengers` defaults to 1 and has no range check. */
  datatype BookingCreate = BookingCreate(serviceId: int, bookingDate: string, passengers: int)

  /** The `services` and `bookings` tables, and the next AUTO_INCREMENT id of `bookings`. */
  datatype Tables = Tables(services: map<int, Service>, bookings: map<int, Booking>, nextBookingId: int)

  /** A row of `GET /bookings`: the booking joined with its service. */
  datatype BookingListing = BookingListing(booking: Booking, service: Service)

  /** The reply of a failed create: the 400 raised inside the `try` is caught by
      `except Exception` and re-raised as a 500 whose detail is `str(e)`. */
  const CreateRejected: HttpResult<int> := HttpError(500, "400: Service not available or insufficient seats")

  /** The reply of a failed cancel, re-raised in the same way from the 404. */
  const CancelRejected: HttpResult<()> := HttpError(500, "404: Booking not found or already cancelled")

  /** Keys agree with row ids, booking ids lie below the AUTO_INCREMENT counter,
      and every booking refers to an existing service (the foreign key). */
  ghost predicate WellFormed(t: Tables) {
    && t.nextBookingId >= 1
    && (forall sid :: sid in t.services ==> t.services[sid].id == sid)
    && (forall bid :: bid in t.bookings ==>
          && 1 <= bid < t.nextBookingId
          && t.bookings[bid].id == bid
          && t.bookings[bid].serviceId in t.services)
  }

  /** Seats booking `bid` holds on service `sid`: its passengers while confirmed. */
  ghost function Held(bookings: map<int, Booking>, sid: int, bid: int): int {
    if bid in bookings && bookings[bid].status == Confirmed && bookings[bid].serviceId == sid
    then bookings[bid].passengers
    else 0
  }

  /** Seats held on service `sid` by the bookings with ids 1 .. n - 1. */
  ghost function Committed(bookings: map<int, Booking>, sid: int, n: int): int
    decreases n
  {
    if n <= 1 then 0 else Committed(bookings, sid, n - 1) + Held(bookings, sid, n - 1)
  }

  /** Seat conservation: for each service, free seats plus seats held by
      confirmed bookings equal the seats it was created with. */
  ghost predicate SeatsConserved(t: Tables, capacity: map<int, int>) {
    && capacity.Keys == t.services.Keys
    && forall sid :: sid in t.services ==>
         t.services[sid].availableSeats + Committed(t.bookings, sid, t.nextBookingId) == capacity[sid]
  }

  ghost predicate SeatsNonNegative(t: Tables) {
    forall sid :: sid in t.services ==> t.services[sid].availableSeats >= 0
  }

  /** The only status change a transaction may make to an existing booking. */
  predicate StatusStep(before: BookingStatus, after: BookingStatus) {
    before == after || (before == Confirmed && after == Cancelled)
  }

  /** `create_booking`: lock the service row, reject when it is missing or has
      fewer seats than requested, otherwise take the seats and insert a
      confirmed booking under the next id. */
  function CreateBookingTransaction(t: Tables, userId: int, req: BookingCreate, now: int): (out: (Tables, HttpResult<int>))
    ensures out.1.Ok? <==> req.serviceId in t.services && t.services[req.serviceId].availableSeats >= req.passengers
    ensures out.1.HttpError? ==> out == (t, CreateRejected)
    ensures out.1.Ok? ==>
      && out.1.value == t.nextBookingId
      && out.0.nextBookingId == t.nextBookingId + 1
      && out.0.services.Keys == t.services.Keys
      && out.0.services[req.serviceId]
         == t.services[req.serviceId].(availableSeats := t.services[req.serviceId].availableSeats - req.passengers)
      && (forall sid :: sid in t.services && sid != req.serviceId ==> out.0.services[sid] == t.services[sid])
      && out.0.bookings.Keys == t.bookings.Keys + {t.nextBookingId}
      && out.0.bookings[t.nextBookingId]
         == Booking(t.nextBookingId, userId, req.serviceId, req.bookingDate, req.passengers, Confirmed, now)
      && (forall bid :: bid in t.bookings && bid != t.nextBookingId ==> out.0.bookings[bid] == t.bookings[bid])
  {
    if req.serviceId !in t.services || t.services[req.serviceId].availableSeats < req.passengers then
      (t, CreateRejected)
    else
      var s := t.services[req.serviceId];
      var id := t.nextBookingId;
      var services := t.services[req.serviceId := s.(availableSeats := s.availableSeats - req.passengers)];
      var bookings := t.bookings[id := Booking(id, userId, req.serviceId, req.bookingDate, req.passengers, Confirmed, now)];
      (Tables(services, bookings, id + 1), Ok(id))
  }

  /** The row `cancel_booking` selects: that id, owned by the caller, still confirmed. */
  predicate Cancellable(t: Tables, userId: int, bookingId: int) {
    && bookingId in t.bookings
    && t.bookings[bookingId].userId == userId
    && t.bookings[bookingId].status == Confirmed
  }

  /** `cancel_booking`: reject unless the booking is cancellable, otherwise mark
      it cancelled and give its passengers back to its service. */
  function CancelBookingTransaction(t: Tables, userId: int, bookingId: int): (out: (Tables, HttpResult<()>))
    ensures out.1.Ok? <==> Cancellable(t, userId, bookingId)
    ensures out.1.HttpError? ==> out == (t, CancelRejected)
    ensures out.1.Ok? ==>
      var b := t.bookings[bookingId];
      && out.0.nextBookingId == t.nextBookingId
      && out.0.bookings == t.bookings[bookingId := b.(status := Cancelled)]
      && out.0.services.Keys == t.services.Keys
      && (b.serviceId in t.services ==>
            out.0.services[b.serviceId]
            == t.services[b.serviceId].(availableSeats := t.services[b.serviceId].availableSeats + b.passengers))
      && (forall sid :: sid in t.services && sid != b.serviceId ==> out.0.services[sid] == t.services[sid])
  {
    if !Cancellable(t, userId, bookingId) then
      (t, CancelRejected)
    else
      var b := t.bookings[bookingId];
      var bookings := t.bookings[bookingId := b.(status := Cancelled)];
      // An UPDATE that matches no service row changes nothing.
      var services :=
        if b.serviceId in t.services
        then t.services[b.serviceId := t.services[b.serviceId].(availableSeats := t.services[b.serviceId].availableSeats + b.passengers)]
        else t.services;
      (Tables(services, bookings, t.nextBookingId), Ok(()))
  }

  /** The WHERE clause `get_services` builds: free seats, then the optional
      type and the optional location (a substring of the location or of the
      destination). An empty location string adds no condition. */
  predicate Listed(s: Service, serviceType: Option<ServiceType>, location: Option<string>)
    ensures Listed(s, serviceType, location) ==> s.availableSeats > 0
    ensures location.Some? && location.value == "" ==>
      (Listed(s, serviceType, location) <==> s.availableSeats > 0 && (serviceType.Some? ==> s.serviceType == serviceType.value))
  {
    && s.availableSeats > 0
    && (serviceType.Some? ==> s.serviceType == serviceType.value)
    && (location.Some? && location.value != "" ==>
          || Contains(s.location, location.value)
          || (s.destination.Some? && Contains(s.destination.value, location.value)))
  }

  /** `ORDER BY created_at DESC`. */
  predicate NewestFirst(rows: seq<BookingListing>) {
    forall i, j :: 0 <= i < j < |rows| ==> rows[i].booking.createdAt >= rows[j].booking.createdAt
  }

  /** Puts `x` in front of the first row that is not newer than it. */
  function InsertNewestFirst(rows: seq<BookingListing>, x: BookingListing): (out: seq<BookingListing>)
    requires NewestFirst(rows)
    ensures |out| == |rows| + 1
    ensures out[0] == x || (rows != [] && out[0] == rows[0])
    ensures NewestFirst(out)
    ensures multiset(out) == multiset(rows) + multiset{x}
  {
    if rows == [] || x.booking.createdAt >= rows[0].booking.createdAt then
      [x] + rows
    else
      var rest := InsertNewestFirst(rows[1..], x);
      assert rows == [rows[0]] + rows[1..];
      assert rows[0].booking.createdAt >= rest[0].booking.createdAt;
      [rows[0]] + rest
  }

  /** The rows among `keys` that `get_services` returns. */
  ghost function ListedServices(services: map<int, Service>, keys: set<int>, serviceType: Option<ServiceType>, location: Option<string>): set<Service> {
    set k | k in keys && k in services && Listed(services[k], serviceType, location) :: services[k]
  }

  /** The joined rows among `keys` that `get_user_bookings` returns to `userId`. */
  ghost function UserListings(t: Tables, keys: set<int>, userId: int): set<BookingListing>
    requires WellFormed(t)
  {
    set k | k in keys && k in t.bookings && t.bookings[k].userId == userId
      :: BookingListing(t.bookings[k], t.services[t.bookings[k].serviceId])
  }

  lemma ListedServicesStep(services: map<int, Service>, keys: set<int>, sid: int, serviceType: Option<ServiceType>, location: Option<string>)
    requires forall k :: k in services ==> services[k].id == k
    requires sid in services && sid !in keys
    ensures var before := ListedServices(services, keys, serviceType, location);
      && (Listed(services[sid], serviceType, location) ==>
            services[sid] !in before && ListedServices(services, keys + {sid}, serviceType, location) == before + {services[sid]})
      && (!Listed(services[sid], serviceType, location) ==>
            ListedServices(services, keys + {sid}, serviceType, location) == before)
  {
  }

  lemma UserListingsStep(t: Tables, keys: set<int>, bid: int, userId: int)
    requires WellFormed(t)
    requires bid in t.bookings && bid !in keys
    ensures var before := UserListings(t, keys, userId);
      var row := BookingListing(t.bookings[bid], t.services[t.bookings[bid].serviceId]);
      && (t.bookings[bid].userId == userId ==> row !in before && UserListings(t, keys + {bid}, userId) == before + {row})
      && (t.bookings[bid].userId != userId ==> UserListings(t, keys + {bid}, userId) == before)
  {
  }

  // ---------------------------------------------------------------------------
  // Seat accounting

  lemma {:induction false} CommittedFrame(a: map<int, Booking>, b: map<int, Booking>, sid: int, n: int)
    requires forall bid :: 1 <= bid < n ==> Held(a, sid, bid) == Held(b, sid, bid)
    ensures Committed(a, sid, n) == Committed(b, sid, n)
    decreases n
  {
    if n > 1 {
      CommittedFrame(a, b, sid, n - 1);
    }
  }

  /** Changing what one booking holds changes the total by exactly that difference. */
  lemma {:induction false} CommittedChangeOne(a: map<int, Booking>, b: map<int, Booking>, sid: int, n: int, k: int)
    requires 1 <= k < n
    requires forall bid :: 1 <= bid < n && bid != k ==> Held(a, sid, bid) == Held(b, sid, bid)
    ensures Committed(b, sid, n) == Committed(a, sid, n) - Held(a, sid, k) + Held(b, sid, k)
    decreases n
  {
    if n - 1 == k {
      CommittedFrame(a, b, sid, k);
    } else {
      CommittedChangeOne(a, b, sid, n - 1, k);
    }
  }

  /** A successful create keeps the tables well formed and conserves seats:
      the seats taken from the service are exactly those the new confirmed
      booking holds. */
  lemma CreatePreservesInvariants(t: Tables, capacity: map<int, int>, userId: int, req: BookingCreate, now: int)
    requires WellFormed(t) && SeatsConserved(t, capacity)
    ensures WellFormed(CreateBookingTransaction(t, userId, req, now).0)
    ensures SeatsConserved(CreateBookingTransaction(t, userId, req, now).0, capacity)
  {
    var (t', r) := CreateBookingTransaction(t, userId, req, now);
    if r.Ok? {
      var n := t.nextBookingId;
      forall sid | sid in t'.services
        ensures t'.services[sid].availableSeats + Committed(t'.bookings, sid, t'.nextBookingId) == capacity[sid]
      {
        CommittedFrame(t.bookings, t'.bookings, sid, n);
        assert Committed(t'.bookings, sid, n + 1) == Committed(t'.bookings, sid, n) + Held(t'.bookings, sid, n);
      }
    }
  }

  /** A successful cancel keeps the tables well formed and conserves seats:
      the seats given back are exactly those the booking stops holding. */
  lemma CancelPreservesInvariants(t: Tables, capacity: map<int, int>, userId: int, bookingId: int)
    requires WellFormed(t) && SeatsConserved(t, capacity)
    ensures WellFormed(CancelBookingTransaction(t, userId, bookingId).0)
    ensures SeatsConserved(CancelBookingTransaction(t, userId, bookingId).0, capacity)
  {
    var (t', r) := CancelBookingTransaction(t, userId, bookingId);
    if r.Ok? {
      forall sid | sid in t'.services
        ensures t'.services[sid].availableSeats + Committed(t'.bookings, sid, t'.nextBookingId) == capacity[sid]
      {
        CommittedChangeOne(t.bookings, t'.bookings, sid, t.nextBookingId, bookingId);
      }
    }
  }

  /** Without negative requests, a create never drives a seat count below zero. */
  lemma CreateKeepsSeatsNonNegative(t: Tables, userId: int, req: BookingCreate, now: int)
    requires SeatsNonNegative(t) && req.passengers >= 0
    ensures SeatsNonNegative(CreateBookingTransaction(t, userId, req, now).0)
  {
  }

  /** A cancel never drives a seat count below zero while every booking holds
      a non-negative number of passengers. */
  lemma CancelKeepsSeatsNonNegative(t: Tables, userId: int, bookingId: int)
    requires SeatsNonNegative(t)
    requires forall bid :: bid in t.bookings ==> t.bookings[bid].passengers >= 0
    ensures SeatsNonNegative(CancelBookingTransaction(t, userId, bookingId).0)
  {
  }

  /** `passengers` is not range-checked: a negative request is accepted and
      adds seats, and cancelling it later takes them away again, so a service
      can be left with fewer than zero free seats. */
  lemma NegativePassengersCanDriveSeatsNegative()
    ensures
      var s := Service(1, Bus, "Night Coach", "Mumbai", Some("Goa"), "", 899.0, 0, []);
      var t0 := Tables(map[1 := s], map[], 1);
      var (t1, r1) := CreateBookingTransaction(t0, 7, BookingCreate(1, "2025-07-01", -5), 100);
      var (t2, r2) := CreateBookingTransaction(t1, 8, BookingCreate(1, "2025-07-01", 5), 101);
      var (t3, r3) := CancelBookingTransaction(t2, 7, 1);
      && WellFormed(t0) && SeatsNonNegative(t0)
      && r1 == Ok(1) && r2 == Ok(2) && r3 == Ok(())
      && t3.services[1].availableSeats == -5
  {
  }

  /** Booking and then cancelling that booking gives the services table back
      exactly as it was, and leaves the new booking cancelled. */
  lemma BookThenCancelRestoresServices(t: Tables, userId: int, req: BookingCreate, now: int)
    requires WellFormed(t)
    requires CreateBookingTransaction(t, userId, req, now).1.Ok?
    ensures
      var (t1, r1) := CreateBookingTransaction(t, userId, req, now);
      var (t2, r2) := CancelBookingTransaction(t1, userId, r1.value);
      && r2.Ok?
      && t2.services == t.services
      && t2.bookings[r1.value].status == Cancelled
  {
    var (t1, r1) := CreateBookingTransaction(t, userId, req, now);
    var (t2, r2) := CancelBookingTransaction(t1, userId, r1.value);
    assert t2.services[req.serviceId] == t.services[req.serviceId];
    assert t2.services == t.services;
  }

  /** Every transaction moves each existing booking's status along `StatusStep`
      only, and never removes a booking. */
  lemma StatusOnlyMovesForward(t: Tables, userId: int, req: BookingCreate, now: int, bookingId: int)
    requires WellFormed(t)
    ensures
      var t1 := CreateBookingTransaction(t, userId, req, now).0;
      var t2 := CancelBookingTransaction(t, userId, bookingId).0;
      forall bid :: bid in t.bookings ==>
        && bid in t1.bookings && StatusStep(t.bookings[bid].status, t1.bookings[bid].status)
        && bid in t2.bookings && StatusStep(t.bookings[bid].status, t2.bookings[bid].status)
  {
  }

  /** Once a cancel has succeeded, a second cancel of the same booking is
      rejected and changes nothing. */
  lemma SecondCancelRejected(t: Tables, userId: int, bookingId: int)
    requires CancelBookingTransaction(t, userId, bookingId).1.Ok?
    ensures
      var t1 := CancelBookingTransaction(t, userId, bookingId).0;
      CancelBookingTransaction(t1, userId, bookingId) == (t1, CancelRejected)
  {
  }

  /** Some row of a non-empty table, in an order the database is free to choose. */
  method AnyKey<K>(keys: set<K>) returns (k: K)
    requires keys != {}
    ensures k in keys
  {
    k :| k in keys;
  }

  // ---------------------------------------------------------------------------
  // The database the endpoints run against

  class TravelDb {
    var services: map<int, Service>
    var bookings: map<int, Booking>
    var nextBookingId: int
    /** The seats each service was seeded with. */
    ghost var capacity: map<int, int>

    function Snapshot(): Tables
      reads this
    {
      Tables(services, bookings, nextBookingId)
    }

    ghost predicate Valid()
      reads this
    {
      WellFormed(Snapshot()) && SeatsConserved(Snapshot(), capacity)
    }

    /** Tables seeded with `seed` and no bookings. */
    constructor (seed: map<int, Service>)
      requires forall sid :: sid in seed ==> seed[sid].id == sid
      ensures Valid()
      ensures services == seed && bookings == map[] && nextBookingId == 1
    {
      services := seed;
      bookings := map[];
      nextBookingId := 1;
      capacity := map sid | sid in seed :: seed[sid].availableSeats;
    }

    /** `POST /bookings` as one transaction: the lookup and the check happen
        before any update, so a rejected request leaves every row as it was. */
    method CreateBooking(userId: int, req: BookingCreate, now: int) returns (r: HttpResult<int>)
      requires Valid()
      modifies this
      ensures Valid() && capacity == old(capacity)
      ensures (Snapshot(), r) == CreateBookingTransaction(old(Snapshot()), userId, req, now)
    {
      CreatePreservesInvariants(Snapshot(), capacity, userId, req, now);
      // SELECT available_seats FROM services WHERE id = ? FOR UPDATE
      if req.serviceId !in services {
        return CreateRejected;
      }
      var seats := services[req.serviceId].availableSeats;
      if seats < req.passengers {
        return CreateRejected;
      }
      // UPDATE services SET available_seats = available_seats - ?
      services := services[req.serviceId := services[req.serviceId].(availableSeats := seats - req.passengers)];
      // INSERT INTO bookings ...; booking_id = lastrowid
      var id := nextBookingId;
      bookings := bookings[id := Booking(id, userId, req.serviceId, req.bookingDate, req.passengers, Confirmed, now)];
      nextBookingId := nextBookingId + 1;
      r := Ok(id);
    }

    /** `DELETE /bookings/{id}` as one transaction. */
    method CancelBooking(userId: int, bookingId: int) returns (r: HttpResult<()>)
      requires Valid()
      modifies this
      ensures Valid() && capacity == old(capacity)
      ensures (Snapshot(), r) == CancelBookingTransaction(old(Snapshot()), userId, bookingId)
    {
      CancelPreservesInvariants(Snapshot(), capacity, userId, bookingId);
      // SELECT service_id, passengers FROM bookings WHERE id = ? AND user_id = ? AND status = 'confirmed'
      if bookingId !in bookings || bookings[bookingId].userId != userId || bookings[bookingId].status != Confirmed {
        return CancelRejected;
      }
      var serviceId, passengers := bookings[bookingId].serviceId, bookings[bookingId].passengers;
      // UPDATE bookings SET status = 'cancelled'
      bookings := bookings[bookingId := bookings[bookingId].(status := Cancelled)];
      // UPDATE services SET available_seats = available_seats + ?
      if serviceId in services {
        services := services[serviceId := services[serviceId].(availableSeats := services[serviceId].availableSeats + passengers)];
      }
      r := Ok(());
    }

    /** `GET /services`: every service the WHERE clause admits, each once, in
        no particular order (the query has no ORDER BY). */
    method GetServices(serviceType: Option<ServiceType>, location: Option<string>) returns (r: seq<Service>)
      requires Valid()
      ensures forall s :: s in r ==> s.availableSeats > 0
      ensures multiset(r) == multiset(ListedServices(services, services.Keys, serviceType, location))
    {
      var remaining := services.Keys;
      r := [];
      while remaining != {}
        invariant remaining <= services.Keys
        invariant multiset(r) == multiset(ListedServices(services, services.Keys - remaining, serviceType, location))
        invariant forall s :: s in r ==> s.availableSeats > 0
        decreases remaining
      {
        var sid := AnyKey(remaining);
        assert services.Keys - (remaining - {sid}) == (services.Keys - remaining) + {sid};
        ListedServicesStep(services, services.Keys - remaining, sid, serviceType, location);
        if Listed(services[sid], serviceType, location) {
          r := r + [services[sid]];
        }
        remaining := remaining - {sid};
      }
    }

    /** `GET /bookings`: the caller's bookings joined with their services,
        each once, newest first. */
    method GetUserBookings(userId: int) returns (r: seq<BookingListing>)
      requires Valid()
      ensures NewestFirst(r)
      ensures forall x :: x in r ==> x.booking.userId == userId
      ensures multiset(r) == multiset(UserListings(Snapshot(), bookings.Keys, userId))
    {
      var remaining := bookings.Keys;
      r := [];
      while remaining != {}
        invariant remaining <= bookings.Keys
        invariant NewestFirst(r)
        invariant multiset(r) == multiset(UserListings(Snapshot(), bookings.Keys - remaining, userId))
        decreases remaining
      {
        var bid := AnyKey(remaining);
        assert bookings.Keys - (remaining - {bid}) == (bookings.Keys - remaining) + {bid};
        UserListingsStep(Snapshot(), bookings.Keys - remaining, bid, userId);
        if bookings[bid].userId == userId {
          r := InsertNewestFirst(r, BookingListing(bookings[bid], services[bookings[bid].serviceId]));
        }
        remaining := remaining - {bid};
      }
      assert forall x :: x in r ==> x in multiset(r);
    }
  }
}
