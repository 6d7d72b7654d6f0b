# TravelGo booking core in Dafny

TravelGo is a small travel-booking application. A FastAPI backend keeps a
`services` table (buses and hotels with a count of free seats) and a
`bookings` table. A React front end lists and filters the services, books
seats and cancels bookings. A second, mock Python API serves city
suggestions, destination search, hotel and bus lookups, registration and
login. A dashboard page walks through a three-step payment dialog.

This project models that logic and proves what it promises:

- `common.dfy` holds shared value types: `Option`, an HTTP result, an axios
  reply, and the `detail || fallback` rule for error text.
- `catalog.dfy` holds the rows of the two tables.
- `text.dfy` models `strip`, `lower` and `title` on ASCII letters, with
  Python's whitespace set, and substring search.
- `seqs.dfy` models order-preserving filtering and the `xs[:n]` slice.
- `inventory.dfy` models the seat inventory.
  - Booking creation and cancellation are pure transaction functions over
    the two tables, with lemmas for:
    - seat conservation;
    - non-negative seats;
    - the one-way status machine;
    - the book/cancel round trip.
  - The class `TravelDb` runs the same transactions step by step on its
    fields. Each method is proved to commit exactly what the function
    describes.
  - The two listing queries are loops over the table keys, proved against
    set comprehensions.
- `service_filter.dfy` models the client-side filter chain of the services
  page. It is proved equal to a single pass with the conjunction of the
  criteria. From that follow soundness, completeness, order preservation
  and idempotence.
- `services_view.dfy` and `bookings_view.dfy` model the React state of the
  services page and the "My Bookings" page as classes, one method per event
  handler:
  - server replies are parameters;
  - the requests sent are recorded in fields.
- `mock_api.dfy` models the mock API:
  - suggestion capping and order;
  - insensitivity to padding and case;
  - the search filter;
  - lookups under a normalised key;
  - the `book` echo;
  - a user store with a uniqueness-checked `register`;
  - `login`.
- `payment_modal.dfy` models the dashboard dialog. The 1200 ms timer is an
  explicit event and pending timers are counted. This shows that closing
  the dialog does not cancel a pending confirmation.

Failed transactions reply with status 500. Inside the `try`, the handler
raises a 400 or 404 `HTTPException`. The surrounding `except Exception`
catches it and raises a 500 whose detail is `str(e)`. For Starlette's
`HTTPException` that string is `"<status>: <detail>"`, so the model's
rejection constants are `HttpError(500, "400: Service not available or
insufficient seats")` and `HttpError(500, "404: Booking not found or already
cancelled")`.

## Model

| member | source | states |
|---|---|---|
| Common.DetailOr | TravelGo/frontend/src/components/Services.js:104 | The message is the server's detail when there is a non-empty one, and the fallback text otherwise. |
| Catalog.StatusText | TravelGo/backend/main.py:62-65 | Each status has its own text: pending is "pending", confirmed is "confirmed", cancelled is "cancelled", each in both directions. |
| Text.StripIgnoresSurroundingSpace | python_backend/main.py:94 | Whitespace added around a string never changes what `strip()` returns. |
| Text.StripEmptyIffAllSpace | python_backend/main.py:94-96 | `strip()` gives the empty string exactly when the input is all whitespace. |
| Text.Strip | python_backend/main.py:94 | The result of `strip()` is the slice of the input left after dropping the leading and trailing whitespace: what is dropped on either side is all whitespace, and the result neither starts nor ends with whitespace. |
| Text.Lower | python_backend/main.py:94 | `lower()` keeps the length, leaves no upper-case letter, turns each upper-case letter into its lower-case form, and keeps every other character. |
| Text.Title | python_backend/main.py:188 | `title()` keeps the length, the letters' identity and every non-letter; a letter is upper-case exactly when it starts a word, i.e. when it is first or follows a non-letter. |
| Text.StripLowerCommute | python_backend/main.py:94 | Stripping then lower-casing equals lower-casing then stripping. |
| Text.StripIgnoresCase | python_backend/main.py:188 | Strings equal up to case stay equal up to case after `strip()`. |
| Text.TitleIgnoresCase | python_backend/main.py:188 | `title()` gives the same result for strings that differ only in letter case. |
| Seqs.Filter | TravelGo/frontend/src/components/Services.js:50 | The result holds exactly the input elements the predicate accepts, each as many times as in the input, and no other; it is no longer than the input. |
| Seqs.FilterFuse | TravelGo/frontend/src/components/Services.js:47-66 | Two successive filters equal one filter with the conjunction of both predicates. |
| Seqs.FilterIsSubsequence | TravelGo/frontend/src/components/Services.js:47-66 | A filter's result is a subsequence of its input: the order is kept. |
| Seqs.Take | python_backend/main.py:98 | `xs[:n]` is the first `n` elements, or all of them when there are fewer. |
| Inventory.CreateBookingTransaction | TravelGo/backend/main.py:180-219 | The create succeeds iff the service exists and has at least `passengers` free seats. On rejection the tables are unchanged and the reply is the re-raised 500. On success that service loses exactly `passengers` seats and the others are unchanged. Exactly one booking is added under the next id, carrying the caller, service, date, passengers and `confirmed`. Existing bookings are untouched. |
| Inventory.CancelBookingTransaction | TravelGo/backend/main.py:236-274 | The cancel succeeds iff a booking with that id belongs to the caller and is confirmed; otherwise nothing changes and the reply is the re-raised 500. On success that booking alone becomes `cancelled`, its service gets exactly its passengers back with every other column unchanged, and other services are unchanged. |
| Inventory.InsertNewestFirst | TravelGo/backend/main.py:225-233 | Inserting a row into a newest-first list keeps it newest-first and adds exactly that row. |
| Inventory.CreatePreservesInvariants | TravelGo/backend/main.py:200-213 | A create keeps the tables well formed and conserves seats: free seats plus seats held by confirmed bookings stay equal to the seeded capacity. |
| Inventory.CancelPreservesInvariants | TravelGo/backend/main.py:257-267 | A cancel keeps the tables well formed and conserves seats. |
| Inventory.CreateKeepsSeatsNonNegative | TravelGo/backend/main.py:196-204 | With a non-negative passenger count, a create never makes a seat count negative. |
| Inventory.CancelKeepsSeatsNonNegative | TravelGo/backend/main.py:263-267 | While every booking holds a non-negative number of passengers, a cancel never makes a seat count negative. |
| Inventory.NegativePassengersCanDriveSeatsNegative | TravelGo/backend/main.py:88 | `passengers` has no range check. Booking -5 seats on a full service, booking 5 more, then cancelling the first booking leaves -5 free seats. |
| Inventory.BookThenCancelRestoresServices | TravelGo/backend/main.py:201-204 | Cancelling a booking just created succeeds, restores the services table exactly, and leaves the booking `cancelled`. |
| Inventory.StatusOnlyMovesForward | TravelGo/backend/main.py:258-260 | No transaction removes a booking, and a status changes only from `confirmed` to `cancelled`. |
| Inventory.SecondCancelRejected | TravelGo/backend/main.py:245-253 | After a successful cancel, cancelling the same booking again is rejected and changes nothing. |
| Inventory.TravelDb.CreateBooking | TravelGo/backend/main.py:180-219 | The step-by-step transaction commits exactly what `CreateBookingTransaction` describes, and keeps seat conservation. |
| Inventory.TravelDb.CancelBooking | TravelGo/backend/main.py:236-274 | The step-by-step transaction commits exactly what `CancelBookingTransaction` describes, and keeps seat conservation. |
| Inventory.Listed | TravelGo/backend/main.py:162-172 | Only services with free seats are listed, and an empty location adds no condition beyond seats and type. |
| Inventory.TravelDb.GetServices | TravelGo/backend/main.py:159-178 | The result is each service passing the WHERE clause exactly once: free seats, the optional type, and the optional location in the location or destination. All have seats. |
| Inventory.TravelDb.GetUserBookings | TravelGo/backend/main.py:221-234 | The result is exactly the caller's bookings joined with their services, each once, newest first. |
| ServiceFilter.ApplyFilters | TravelGo/frontend/src/components/Services.js:46-69 | Each service matching every filled-in criterion is kept as often as it occurs in the list, and no other service is kept; the result is no longer than the list. |
| ServiceFilter.ApplyFiltersIsOnePass | TravelGo/frontend/src/components/Services.js:46-69 | The chain of up to four filters equals one filter by the conjunction of all filled-in criteria. |
| ServiceFilter.ApplyFiltersKeepsExactlyMatches | TravelGo/frontend/src/components/Services.js:49-66 | A service is kept iff it is in the list and satisfies every filled-in criterion. The criteria are type equality, a case-insensitive substring of the location or of a non-empty destination, `price >= min`, and `price <= max`. |
| ServiceFilter.ApplyFiltersPreservesOrder | TravelGo/frontend/src/components/Services.js:47-66 | The result is an order-preserving subsequence of the services. |
| ServiceFilter.BlankCriteriaKeepAll | TravelGo/frontend/src/components/Services.js:46-68 | With every field blank, the result is the service list itself. |
| ServiceFilter.ApplyFiltersIdempotent | TravelGo/frontend/src/components/Services.js:46-68 | Filtering the result again with the same criteria changes nothing. |
| ServiceFilter.InvertedPriceRangeIsEmpty | TravelGo/frontend/src/components/Services.js:60-66 | A minimum above the maximum leaves no service. |
| ServiceFilter.LocationMatchesDestinationIgnoringCase | TravelGo/frontend/src/components/Services.js:53-58 | "goa" keeps a service whose destination is "GOA" and drops one located in "Mumbai". |
| ServicesPage.WithChange | TravelGo/frontend/src/components/Services.js:71-76 | A filter change replaces only the named field; the other three are unchanged. |
| ServicesPage.WithChangeLastWins | TravelGo/frontend/src/components/Services.js:71-76 | Two changes to the same field leave only the second value. |
| ServicesPage.WithChangeCommutes | TravelGo/frontend/src/components/Services.js:71-76 | Changes to different fields can be applied in either order. |
| ServicesPage.ServicesView.constructor | TravelGo/frontend/src/components/Services.js:8-29 | The initial state: empty lists, blank filter, closed dialog, one passenger, loading, and one services request sent. |
| ServicesPage.ServicesView.ServicesFetched | TravelGo/frontend/src/components/Services.js:35-44 | Loading ends. A reply replaces the services and the filtered list is recomputed; a failure keeps the old list. |
| ServicesPage.ServicesView.ChangeFilter | TravelGo/frontend/src/components/Services.js:31-33 | The filter takes the change and the filtered list is recomputed from the services; nothing else changes. |
| ServicesPage.ServicesView.BookingClick | TravelGo/frontend/src/components/Services.js:78-87 | Without a user, the login alert is raised and no state changes. With one, the service is selected, the dialog opens, and the error and success text are cleared. |
| ServicesPage.ServicesView.SetBookingDate | TravelGo/frontend/src/components/Services.js:244 | Only the booking date changes. |
| ServicesPage.ServicesView.SetPassengers | TravelGo/frontend/src/components/Services.js:255 | Only the passenger count changes. |
| ServicesPage.ServicesView.CloseBookingModal | TravelGo/frontend/src/components/Services.js:260 | Only the dialog closes. |
| ServicesPage.ServicesView.SubmitBooking | TravelGo/frontend/src/components/Services.js:89-106 | One booking request with the selected service id, date and passengers is sent. On success the success text is set, the dialog closes, and services are fetched again. On failure the error is the server detail or "Booking failed" and the dialog stays as it was. With nothing selected, no request is sent and the error is "Booking failed". |
| ServicesPage.ServicesView.SubmitForm | TravelGo/frontend/src/components/Services.js:238-256 | With the dialog closed, or a date missing, or a passenger count below 1 or above the selected service's free seats, the browser does not submit and nothing changes. Otherwise exactly one request for the selected service, date and count is sent, and the success and failure branches are those of the handler. |
| ServicesPage.ServicesView.DismissSuccess | TravelGo/frontend/src/components/Services.js:172 | Only the success text is cleared. |
| ServicesPage.FailedBookingKeepsDialogOpen | TravelGo/frontend/src/components/Services.js:78-106 | A logged-in click then a failed submit of a valid form sends exactly one request, for that service with the entered date and count, and leaves the dialog open with the server's message. |
| ServicesPage.MissingDateSendsNothing | TravelGo/frontend/src/components/Services.js:241-246 | With the date blank, pressing "Confirm Booking" sends no request and changes neither the error nor the dialog. |
| BookingsPage.StatusBadge | TravelGo/frontend/src/components/Bookings.js:51-58 | The badge is `confirmed`→success, `pending`→warning, `cancelled`→danger, and anything else→secondary; each mapping holds in both directions. |
| BookingsPage.CancelOffered | TravelGo/frontend/src/components/Bookings.js:119-129 | The cancel button is shown exactly when the row's status is the text of a confirmed booking. |
| BookingsPage.CancelOfferedIffSuccessBadge | TravelGo/frontend/src/components/Bookings.js:119-129 | A cancel button is offered exactly for bookings with the green (`confirmed`) badge. |
| BookingsPage.RowStatusFromServer | TravelGo/frontend/src/components/Bookings.js:51-58 | For a row whose status is the server's text of a booking status, the badge is green and the cancel button shown exactly for a confirmed booking, yellow exactly for pending, and red exactly for cancelled. |
| BookingsPage.BookingsView.constructor | TravelGo/frontend/src/components/Bookings.js:8-13 | The initial state: no bookings, loading, no alerts, closed dialog, no requests. |
| BookingsPage.BookingsView.UserChanged | TravelGo/frontend/src/components/Bookings.js:16-20 | Bookings are fetched only when a user is present. |
| BookingsPage.BookingsView.BookingsFetched | TravelGo/frontend/src/components/Bookings.js:22-32 | Loading ends. A reply replaces the list; a failure keeps it and sets "Failed to load bookings". |
| BookingsPage.BookingsView.CancelClick | TravelGo/frontend/src/components/Bookings.js:34-37 | The booking is selected and the dialog opens; no request is sent. |
| BookingsPage.BookingsView.KeepBooking | TravelGo/frontend/src/components/Bookings.js:148-150 | The dialog closes; no request is sent. |
| BookingsPage.BookingsView.CancelConfirm | TravelGo/frontend/src/components/Bookings.js:39-49 | One DELETE for the selected id is sent and the dialog closes; the local list is never edited. On success the success text is set and bookings are fetched again. On failure the error is the server detail or "Failed to cancel booking". With nothing selected, no request is sent and the fallback error is shown. |
| BookingsPage.BookingsView.DismissError | TravelGo/frontend/src/components/Bookings.js:73 | Only the error text is cleared. |
| BookingsPage.BookingsView.DismissSuccess | TravelGo/frontend/src/components/Bookings.js:79 | Only the success text is cleared. |
| BookingsPage.ClickThenKeepSendsNothing | TravelGo/frontend/src/components/Bookings.js:34-37 | Opening the dialog and keeping the booking sends no request and changes neither the list nor the alerts. |
| BookingsPage.ClickThenConfirmDeletesThatBooking | TravelGo/frontend/src/components/Bookings.js:34-49 | Clicking cancel and confirming sends exactly one DELETE, for that booking's id. |
| MockApi.NormalQuery | python_backend/main.py:94 | The normalised query neither starts nor ends with whitespace and holds no upper-case letter. |
| MockApi.Matching | python_backend/main.py:97 | The matches are exactly the cities whose lower-case form contains the query, each as often as it is listed, in list order. |
| MockApi.SuggestCities | python_backend/main.py:92-98 | A blank or whitespace-only query gives `[]`. Otherwise the result is the first eight matches, or all matches when fewer. Every suggestion is a listed city containing the normalised query. |
| MockApi.SuggestionsInListOrder | python_backend/main.py:97-98 | Suggestions keep the order of the city list. |
| MockApi.SuggestionsCompleteUnderLimit | python_backend/main.py:97-98 | With at most eight matches, every match is suggested. |
| MockApi.SuggestIgnoresQueryPadding | python_backend/main.py:94 | Whitespace around the query does not change the suggestions. |
| MockApi.SuggestIgnoresQueryCase | python_backend/main.py:94 | The case of the query's letters does not change the suggestions. |
| MockApi.Search | python_backend/main.py:150-155 | An empty `to_city` gives every destination. Otherwise a destination is kept iff its city contains `to_city` ignoring case, as often as it occurs in the table. Order is kept. |
| MockApi.SearchDoesNotStrip | python_backend/main.py:153 | `to_city` is not stripped: "goa" finds Goa but " goa" finds nothing. |
| MockApi.CityKey | python_backend/main.py:188 | The key neither starts nor ends with whitespace and, when it starts with a letter, that letter is upper-case. |
| MockApi.CityLookup | python_backend/main.py:186-196 | A city whose normalised key is in the table gives that entry; any other city gives `[]`. |
| MockApi.GetHotels | python_backend/main.py:186-190 | The hotels listed under the normalised city, or `[]` when it has none. |
| MockApi.GetBuses | python_backend/main.py:192-196 | The buses listed under the normalised city, or `[]` when it has none. |
| MockApi.LookupIgnoresPadding | python_backend/main.py:188 | Whitespace around the city does not change a lookup. |
| MockApi.LookupIgnoresCase | python_backend/main.py:188 | The case of the city's letters does not change a lookup. |
| MockApi.HotelsAndBusesNormaliseAlike | python_backend/main.py:186-196 | Hotel and bus lookups are both insensitive to padding and case. |
| MockApi.PaddedMixedCaseCityFindsKey | python_backend/main.py:188 | "  gOA " is looked up under "Goa". |
| MockApi.Book | python_backend/main.py:173-184 | The reply echoes the destination and price unchanged, and the queued email carries the same booking to the given address. |
| MockApi.NewUser | python_backend/main.py:117-124 | A registered user is filed under its email, active, and not an administrator. |
| MockApi.Login | python_backend/main.py:131-140 | Login succeeds iff a user with that email exists and the password verifies against its hash; otherwise the reply is 401 "Invalid email or password.". |
| MockApi.LoginAfterRegister | python_backend/main.py:117-140 | After registering, the same email and password log in, given a verifier that accepts a password against its own hash. |
| MockApi.RegisterKeepsOtherLogins | python_backend/main.py:117-127 | Registering one email does not change whether any other email can log in. |
| MockApi.UserStore.Register | python_backend/main.py:100-129 | A taken email is refused with 400 "Email already registered." and the table is unchanged. Otherwise exactly one active, non-admin user is added under that email. |
| MockApi.RegisterTwice | python_backend/main.py:110-113 | Registering the same email twice: the first succeeds, the second is refused, and the table keeps the first registration. |
| PaymentDialog.PanelFor | src/pages/Dashboard.jsx:133-165 | "Proceed to Payment" shows only at step 1 and the confirmation only at step 3, both with the dialog open and type "book". A closed dialog shows nothing. |
| PaymentDialog.PaymentModal.constructor | src/pages/Dashboard.jsx:52-55 | The initial state: hidden, type "", nothing selected, step 1, no timers. |
| PaymentDialog.PaymentModal.OpenModal | src/pages/Dashboard.jsx:58-63 | The option is selected, the type is "book", the step is 1, and the dialog is shown with "Proceed to Payment" available. The step stays in 1..3. |
| PaymentDialog.PaymentModal.CloseModal | src/pages/Dashboard.jsx:64-69 | The dialog is hidden and type, selection and step are reset; pending timers keep running. |
| PaymentDialog.PaymentModal.HandlePayment | src/pages/Dashboard.jsx:71-74 | The step becomes 2 and one more timer is pending. |
| PaymentDialog.PaymentModal.TimerFires | src/pages/Dashboard.jsx:73 | A pending timer sets the step to 3, whatever the dialog shows. |
| PaymentDialog.OpenDialogNeverBlank | src/pages/Dashboard.jsx:133-165 | An open dialog at step 1, 2 or 3 always shows one of its three panels. |
| PaymentDialog.PayThenConfirm | src/pages/Dashboard.jsx:58-74 | Open, pay, and let the timer fire: the confirmation shows for the option that was paid for. |
| PaymentDialog.StaleTimerConfirmsNextOption | src/pages/Dashboard.jsx:64-73 | Paying for one option, closing, and opening another lets the first timer show the confirmation for the second, unpaid option. |

## Left out

- The database layer is not modelled:
  - MySQL connections;
  - `FOR UPDATE` row locking;
  - concurrent transactions;
  - cursor handling.
  Each transaction is one atomic step over in-memory maps.
- JWT issuing and checking is not modelled. The authenticated user id is an input.
- bcrypt hashing and verification (with random salt) are given functions, `hash` and `verify`.
- `TravelGo/backend/database.py` (schema DDL and seed data) and `TravelGo/start.py` are not part of this model.
- Inventory.TravelDb.GetServices: the location match is an exact-case substring test. MySQL `LIKE` under the default collation ignores case. It also treats `%` and `_` inside the location as wildcards. Neither is modelled.
- Inventory.TravelDb.GetUserBookings: rows with equal `created_at` come out in some order. The query leaves their order unspecified, and so does the model.
- Inventory.CreateBookingTransaction: the signed 32-bit range of the `INT` columns is not modelled. With a passenger count or a new seat count outside that range, the database rejects the UPDATE or INSERT and the handler rolls back and replies 500. The model instead accepts the booking with the unbounded result. The same applies to Inventory.TravelDb.CreateBooking.
- Inventory.CreateBookingTransaction: any other failing statement is not modelled either. Examples are a `booking_date` that the `DATE` column refuses, or a foreign-key error. Each ends in the same rollback and 500 reply with a database-specific detail.
- Inventory.CancelBookingTransaction: the `INT` range of `available_seats` is not modelled. A cancel whose returned seats overflow the column would be rolled back with a 500; the model commits it. The same applies to Inventory.TravelDb.CancelBooking.
- The `created_at` timestamp is the `now` parameter. `DECIMAL` prices are `real`.
- Case mapping covers ASCII letters only. Python's and JavaScript's Unicode case rules are not modelled.
- Number parsing:
  - `parseFloat` on the price inputs is not modelled. The inputs have `type="number"`, so a field is either blank or holds a number; it is modelled as `Option<real>`. A filled-in "0" counts as a bound, as in the code. The filter code would apply `NaN` bounds (dropping every service) for non-numeric text. Such text cannot reach the handler through a number input, so the model does not represent it.
  - `parseInt` on the passenger count is not modelled. The count is an `int`.
  - `toFixed` price totals are not modelled.
- React rendering is not modelled. Effects run at once: the `[services, filter]` effect is folded into the handlers that change either field.
- Async ordering between overlapping requests is not modelled. Each reply is a separate event.
- `alert` is the returned notice of `BookingClick`.
- `console.error` logging and the logging calls of the mock API are not modelled.
- ServicesPage.ServicesView.SubmitBooking: the handler is modelled as written, so it runs even with a blank date. The browser's constraint validation that guards it (`required`, `min`, `max`) is modelled separately by `SubmitForm`. The passenger bound checks the count as an integer; the browser checks the text as entered.
- ServicesPage.ServicesView: the logged-in user is fixed for the lifetime of the page (`const user`). A login or logout while the page is open is not modelled.
- ServicesPage.ServicesView.SubmitBooking: a server `detail` that is not a string (such as FastAPI's validation error list) is not modelled.
- BookingsPage.BookingsView.CancelConfirm: same gap as SubmitBooking.
- BookingsPage.StatusBadge: a status equal to an `Object.prototype` key (such as "toString") is not modelled. The lookup would find an inherited member. The server only sends the three enum values.
- MockApi.Book: the background email task is returned as a value. It is never run.
- The static data tables are parameters:
  - `INDIAN_CITIES`;
  - `MOCK_DESTINATIONS`;
  - `MOCK_HOTELS`;
  - `MOCK_BUSES`;
  - the dashboard's `travelOptions`.
- The fixed `GET /bookings` mock of `python_backend/main.py` is not modelled. Neither are the favicon, static, health and 404 handlers.
- The polling timer of `src/pages/Menu.jsx` is not part of this model. Its behaviour is timing and effect cleanup.
- The other pages and components are not part of this model: `Search.jsx`, `Landing.jsx`, `Login.jsx`, `Register.jsx`, `static/app.js`, `Home.js`, `Navigation.js`, `Profile.js`, `App.js`, `Navbar.jsx`, `App.jsx`. They fetch and display, and their only logic is the `detail || fallback` rule in `Common.DetailOr`.
- The 500 detail text assumes Starlette's `HTTPException.__str__`, which renders `"<status>: <detail>"`.
