/** The rows of the TravelGo `services` and `bookings` tables. The backend
    returns them from its endpoints, and the React front end receives them
    as JSON. */
module Catalog {
  import opened Common

  datatype ServiceType = Bus | Hotel

  /** The `status` column; its values are created with `confirmed` and can only
      move on to `cancelled`. */
  datatype BookingStatus = Pending | Confirmed | Cancelled

  /** A row of `services`. `destination` is NULL for hotels. */
  datatype Service = Service(
    id: int,
    serviceType: ServiceType,
    name: string,
    location: string,
    destination: Option<string>,
    description: string,
    price: real,
    availableSeats: int,
    amenities: seq<string>)

  /** A row of `bookings`; `createdAt` is the server timestamp at insertion. */
  datatype Booking = Booking(
    id: int,
    userId: int,
    serviceId: int,
    bookingDate: string,
    passengers: int,
    status: BookingStatus,
    createdAt: int)

  /** The text the status is stored and sent as: one text per status, each
      different. */
  function StatusText(s: BookingStatus): (t: string)
    ensures s == Pending <==> t == "pending"
    ensures s == Confirmed <==> t == "confirmed"
    ensures s == Cancelled <==> t == "cancelled"
  {
    match s
    case Pending => "pending"
    case Confirmed => "confirmed"
    case Cancelled => "cancelled"
  }
}
