/** The rows the booking core reads and writes, shaped as the database schema
    of the application has them (timestamps left out). */
module Entities {

  datatype Option<+T> = None | Some(value: T)

  /** A row of the Booking table. Ids come from an auto-increment sequence. */
  datatype Booking = Booking(id: nat, userId: int, roomId: int)

  /** A row of the Room table. `capacity` is a plain integer column. */
  datatype Room = Room(id: int, name: string, capacity: int, hotelId: int)

  /** A booking together with its Room, as `findBooking` includes it. */
  datatype BookedRoom = BookedRoom(booking: Booking, room: Room)

  /** A room together with the bookings that reference it, as `findRoom` includes them. */
  datatype RoomWithBookings = RoomWithBookings(room: Room, bookings: seq<Booking>)

  /** An enrollment record; only its existence matters to the booking core. */
  datatype Enrollment = Enrollment(id: int, userId: int)

  datatype TicketStatus = RESERVED | PAID

  datatype TicketType = TicketType(id: int, isRemote: bool)

  datatype Ticket = Ticket(id: int, status: TicketStatus, ticketType: TicketType)
}
