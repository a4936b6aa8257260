/** The booking service: an eligibility gate on the user's enrollment and
    ticket, a guard on the target room, and the three operations that chain
    them before reading or writing the Booking table. */
module BookingService {
  import opened Entities
  import opened Errors
  import opened BookingRepository

  /** What the enrollment repository and the ticket service answer for the user
      at hand. The ticket lookup is a call that may itself throw; its error is
      kept as it is. */
  datatype UserRecords = UserRecords(enrollment: Option<Enrollment>, ticket: Result<Ticket>)

  /** A booking is open to an enrolled user holding a paid, in-person ticket. */
  ghost predicate MayBook(user: UserRecords)
  {
    && user.enrollment.Some?
    && user.ticket.Ok?
    && !user.ticket.value.ticketType.isRemote
    && user.ticket.value.status == PAID
  }

  /** The user owns at least one row of the Booking table. */
  ghost predicate HasBooking(bookings: seq<Booking>, idUser: int)
  {
    exists i | 0 <= i < |bookings| :: bookings[i].userId == idUser
  }

  // ---------------------------------------------------------------------------
  // Checks

  /** `checkEnrollmentAndTicket`: no enrollment is Unauthorized and the ticket
      is then not looked at; a remote or RESERVED ticket is Forbidden; a failing
      ticket lookup passes its own error on. */
  function CheckEnrollmentAndTicket(user: UserRecords): (r: Outcome)
    ensures r.Pass? <==> MayBook(user)
    ensures user.enrollment.None? ==> r == Fail(Unauthorized)
    ensures user.enrollment.Some? && user.ticket.Err? ==> r == Fail(user.ticket.error)
    ensures user.enrollment.Some? && user.ticket.Ok? && r.Fail? ==> r.error == Forbidden
  {
    if user.enrollment.None? then Fail(Unauthorized)
    else match user.ticket
      case Err(e) => Fail(e)
      case Ok(ticket) =>
        if ticket.ticketType.isRemote || ticket.status == RESERVED then Fail(Forbidden)
        else Pass
  }

  /** `checkBookingByRoomIdAndRoomCapacity`: a missing room is NotFound; a room
      whose capacity column equals 3 is Forbidden; every other room passes. The
      bookings that reference the room are fetched but never counted. */
  function CheckBookingByRoomIdAndRoomCapacity(rooms: seq<Room>, bookings: seq<Booking>, idRoom: int): (r: Outcome)
    ensures r.Fail? <==> !HasRoom(rooms, idRoom) || RoomFor(rooms, idRoom).capacity == 3
    ensures !HasRoom(rooms, idRoom) ==> r == Fail(NotFound)
    ensures HasRoom(rooms, idRoom) && r.Fail? ==> r.error == Forbidden
  {
    match FindRoom(rooms, bookings, idRoom)
    case None => Fail(NotFound)
    case Some(found) => if found.room.capacity == 3 then Fail(Forbidden) else Pass
  }

  /** However many bookings reference it, a room whose capacity is not 3 passes
      the guard, even one with capacity 0 or already over capacity. */
  lemma GuardIgnoresOccupancy(rooms: seq<Room>, bookings: seq<Booking>, idRoom: int)
    requires HasRoom(rooms, idRoom) && RoomFor(rooms, idRoom).capacity != 3
    requires |BookingsOfRoom(bookings, idRoom)| >= RoomFor(rooms, idRoom).capacity
    ensures CheckBookingByRoomIdAndRoomCapacity(rooms, bookings, idRoom) == Pass
  {
  }

  // ---------------------------------------------------------------------------
  // Operations

  /** `getBookingByuserId`: the gate, then the user's first booking with its
      room, or NotFound. Reads only. */
  function GetBookingByUserId(user: UserRecords, rooms: seq<Room>, bookings: seq<Booking>, idUser: int): (r: Result<BookedRoom>)
    requires RoomsResolve(rooms, bookings)
    ensures CheckEnrollmentAndTicket(user).Fail? ==> r == Err(CheckEnrollmentAndTicket(user).error)
    ensures MayBook(user) ==> (r.Ok? <==> HasBooking(bookings, idUser))
    ensures MayBook(user) && r.Err? ==> r.error == NotFound
    ensures r.Ok? ==>
      && r.value.booking.userId == idUser
      && (exists k :: IsFirstOfUser(bookings, idUser, k) && r.value.booking == bookings[k])
      && r.value.room in rooms && r.value.room.id == r.value.booking.roomId
  {
    var gate := CheckEnrollmentAndTicket(user);
    if gate.Fail? then Err(gate.error)
    else match FindBooking(rooms, bookings, idUser)
      case None => Err(NotFound)
      case Some(found) => Ok(found)
  }

  /** The checks `bookSelectedRoom` runs before it writes, in source order:
      the eligibility gate, then the room guard. The first failure is the
      operation's error. */
  function BookingChecks(user: UserRecords, rooms: seq<Room>, bookings: seq<Booking>, idRoom: int): (r: Outcome)
    ensures r.Pass? <==> MayBook(user) && HasRoom(rooms, idRoom) && RoomFor(rooms, idRoom).capacity != 3
    ensures !MayBook(user) ==> r == CheckEnrollmentAndTicket(user)
    ensures MayBook(user) ==> r == CheckBookingByRoomIdAndRoomCapacity(rooms, bookings, idRoom)
  {
    var gate := CheckEnrollmentAndTicket(user);
    if gate.Fail? then gate else CheckBookingByRoomIdAndRoomCapacity(rooms, bookings, idRoom)
  }

  /** The checks `changeBooking` runs before it writes, in source order: the
      gate, "the user has some booking" (through `getBookingByuserId`, which
      runs the gate once more), then the room guard. */
  function ChangeBookingChecks(user: UserRecords, rooms: seq<Room>, bookings: seq<Booking>, idUser: int, idRoom: int): (r: Outcome)
    requires RoomsResolve(rooms, bookings)
    ensures r.Pass? <==>
      MayBook(user) && HasBooking(bookings, idUser) && HasRoom(rooms, idRoom) && RoomFor(rooms, idRoom).capacity != 3
    ensures !MayBook(user) ==> r == CheckEnrollmentAndTicket(user)
    ensures MayBook(user) && !HasBooking(bookings, idUser) ==> r == Fail(NotFound)
    ensures MayBook(user) && HasBooking(bookings, idUser) ==> r == CheckBookingByRoomIdAndRoomCapacity(rooms, bookings, idRoom)
  {
    var gate := CheckEnrollmentAndTicket(user);
    if gate.Fail? then gate
    else match GetBookingByUserId(user, rooms, bookings, idUser)
      case Err(e) => Fail(e)
      case Ok(_) => CheckBookingByRoomIdAndRoomCapacity(rooms, bookings, idRoom)
  }

  /** `bookSelectedRoom`: gate, then room guard, then one insert. On a failed
      check nothing is written; on success exactly one row (idUser, idRoom) is
      appended with the next id, even when the user already has a booking. */
  method BookSelectedRoom(table: BookingTable, user: UserRecords, idUser: int, idRoom: int) returns (r: Result<Booking>)
    requires table.Valid()
    modifies table
    ensures table.Valid()
    ensures BookingChecks(user, table.rooms, old(table.bookings), idRoom).Fail? ==>
      && r == Err(BookingChecks(user, table.rooms, old(table.bookings), idRoom).error)
      && table.bookings == old(table.bookings) && table.nextId == old(table.nextId)
    ensures BookingChecks(user, table.rooms, old(table.bookings), idRoom).Pass? ==>
      && r == Ok(Booking(old(table.nextId), idUser, idRoom))
      && table.bookings == old(table.bookings) + [r.value]
      && table.nextId == old(table.nextId) + 1
  {
    var gate := CheckEnrollmentAndTicket(user);
    if gate.Fail? {
      return Err(gate.error);
    }
    var guard := CheckBookingByRoomIdAndRoomCapacity(table.rooms, table.bookings, idRoom);
    if guard.Fail? {
      return Err(guard.error);
    }
    var booked := table.CreateBookedRoom(idRoom, idUser);
    r := Ok(booked);
  }

  /** `changeBooking`: the checks, then the update of the row whose id is
      `idBooking`. That row need not belong to `idUser`. Any failure leaves the
      table as it was. */
  method ChangeBooking(table: BookingTable, user: UserRecords, idUser: int, idRoom: int, idBooking: int) returns (r: Result<Booking>)
    requires table.Valid()
    modifies table
    ensures table.Valid() && table.nextId == old(table.nextId)
    ensures ChangeBookingChecks(user, table.rooms, old(table.bookings), idUser, idRoom).Fail? ==>
      && r == Err(ChangeBookingChecks(user, table.rooms, old(table.bookings), idUser, idRoom).error)
      && table.bookings == old(table.bookings)
    ensures ChangeBookingChecks(user, table.rooms, old(table.bookings), idUser, idRoom).Pass? ==>
      (r.Err? <==> forall i | 0 <= i < |old(table.bookings)| :: old(table.bookings)[i].id != idBooking)
    ensures r.Err? ==> table.bookings == old(table.bookings)
    ensures r.Ok? ==> exists k | 0 <= k < |old(table.bookings)| ::
      && old(table.bookings)[k].id == idBooking
      && table.bookings == Repointed(old(table.bookings), k, idRoom)
      && r.value == table.bookings[k]
    ensures r.Err? && ChangeBookingChecks(user, table.rooms, old(table.bookings), idUser, idRoom).Pass? ==>
      r.error == RecordToUpdateNotFound
  {
    var gate := CheckEnrollmentAndTicket(user);
    if gate.Fail? {
      return Err(gate.error);
    }
    var current := GetBookingByUserId(user, table.rooms, table.bookings, idUser);
    if current.Err? {
      return Err(current.error);
    }
    var guard := CheckBookingByRoomIdAndRoomCapacity(table.rooms, table.bookings, idRoom);
    if guard.Fail? {
      return Err(guard.error);
    }
    r := table.UpdateBooking(idRoom, idBooking);
  }

  /** Every error the checks raise themselves has a name the controllers
      recognise; only an error passed on from the ticket lookup may not. */
  lemma ChecksRaiseKnownNames(user: UserRecords, rooms: seq<Room>, bookings: seq<Booking>, idUser: int, idRoom: int)
    requires RoomsResolve(rooms, bookings)
    requires user.enrollment.Some? && user.ticket.Err? ==> user.ticket.error in {Unauthorized, Forbidden, NotFound}
    ensures BookingChecks(user, rooms, bookings, idRoom).Fail? ==>
      BookingChecks(user, rooms, bookings, idRoom).error in {Unauthorized, Forbidden, NotFound}
    ensures ChangeBookingChecks(user, rooms, bookings, idUser, idRoom).Fail? ==>
      ChangeBookingChecks(user, rooms, bookings, idUser, idRoom).error in {Unauthorized, Forbidden, NotFound}
  {
  }

  // ---------------------------------------------------------------------------
  // What a later read sees

  /** Creating a booking for a user without one, then reading it back, yields
      the new row in the chosen room. */
  lemma {:induction false} BookThenGet(user: UserRecords, rooms: seq<Room>, bookings: seq<Booking>, b: Booking)
    requires RoomsResolve(rooms, bookings) && MayBook(user)
    requires CheckBookingByRoomIdAndRoomCapacity(rooms, bookings, b.roomId).Pass?
    requires !HasBooking(bookings, b.userId)
    ensures RoomsResolve(rooms, bookings + [b])
    ensures GetBookingByUserId(user, rooms, bookings + [b], b.userId) == Ok(BookedRoom(b, RoomFor(rooms, b.roomId)))
  {
    FindBookingAfterAppend(rooms, bookings, b, b.userId);
  }

  /** Booking again for a user who already has a booking leaves the read
      unchanged: the read still returns the first row, not the new one. */
  lemma {:induction false} SecondBookingIsHidden(user: UserRecords, rooms: seq<Room>, bookings: seq<Booking>, b: Booking)
    requires RoomsResolve(rooms, bookings) && HasRoom(rooms, b.roomId)
    requires HasBooking(bookings, b.userId)
    ensures RoomsResolve(rooms, bookings + [b])
    ensures GetBookingByUserId(user, rooms, bookings + [b], b.userId) == GetBookingByUserId(user, rooms, bookings, b.userId)
  {
    FindBookingAfterAppend(rooms, bookings, b, b.userId);
  }

  /** Changing the booking the user currently holds, then reading it back,
      yields the same booking id in the new room. */
  lemma ChangeThenGet(user: UserRecords, rooms: seq<Room>, bookings: seq<Booking>, idUser: int, k: nat, idRoom: int)
    requires RoomsResolve(rooms, bookings) && UniqueIds(bookings) && HasRoom(rooms, idRoom) && MayBook(user)
    requires IsFirstOfUser(bookings, idUser, k)
    ensures RoomsResolve(rooms, Repointed(bookings, k, idRoom))
    ensures GetBookingByUserId(user, rooms, Repointed(bookings, k, idRoom), idUser)
      == Ok(BookedRoom(Booking(bookings[k].id, idUser, idRoom), RoomFor(rooms, idRoom)))
  {
  }
}
