/** Client methods that replay situations from the integration tests against
    the model, the way a caller can reason from the contracts alone. */
module BookingScenarios {
  import opened Entities
  import opened Errors
  import opened BookingRepository
  import opened BookingService
  import opened BookingController

  /** An enrolled user with a paid, in-person ticket. */
  const Eligible := UserRecords(Some(Enrollment(1, 1)), Ok(Ticket(1, PAID, TicketType(1, false))))

  /** Posting for a user who already holds a booking creates a second row, and
      the answer is the previous id plus one (tests: "200 and bookingId"). */
  method RepeatedPostGetsNextId() returns (first: Booking, rs: seq<Response>, after: seq<Booking>)
    ensures rs == [Response(OK, Text(DecimalString(first.id + 1)))]
    ensures after == [first, Booking(first.id + 1, 1, 7)]
  {
    var table := new BookingTable([Room(7, "Suite", 2, 1)]);
    assert HasRoom(table.rooms, 7) by { assert table.rooms[0].id == 7; }
    first := table.CreateBookedRoom(7, 1);
    assert RoomFor(table.rooms, 7).capacity == 2;
    rs := PostBooking(table, Eligible, 1, Num(7));
    after := table.bookings;
  }

  /** A room of capacity 0 is accepted: the guard only rejects capacity 3. */
  method ZeroCapacityRoomIsBooked() returns (rs: seq<Response>)
    ensures rs == [Response(OK, Text("1"))]
  {
    var table := new BookingTable([Room(5, "Closet", 0, 1)]);
    assert HasRoom(table.rooms, 5) by { assert table.rooms[0].id == 5; }
    assert RoomFor(table.rooms, 5).capacity == 0;
    rs := PostBooking(table, Eligible, 1, Num(5));
  }

  /** The guard passes a room of capacity 0 on a change too; with the update
      this model supplies, the change answers 200. */
  method ZeroCapacityRoomIsChangedTo() returns (rs: seq<Response>)
    ensures rs == [SendStatus(OK)]
  {
    var table := new BookingTable([Room(5, "Closet", 0, 1)]);
    assert HasRoom(table.rooms, 5) by { assert table.rooms[0].id == 5; }
    var booked := table.CreateBookedRoom(5, 1);
    assert RoomFor(table.rooms, 5).capacity == 0;
    assert HasBooking(table.bookings, 1) by { assert table.bookings[0].userId == 1; }
    assert table.bookings[0].id == 1;
    rs := UpdateBooking(table, Eligible, 1, Num(1), Num(5));
  }

  /** A user who holds a booking may repoint somebody else's booking by
      naming its id: the update does not check the owner. */
  method ChangeMovesAnotherUsersBooking() returns (rs: seq<Response>, after: seq<Booking>)
    ensures rs == [SendStatus(OK)]
    ensures after == [Booking(1, 1, 7), Booking(2, 2, 8)]
  {
    var table := new BookingTable([Room(7, "Suite", 2, 1), Room(8, "Annex", 2, 1)]);
    assert HasRoom(table.rooms, 7) by { assert table.rooms[0].id == 7; }
    assert HasRoom(table.rooms, 8) by { assert table.rooms[1].id == 8; }
    var mine := table.CreateBookedRoom(7, 1);
    var theirs := table.CreateBookedRoom(7, 2);
    assert RoomFor(table.rooms, 8).capacity == 2;
    assert HasBooking(table.bookings, 1) by { assert table.bookings[0].userId == 1; }
    assert table.bookings[1].id == 2;
    rs := UpdateBooking(table, Eligible, 1, Num(2), Num(8));
    after := table.bookings;
  }

  /** A NaN room id in a change request is answered 400; a user without an
      enrollment then also gets the 401 of the service call that follows. */
  method ChangeWithNaNSendsTwice() returns (rs: seq<Response>)
    ensures rs == [SendStatus(BAD_REQUEST), SendStatus(UNAUTHORIZED)]
  {
    var table := new BookingTable([Room(7, "Suite", 2, 1)]);
    var unenrolled := UserRecords(None, Err(NotFound));
    rs := UpdateBooking(table, unenrolled, 1, Num(1), NaN);
  }

  /** Two posts through the handler answer consecutive ids, "1" then "2". */
  method TwoPostsGetConsecutiveIds() returns (first: seq<Response>, second: seq<Response>)
    ensures first == [Response(OK, Text("1"))]
    ensures second == [Response(OK, Text("2"))]
  {
    var table := new BookingTable([Room(7, "Suite", 2, 1)]);
    assert HasRoom(table.rooms, 7) by { assert table.rooms[0].id == 7; }
    assert RoomFor(table.rooms, 7).capacity == 2;
    first := PostBooking(table, Eligible, 1, Num(7));
    second := PostBooking(table, Eligible, 1, Num(7));
  }

  /** A NaN booking id is answered 400; the service call that follows still
      looks up the room, and a missing room then adds the 404. */
  method ChangeWithNaNIdToMissingRoom() returns (rs: seq<Response>)
    ensures rs == [SendStatus(BAD_REQUEST), SendStatus(NOT_FOUND)]
  {
    var table := new BookingTable([Room(7, "Suite", 2, 1)]);
    assert HasRoom(table.rooms, 7) by { assert table.rooms[0].id == 7; }
    var booked := table.CreateBookedRoom(7, 1);
    assert HasBooking(table.bookings, 1) by { assert table.bookings[0].userId == 1; }
    rs := UpdateBooking(table, Eligible, 1, NaN, Num(9));
  }
}
