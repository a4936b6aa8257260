/** The booking controller: per handler, the input validation, the call into
    the booking service and the translation of its outcome into the responses
    the handler sends. A handler's responses are a sequence in the order they
    are sent: empty when an error name is not recognised (nothing is sent),
    and one or two long when `updateBooking` sends a 400 and carries on (two
    when the service call that follows fails with a recognised error). */
module BookingController {
  import opened Entities
  import opened Errors
  import opened BookingRepository
  import opened BookingService

  const OK := 200
  const BAD_REQUEST := 400
  const UNAUTHORIZED := 401
  const FORBIDDEN := 403
  const NOT_FOUND := 404

  /** A request field after JavaScript's numeric conversion. */
  datatype Param = NaN | Num(value: int)

  /** What a response carries: the status's own text (`sendStatus`), the
      `{ id, Rooms }` object of `getBooking`, or a text body. */
  datatype Body = StatusText | BookingView(id: nat, rooms: Room) | Text(text: string)

  datatype Response = Response(status: int, body: Body)

  /** `res.sendStatus(code)`. */
  function SendStatus(code: int): Response
  {
    Response(code, StatusText)
  }

  // ---------------------------------------------------------------------------
  // Error names to statuses

  predicate KnownErrorName(name: string)
  {
    name == Unauthorized.name || name == Forbidden.name || name == NotFound.name
  }

  /** The error name an error status stands for. */
  function ErrorNameOf(status: int): string
  {
    if status == UNAUTHORIZED then Unauthorized.name
    else if status == FORBIDDEN then Forbidden.name
    else if status == NOT_FOUND then NotFound.name
    else ""
  }

  /** The catch block of every handler. The three handlers test the names in
      different orders, which cannot matter since the names are distinct. An
      unrecognised name falls out of the block and nothing is sent. */
  function ErrorReply(e: AppError): (r: seq<Response>)
    ensures e == Unauthorized ==> r == [SendStatus(UNAUTHORIZED)]
    ensures e == Forbidden ==> r == [SendStatus(FORBIDDEN)]
    ensures e == NotFound ==> r == [SendStatus(NOT_FOUND)]
    ensures r == [] <==> !KnownErrorName(e.name)
    ensures r != [] ==> |r| == 1 && r[0].body == StatusText && ErrorNameOf(r[0].status) == e.name
  {
    if e.name == Unauthorized.name then [SendStatus(UNAUTHORIZED)]
    else if e.name == Forbidden.name then [SendStatus(FORBIDDEN)]
    else if e.name == NotFound.name then [SendStatus(NOT_FOUND)]
    else []
  }

  // ---------------------------------------------------------------------------
  // Decimal text of a booking id

  function Digit(d: nat): (c: char)
    requires d < 10
    ensures '0' <= c <= '9' && c as int - '0' as int == d
  {
    ('0' as int + d) as char
  }

  predicate IsDigits(s: string)
  {
    forall i | 0 <= i < |s| :: '0' <= s[i] <= '9'
  }

  /** `n.toString()` for a non-negative integer: decimal digits, no leading zero. */
  function DecimalString(n: nat): (s: string)
    ensures |s| >= 1 && IsDigits(s)
    ensures s[0] == '0' <==> n == 0
    ensures n == 0 ==> s == "0"
  {
    if n < 10 then [Digit(n)] else DecimalString(n / 10) + [Digit(n % 10)]
  }

  /** The number a string of decimal digits denotes. */
  function ParseDecimal(s: string): nat
    requires IsDigits(s)
  {
    if s == [] then 0
    else ParseDecimal(s[..|s| - 1]) * 10 + (s[|s| - 1] as int - '0' as int)
  }

  lemma {:induction false} DecimalRoundTrip(n: nat)
    ensures ParseDecimal(DecimalString(n)) == n
  {
    if n >= 10 {
      DecimalRoundTrip(n / 10);
      var s := DecimalString(n / 10);
      assert (s + [Digit(n % 10)])[..|s|] == s;
    }
  }

  // ---------------------------------------------------------------------------
  // Replies to a service outcome

  /** `getBooking` after the service returned: 200 with `{ id, Rooms }`, or the
      error's status. */
  function GetBookingReply(outcome: Result<BookedRoom>): (r: seq<Response>)
    ensures |r| <= 1
    ensures (r != [] && r[0].status == OK) <==> outcome.Ok?
    ensures outcome.Ok? ==> r[0].body == BookingView(outcome.value.booking.id, outcome.value.room)
    ensures outcome.Err? ==> r == ErrorReply(outcome.error)
  {
    match outcome
    case Ok(found) => [Response(OK, BookingView(found.booking.id, found.room))]
    case Err(e) => ErrorReply(e)
  }

  /** `postBooking` after the service returned: 200 with the new id as text,
      or the error's status. */
  function PostBookingReply(outcome: Result<Booking>): (r: seq<Response>)
    ensures |r| <= 1
    ensures (r != [] && r[0].status == OK) <==> outcome.Ok?
    ensures outcome.Ok? ==>
      r[0].body.Text? && IsDigits(r[0].body.text) && ParseDecimal(r[0].body.text) == outcome.value.id
    ensures outcome.Err? ==> r == ErrorReply(outcome.error)
  {
    match outcome
    case Ok(booked) =>
      DecimalRoundTrip(booked.id);
      [Response(OK, Text(DecimalString(booked.id)))]
    case Err(e) => ErrorReply(e)
  }

  /** `updateBooking`: a NaN id sends 400 without returning, so the service's
      outcome is answered as well, after the 400. */
  function UpdateBookingReply(bookingId: Param, roomId: Param, outcome: Result<Booking>): (r: seq<Response>)
    ensures (bookingId.NaN? || roomId.NaN?) <==> (r != [] && r[0] == SendStatus(BAD_REQUEST))
    ensures |r| == (if bookingId.NaN? || roomId.NaN? then 1 else 0)
                 + (if outcome.Ok? then 1 else |ErrorReply(outcome.error)|)
    ensures outcome.Ok? ==> r[|r| - 1] == SendStatus(OK)
    ensures outcome.Err? ==> r[|r| - |ErrorReply(outcome.error)|..] == ErrorReply(outcome.error)
  {
    var invalid := if bookingId.NaN? || roomId.NaN? then [SendStatus(BAD_REQUEST)] else [];
    match outcome
    case Ok(_) => invalid + [SendStatus(OK)]
    case Err(e) => invalid + ErrorReply(e)
  }

  /** What `updateBooking` sends when an id is NaN: the 400, then the answer to
      the first failing check of the service call that still follows. With only
      the booking id NaN, the whole chain of checks runs on real values; with a
      NaN room id, the gate and the "user has a booking" check are followed.
      Where every followed check passes, only the 400 is sent. */
  function NaNIdReplies(user: UserRecords, rooms: seq<Room>, bookings: seq<Booking>, userId: int, roomId: Param)
    : (r: seq<Response>)
    requires RoomsResolve(rooms, bookings)
    ensures |r| >= 1 && r[0] == SendStatus(BAD_REQUEST)
    ensures roomId.Num? && ChangeBookingChecks(user, rooms, bookings, userId, roomId.value).Fail? ==>
      r == UpdateBookingReply(NaN, roomId, Err(ChangeBookingChecks(user, rooms, bookings, userId, roomId.value).error))
    ensures roomId.Num? && ChangeBookingChecks(user, rooms, bookings, userId, roomId.value).Pass? ==>
      r == [SendStatus(BAD_REQUEST)]
    ensures roomId.NaN? && GetBookingByUserId(user, rooms, bookings, userId).Err? ==>
      r == UpdateBookingReply(NaN, NaN, Err(GetBookingByUserId(user, rooms, bookings, userId).error))
    ensures roomId.NaN? && GetBookingByUserId(user, rooms, bookings, userId).Ok? ==>
      r == [SendStatus(BAD_REQUEST)]
  {
    var followed := match roomId
      case Num(idRoom) => ChangeBookingChecks(user, rooms, bookings, userId, idRoom)
      case NaN => match GetBookingByUserId(user, rooms, bookings, userId)
        case Ok(_) => Pass
        case Err(e) => Fail(e);
    match followed
    case Pass => [SendStatus(BAD_REQUEST)]
    case Fail(e) => [SendStatus(BAD_REQUEST)] + ErrorReply(e)
  }

  // ---------------------------------------------------------------------------
  // Handlers

  /** `getBooking`: reads only. */
  method GetBooking(table: BookingTable, user: UserRecords, userId: int) returns (rs: seq<Response>)
    requires table.Valid()
    ensures user.enrollment.None? ==> rs == [SendStatus(UNAUTHORIZED)]
    ensures user.enrollment.Some? && user.ticket.Ok? && !MayBook(user) ==> rs == [SendStatus(FORBIDDEN)]
    ensures user.enrollment.Some? && user.ticket.Err? ==> rs == ErrorReply(user.ticket.error)
    ensures MayBook(user) && !HasBooking(table.bookings, userId) ==> rs == [SendStatus(NOT_FOUND)]
    ensures MayBook(user) && HasBooking(table.bookings, userId) ==>
      && |rs| == 1 && rs[0].status == OK && rs[0].body.BookingView?
      && (exists k :: IsFirstOfUser(table.bookings, userId, k) && rs[0].body.id == table.bookings[k].id
                      && rs[0].body.rooms == RoomFor(table.rooms, table.bookings[k].roomId))
  {
    var booking := GetBookingByUserId(user, table.rooms, table.bookings, userId);
    rs := GetBookingReply(booking);
  }

  /** `postBooking`: a NaN room id is answered 400 before the service is
      called, so nothing is checked or written; otherwise the service's
      outcome is answered. */
  method PostBooking(table: BookingTable, user: UserRecords, userId: int, roomId: Param) returns (rs: seq<Response>)
    requires table.Valid()
    modifies table
    ensures table.Valid()
    ensures roomId.NaN? ==>
      && rs == [SendStatus(BAD_REQUEST)]
      && table.bookings == old(table.bookings) && table.nextId == old(table.nextId)
    ensures roomId.Num? && BookingChecks(user, table.rooms, old(table.bookings), roomId.value).Fail? ==>
      && rs == ErrorReply(BookingChecks(user, table.rooms, old(table.bookings), roomId.value).error)
      && table.bookings == old(table.bookings) && table.nextId == old(table.nextId)
    ensures roomId.Num? && BookingChecks(user, table.rooms, old(table.bookings), roomId.value).Pass? ==>
      && rs == [Response(OK, Text(DecimalString(old(table.nextId))))]
      && table.bookings == old(table.bookings) + [Booking(old(table.nextId), userId, roomId.value)]
      && table.nextId == old(table.nextId) + 1
  {
    if roomId.NaN? {
      return [SendStatus(BAD_REQUEST)];
    }
    var booked := BookSelectedRoom(table, user, userId, roomId.value);
    rs := PostBookingReply(booked);
  }

  /** `updateBooking` with two numeric ids: the service's outcome is answered;
      a missing booking id is an error no handler recognises, so nothing is sent. */
  method UpdateWithIds(table: BookingTable, user: UserRecords, userId: int, idBooking: int, idRoom: int)
    returns (rs: seq<Response>)
    requires table.Valid()
    modifies table
    ensures table.Valid() && table.nextId == old(table.nextId)
    ensures ChangeBookingChecks(user, table.rooms, old(table.bookings), userId, idRoom).Fail? ==>
      && rs == ErrorReply(ChangeBookingChecks(user, table.rooms, old(table.bookings), userId, idRoom).error)
      && table.bookings == old(table.bookings)
    ensures ChangeBookingChecks(user, table.rooms, old(table.bookings), userId, idRoom).Pass? ==>
      && (rs == [SendStatus(OK)] <==> exists i | 0 <= i < |old(table.bookings)| :: old(table.bookings)[i].id == idBooking)
      && (rs != [SendStatus(OK)] ==> rs == [] && table.bookings == old(table.bookings))
    ensures rs == [SendStatus(OK)] ==>
      exists k | 0 <= k < |old(table.bookings)| ::
        && old(table.bookings)[k].id == idBooking
        && table.bookings == Repointed(old(table.bookings), k, idRoom)
  {
    var update := ChangeBooking(table, user, userId, idRoom, idBooking);
    rs := UpdateBookingReply(Num(idBooking), Num(idRoom), update);
  }

  /** `updateBooking`. With numeric ids, see `UpdateWithIds`. With a NaN id,
      400 is sent, the service still runs, and a failure of its checks is
      answered after the 400 (`NaNIdReplies`). The model stops where a NaN id
      would reach the room lookup or the update, so the table is unchanged. */
  method UpdateBooking(table: BookingTable, user: UserRecords, userId: int, bookingId: Param, roomId: Param)
    returns (rs: seq<Response>)
    requires table.Valid()
    modifies table
    ensures table.Valid() && table.nextId == old(table.nextId)
    ensures bookingId.NaN? || roomId.NaN? ==>
      rs == NaNIdReplies(user, table.rooms, table.bookings, userId, roomId) && table.bookings == old(table.bookings)
    ensures bookingId.Num? && roomId.Num? &&
            ChangeBookingChecks(user, table.rooms, old(table.bookings), userId, roomId.value).Fail? ==>
      && rs == ErrorReply(ChangeBookingChecks(user, table.rooms, old(table.bookings), userId, roomId.value).error)
      && table.bookings == old(table.bookings)
    ensures bookingId.Num? && roomId.Num? &&
            ChangeBookingChecks(user, table.rooms, old(table.bookings), userId, roomId.value).Pass? ==>
      && (rs == [SendStatus(OK)] <==> exists i | 0 <= i < |old(table.bookings)| :: old(table.bookings)[i].id == bookingId.value)
      && (rs != [SendStatus(OK)] ==> rs == [] && table.bookings == old(table.bookings))
    ensures rs == [SendStatus(OK)] ==>
      && bookingId.Num? && roomId.Num?
      && exists k | 0 <= k < |old(table.bookings)| ::
           && old(table.bookings)[k].id == bookingId.value
           && table.bookings == Repointed(old(table.bookings), k, roomId.value)
  {
    if bookingId.Num? && roomId.Num? {
      rs := UpdateWithIds(table, user, userId, bookingId.value, roomId.value);
    } else {
      rs := NaNIdReplies(user, table.rooms, table.bookings, userId, roomId);
    }
  }
}
