/** The booking repository: the Booking table the service writes, the Room
    table it reads, and the three queries the repository exports, plus the
    update by id that the service calls but the repository does not define.
    Every query is a first-match search in table order. */
module BookingRepository {
  import opened Entities
  import opened Errors

  // ---------------------------------------------------------------------------
  // First-match searches

  /** `k` is the position of the first row that belongs to user `u`. */
  ghost predicate IsFirstOfUser(bookings: seq<Booking>, u: int, k: int)
  {
    0 <= k < |bookings| && bookings[k].userId == u &&
    forall j | 0 <= j < k :: bookings[j].userId != u
  }

  function FirstOfUser(bookings: seq<Booking>, u: int): (r: Option<nat>)
    ensures r.None? <==> forall i | 0 <= i < |bookings| :: bookings[i].userId != u
    ensures r.Some? ==> IsFirstOfUser(bookings, u, r.value)
  {
    if bookings == [] then None
    else if bookings[0].userId == u then Some(0)
    else match FirstOfUser(bookings[1..], u)
      case None => None
      case Some(k) => Some(k + 1)
  }

  /** `k` is the position of the first room whose id is `id`. */
  ghost predicate IsFirstRoom(rooms: seq<Room>, id: int, k: int)
  {
    0 <= k < |rooms| && rooms[k].id == id &&
    forall j | 0 <= j < k :: rooms[j].id != id
  }

  ghost predicate HasRoom(rooms: seq<Room>, id: int)
  {
    exists k | 0 <= k < |rooms| :: rooms[k].id == id
  }

  function FirstRoom(rooms: seq<Room>, id: int): (r: Option<nat>)
    ensures r.None? <==> !HasRoom(rooms, id)
    ensures r.Some? ==> IsFirstRoom(rooms, id, r.value)
  {
    if rooms == [] then None
    else if rooms[0].id == id then Some(0)
    else match FirstRoom(rooms[1..], id)
      case None => None
      case Some(k) => Some(k + 1)
  }

  /** Position of the row whose booking id is `id`. */
  function FirstWithId(bookings: seq<Booking>, id: int): (r: Option<nat>)
    ensures r.None? <==> forall i | 0 <= i < |bookings| :: bookings[i].id != id
    ensures r.Some? ==> r.value < |bookings| && bookings[r.value].id == id
  {
    if bookings == [] then None
    else if bookings[0].id == id then Some(0)
    else match FirstWithId(bookings[1..], id)
      case None => None
      case Some(k) => Some(k + 1)
  }

  /** The room a booking's foreign key points at. */
  function RoomFor(rooms: seq<Room>, id: int): (room: Room)
    requires HasRoom(rooms, id)
    ensures room in rooms && room.id == id
  {
    rooms[FirstRoom(rooms, id).value]
  }

  // ---------------------------------------------------------------------------
  // Table invariants

  /** Every booking's roomId refers to an existing room (the foreign key). */
  ghost predicate RoomsResolve(rooms: seq<Room>, bookings: seq<Booking>)
  {
    forall i | 0 <= i < |bookings| :: HasRoom(rooms, bookings[i].roomId)
  }

  /** Booking ids are a primary key. */
  ghost predicate UniqueIds(bookings: seq<Booking>)
  {
    forall i, j | 0 <= i < j < |bookings| :: bookings[i].id != bookings[j].id
  }

  /** The state of the tables: foreign keys resolve, ids are unique, and every
      id was drawn from the auto-increment sequence below `nextId`. */
  ghost predicate TableInvariant(rooms: seq<Room>, bookings: seq<Booking>, nextId: nat)
  {
    && 1 <= nextId
    && RoomsResolve(rooms, bookings)
    && UniqueIds(bookings)
    && forall i | 0 <= i < |bookings| :: 1 <= bookings[i].id < nextId
  }

  // ---------------------------------------------------------------------------
  // Queries

  /** `findBooking(idUser)`: the first booking of the user, with its Room. */
  function FindBooking(rooms: seq<Room>, bookings: seq<Booking>, idUser: int): (r: Option<BookedRoom>)
    requires RoomsResolve(rooms, bookings)
    ensures r.None? <==> forall i | 0 <= i < |bookings| :: bookings[i].userId != idUser
    ensures r.Some? ==> exists k :: IsFirstOfUser(bookings, idUser, k) && r.value.booking == bookings[k]
    ensures r.Some? ==> r.value.room in rooms && r.value.room.id == r.value.booking.roomId
  {
    match FirstOfUser(bookings, idUser)
    case None => None
    case Some(k) => Some(BookedRoom(bookings[k], RoomFor(rooms, bookings[k].roomId)))
  }

  /** The bookings that reference room `idRoom`, in table order: every matching
      row as often as it occurs, and nothing else. */
  function BookingsOfRoom(bookings: seq<Booking>, idRoom: int): (s: seq<Booking>)
    ensures |s| <= |bookings|
    ensures forall b :: b in s <==> b in bookings && b.roomId == idRoom
    ensures forall b :: multiset(s)[b] == if b.roomId == idRoom then multiset(bookings)[b] else 0
  {
    if bookings == [] then []
    else
      assert bookings == [bookings[0]] + bookings[1..];
      if bookings[0].roomId == idRoom then [bookings[0]] + BookingsOfRoom(bookings[1..], idRoom)
      else BookingsOfRoom(bookings[1..], idRoom)
  }

  /** `findRoom(idRoom)`: the room with that id, with every booking that references it. */
  function FindRoom(rooms: seq<Room>, bookings: seq<Booking>, idRoom: int): (r: Option<RoomWithBookings>)
    ensures r.None? <==> !HasRoom(rooms, idRoom)
    ensures r.Some? ==> exists k :: IsFirstRoom(rooms, idRoom, k) && r.value.room == rooms[k]
    ensures r.Some? ==> forall b :: b in r.value.bookings <==> b in bookings && b.roomId == idRoom
  {
    match FirstRoom(rooms, idRoom)
    case None => None
    case Some(k) => Some(RoomWithBookings(rooms[k], BookingsOfRoom(bookings, idRoom)))
  }

  /** The table after row `k` is pointed at room `idRoom`. */
  function Repointed(bookings: seq<Booking>, k: nat, idRoom: int): (after: seq<Booking>)
    requires k < |bookings|
    ensures |after| == |bookings| && after[k].roomId == idRoom
    ensures forall i | 0 <= i < |after| :: after[i].id == bookings[i].id && after[i].userId == bookings[i].userId
    ensures forall i | 0 <= i < |after| && i != k :: after[i] == bookings[i]
  {
    bookings[k := bookings[k].(roomId := idRoom)]
  }

  // ---------------------------------------------------------------------------
  // What the queries see after a write

  lemma FirstOfUserUnique(bookings: seq<Booking>, u: int, k: int, k': int)
    requires IsFirstOfUser(bookings, u, k) && IsFirstOfUser(bookings, u, k')
    ensures k == k'
  {
  }

  /** An appended row is invisible to `findBooking` for a user who already had
      a row: the first match is still the old one. */
  lemma FindBookingAfterAppend(rooms: seq<Room>, bookings: seq<Booking>, b: Booking, u: int)
    requires RoomsResolve(rooms, bookings) && HasRoom(rooms, b.roomId)
    ensures RoomsResolve(rooms, bookings + [b])
    ensures FindBooking(rooms, bookings + [b], u) ==
      if FindBooking(rooms, bookings, u).Some? then FindBooking(rooms, bookings, u)
      else if b.userId == u then Some(BookedRoom(b, RoomFor(rooms, b.roomId)))
      else None
  {
    var after := bookings + [b];
    assert forall i | 0 <= i < |bookings| :: after[i] == bookings[i];
    assert RoomsResolve(rooms, after) by {
      forall i | 0 <= i < |after| ensures HasRoom(rooms, after[i].roomId) {
        if i < |bookings| { assert after[i] == bookings[i]; }
      }
    }
    match FirstOfUser(bookings, u)
    case Some(k) =>
      assert IsFirstOfUser(after, u, k);
      var k' := FirstOfUser(after, u).value;
      FirstOfUserUnique(after, u, k, k');
    case None =>
      if b.userId == u {
        assert IsFirstOfUser(after, u, |bookings|);
        var k' := FirstOfUser(after, u).value;
        FirstOfUserUnique(after, u, |bookings|, k');
      } else {
        assert forall i | 0 <= i < |after| :: after[i].userId != u;
      }
  }

  /** Repointing row `k` changes what `findBooking` returns only when row `k`
      is the user's first booking; its id and owner stay the same. */
  lemma FindBookingAfterRepoint(rooms: seq<Room>, bookings: seq<Booking>, k: nat, idRoom: int, u: int)
    requires RoomsResolve(rooms, bookings) && UniqueIds(bookings) && HasRoom(rooms, idRoom)
    requires k < |bookings|
    ensures RoomsResolve(rooms, Repointed(bookings, k, idRoom))
    ensures FindBooking(rooms, Repointed(bookings, k, idRoom), u) ==
      match FindBooking(rooms, bookings, u)
      case None => None
      case Some(found) =>
        if found.booking.id == bookings[k].id
        then Some(BookedRoom(Booking(bookings[k].id, u, idRoom), RoomFor(rooms, idRoom)))
        else Some(found)
  {
  }

  // ---------------------------------------------------------------------------
  // The Booking table

  /** The Booking table with its auto-increment counter, over a fixed Room table. */
  class BookingTable {
    const rooms: seq<Room>
    var bookings: seq<Booking>
    var nextId: nat

    ghost predicate Valid()
      reads this
    {
      TableInvariant(rooms, bookings, nextId)
    }

    constructor (rooms: seq<Room>)
      ensures Valid()
      ensures this.rooms == rooms && bookings == [] && nextId == 1
    {
      this.rooms := rooms;
      bookings := [];
      nextId := 1;
    }

    /** `createBookedRoom(idRoom, idUser)`: append one row owned by `idUser` in
        room `idRoom` (the room comes first in the argument list) with the next
        id of the sequence. The foreign key makes the room's existence a
        requirement of the insert. */
    method CreateBookedRoom(idRoom: int, idUser: int) returns (booked: Booking)
      requires Valid() && HasRoom(rooms, idRoom)
      modifies this
      ensures Valid()
      ensures booked == Booking(old(nextId), idUser, idRoom)
      ensures bookings == old(bookings) + [booked] && nextId == old(nextId) + 1
    {
      booked := Booking(nextId, idUser, idRoom);
      bookings := bookings + [booked];
      nextId := nextId + 1;
    }

    /** The update by booking id that the service calls: point the row whose id
        is `idBooking` at room `idRoom`, whoever owns it, and return it; fail,
        changing nothing, when no row has that id. */
    method UpdateBooking(idRoom: int, idBooking: int) returns (updated: Result<Booking>)
      requires Valid() && HasRoom(rooms, idRoom)
      modifies this
      ensures Valid() && nextId == old(nextId)
      ensures updated.Err? <==> forall i | 0 <= i < |old(bookings)| :: old(bookings)[i].id != idBooking
      ensures updated.Err? ==> updated.error == RecordToUpdateNotFound && bookings == old(bookings)
      ensures updated.Ok? ==> exists k | 0 <= k < |old(bookings)| ::
        && old(bookings)[k].id == idBooking
        && bookings == Repointed(old(bookings), k, idRoom)
        && updated.value == bookings[k]
    {
      var k := FirstWithId(bookings, idBooking);
      if k.None? {
        updated := Err(RecordToUpdateNotFound);
        return;
      }
      ghost var before := bookings;
      bookings := Repointed(bookings, k.value, idRoom);
      assert RoomsResolve(rooms, bookings) by {
        forall i | 0 <= i < |bookings| ensures HasRoom(rooms, bookings[i].roomId) {
          if i != k.value { assert bookings[i] == before[i]; }
        }
      }
      updated := Ok(bookings[k.value]);
    }
  }
}
