# Booking eligibility engine — a Dafny model

This project models the booking core of a conference application (drivent).
A signed-in user may read their room booking, book a hotel room, or move a
booking to another room. Every operation first runs an **eligibility gate**:
the user needs an enrollment, and a ticket that is neither remote nor
`RESERVED`. Booking and changing then run a **room guard**: the room must exist
and its `capacity` column must not equal 3. After that comes one write to the
Booking table. The controller turns the outcome into HTTP responses.

Modules, following the program's files:

- `Errors` (`errors.dfy`) holds the thrown `{ name }` records, `Result` and `Outcome`.
- `Entities` (`entities.dfy`) holds the Booking, Room, Enrollment and Ticket rows.
- `BookingRepository` (`booking_repository.dfy`) holds:
  - the first-match queries `FindBooking` and `FindRoom`;
  - the class `BookingTable`, which is the Booking table with its auto-increment counter over a fixed Room table;
  - the table's methods `CreateBookedRoom` (an append) and `UpdateBooking`.
  `UpdateBooking` is the update by id that the service calls but the repository does not export. The model supplies it.
- `BookingService` (`booking_service.dfy`) holds:
  - the gate and the guard as functions;
  - `GetBookingByUserId` as a function;
  - the check chains `BookingChecks` and `ChangeBookingChecks`, which give each operation's order of checks;
  - `BookSelectedRoom` and `ChangeBooking` as methods that modify the table.
- `BookingController` (`booking_controller.dfy`) holds:
  - the error-name → status table;
  - the reply functions from a service outcome to the responses sent;
  - the three handlers as methods.
  A handler's responses are a sequence: empty when nothing is sent, and one or two long when `updateBooking` sends a 400 and carries on (two when the service call that follows answers with a recognised error).
- `BookingScenarios` (`booking_scenarios.dfy`) holds client methods that replay situations from the integration tests.

The enrollment and ticket lookups are inputs (`UserRecords`). A ticket lookup that fails passes its error on unchanged.

## Model

| member | source | states |
|---|---|---|
| `BookingRepository.FindBooking` | src/repositories/booking-repository/index.ts:3-12 | none exactly when no row has that userId; otherwise the first such row in table order, with the room its roomId names |
| `BookingRepository.BookingsOfRoom` | src/repositories/booking-repository/index.ts:28-30 | the included bookings are exactly the rows whose roomId is the room's id, each as often as it occurs in the table, and no other rows |
| `BookingRepository.FindRoom` | src/repositories/booking-repository/index.ts:23-32 | none exactly when no room has that id; otherwise the first room with that id, with exactly the bookings that reference it |
| `BookingRepository.BookingTable.CreateBookedRoom` | src/repositories/booking-repository/index.ts:14-21 | appends one row, userId = idUser and roomId = idRoom (room-first argument order), with the next sequence id; the table invariant is kept |
| `BookingRepository.Repointed` | src/services/booking-service/index.ts:45 | after repointing row k: same length, every id and owner unchanged, row k in the new room, every other row identical |
| `BookingRepository.BookingTable.UpdateBooking` | src/services/booking-service/index.ts:45 | fails, changing nothing, exactly when no row has that id; otherwise repoints that row, whoever owns it, and returns it |
| `BookingRepository.FindBookingAfterAppend` | src/repositories/booking-repository/index.ts:3-21 | after an append, findBooking returns the old first row if there was one; otherwise the new row if it is the user's; otherwise none |
| `BookingRepository.FindBookingAfterRepoint` | src/repositories/booking-repository/index.ts:3-12 | after a repoint, findBooking changes only when the repointed row was the user's first booking; then it has the same id in the new room |
| `BookingService.CheckEnrollmentAndTicket` | src/services/booking-service/index.ts:7-16 | passes iff enrolled with a paid, in-person ticket; no enrollment is UnauthorizedError whatever the ticket; a failed ticket lookup passes its error on; otherwise a failure is forbiddenError |
| `BookingService.CheckBookingByRoomIdAndRoomCapacity` | src/services/booking-service/index.ts:17-25 | fails iff the room is missing (NotFoundError) or its capacity is exactly 3 (forbiddenError) |
| `BookingService.GuardIgnoresOccupancy` | src/services/booking-service/index.ts:17-25 | a room whose capacity is not 3 passes even when its bookings already reach or exceed its capacity |
| `BookingService.GetBookingByUserId` | src/services/booking-service/index.ts:26-33 | a gate failure comes first; an eligible user gets their first booking with its room, or NotFoundError exactly when they have none |
| `BookingService.BookingChecks` | src/services/booking-service/index.ts:34-36 | eligibility failures come before room failures; passes iff the user may book and the room exists with capacity ≠ 3 |
| `BookingService.ChangeBookingChecks` | src/services/booking-service/index.ts:40-43 | order: gate, then NotFoundError when the user has no booking, then the room guard; passes iff all three hold |
| `BookingService.BookSelectedRoom` | src/services/booking-service/index.ts:34-39 | on a failed check, returns that error and changes nothing; otherwise appends exactly (next id, idUser, idRoom) and returns it; an existing booking is not checked for |
| `BookingService.ChangeBooking` | src/services/booking-service/index.ts:40-47 | on a failed check, returns that error and changes nothing; otherwise repoints the row with id idBooking, without an owner check, or fails unchanged when no row has that id |
| `BookingService.ChecksRaiseKnownNames` | src/services/booking-service/index.ts:7-25 | the checks themselves raise only the three named errors; only a passed-on ticket error can be another |
| `BookingService.BookThenGet` | src/services/booking-service/index.ts:26-39 | booking for a user without a booking, then reading, returns the new row in the chosen room |
| `BookingService.SecondBookingIsHidden` | src/services/booking-service/index.ts:26-39 | a second booking for the same user does not change what the read returns |
| `BookingService.ChangeThenGet` | src/services/booking-service/index.ts:26-47 | changing the user's current booking, then reading, returns the same booking id in the new room |
| `BookingController.ErrorReply` | src/controllers/booking-controller.ts:15-26 | UnauthorizedError → 401, forbiddenError → 403, NotFoundError → 404; any other name sends nothing; the status determines the name (the same table is at lines 42-52 and 68-78) |
| `BookingController.DecimalString` | src/controllers/booking-controller.ts:38 | `toString()` of an id: decimal digits only, with a leading zero only for 0 |
| `BookingController.DecimalRoundTrip` | src/controllers/booking-controller.ts:37-39 | reading the decimal text back gives the id |
| `BookingController.GetBookingReply` | src/controllers/booking-controller.ts:9-25 | 200 iff the service succeeded, with body `{ id, Rooms }` from the booking and its room; otherwise the error table |
| `BookingController.PostBookingReply` | src/controllers/booking-controller.ts:36-52 | 200 iff the service succeeded, with a text body that parses back to the new booking's id; otherwise the error table |
| `BookingController.UpdateBookingReply` | src/controllers/booking-controller.ts:60-78 | a NaN id gives a leading 400 and still one answer to the service outcome after it (200, or the error table) |
| `BookingController.GetBooking` | src/controllers/booking-controller.ts:6-26 | no enrollment gives 401; a remote or reserved ticket gives 403; an eligible user with no booking gives 404; otherwise 200 with the first booking's id and its room |
| `BookingController.PostBooking` | src/controllers/booking-controller.ts:28-53 | a NaN roomId gives 400 before any check, with no write and the id counter unchanged; a failed check gives its status, with no write and the counter unchanged; success gives 200 with the appended row's id as text and advances the counter by one |
| `BookingController.NaNIdReplies` | src/controllers/booking-controller.ts:60-78 | a NaN id always gives a leading 400; with a numeric room id, a failure of the full gate → booking → room-guard chain adds its status after the 400; with a NaN room id, a failure of the gate or booking check adds its status; when the followed checks pass, only the 400 is sent |
| `BookingController.UpdateWithIds` | src/controllers/booking-controller.ts:60-78 | with numeric ids, a failed check gives its status with no write; after passed checks, 200 exactly when some row has the booking id, and then that row is repointed; otherwise nothing is sent and nothing changes; the id counter never moves |
| `BookingController.UpdateBooking` | src/controllers/booking-controller.ts:55-79 | a NaN id gives the `NaNIdReplies` answer with no write; with numeric ids, the `UpdateWithIds` answer; 200 only after the row is repointed; the id counter never moves |
| `BookingScenarios.RepeatedPostGetsNextId` | tests/integration/bookings.test.ts:204-218 | posting for a user who already has booking n answers 200 with text n+1 and leaves two rows |
| `BookingScenarios.ZeroCapacityRoomIsBooked` | tests/integration/bookings.test.ts:191-203 | a capacity-0 room is booked with 200 (the test expects 403) |
| `BookingScenarios.ZeroCapacityRoomIsChangedTo` | tests/integration/bookings.test.ts:325-338 | with the supplied update, a change into a capacity-0 room answers 200 (the test expects 403; the code as written sends nothing) |
| `BookingScenarios.ChangeMovesAnotherUsersBooking` | src/services/booking-service/index.ts:40-47 | a user with a booking repoints another user's booking by naming its id |
| `BookingScenarios.ChangeWithNaNSendsTwice` | src/controllers/booking-controller.ts:60-78 | a NaN roomId on a change by an unenrolled user sends 400 and then 401 |
| `BookingScenarios.TwoPostsGetConsecutiveIds` | tests/integration/bookings.test.ts:204-218 | two posts through the handler on an empty table answer the texts "1" and then "2" |
| `BookingScenarios.ChangeWithNaNIdToMissingRoom` | src/controllers/booking-controller.ts:60-78 | a NaN booking id on a change into a missing room, by an eligible user with a booking, sends 400 and then 404 |

## Disagreements between the code and its tests

The model follows the code. Where an integration test expects something else,
a scenario method proves what the code does:

- **Capacity-0 rooms.** The tests create a room of capacity 0 and expect 403
  on booking and on changing (tests/integration/bookings.test.ts:191-203 and
  325-338). The guard rejects only `capacity === 3`
  (src/services/booking-service/index.ts:22-24). So booking such a room
  answers 200 (`ZeroCapacityRoomIsBooked`). On changing, the guard passes the
  room too, so the code never gives the 403 the test expects. The change then
  reaches the missing update (next item): the code as written sends nothing,
  and the model, with its supplied update, answers 200
  (`ZeroCapacityRoomIsChangedTo`). The guard also
  never counts the room's bookings (`GuardIgnoresOccupancy`). A capacity check
  of occupants against capacity is evidently the design intent, but it is not
  what the code does.
- **The missing update.** The service calls `bookingRepository.updateBoking`
  (src/services/booking-service/index.ts:45). The repository exports no such
  function (src/repositories/booking-repository/index.ts:34-38). TypeScript
  rejects the call. Run as JavaScript, line 45 throws a `TypeError`, whose name
  none of the controller's catch branches recognises
  (src/controllers/booking-controller.ts:68-78). So a change that passes every
  check sends no response at all. The test at
  tests/integration/bookings.test.ts:339-352 expects 200, which the code as
  written cannot give. The model supplies the update as "repoint the row with
  that id", which matches that test.
- **No booking.** The code defines a distinct error for "no booking for this
  user", `unauthorizedErrorNoBooking` with the name
  `UnauthorizedError-noBooking` (src/errors/unauthorized-error.ts:10-15). The
  service never raises it. It reports that failure as a plain `NotFoundError`
  (src/services/booking-service/index.ts:29-31), the same kind as "no such room".

## Left out

- Prisma, the database engine and the test factories are not modelled. The tables live in memory.
- Booking and Room rows have no `createdAt`/`updatedAt` timestamps, so the refresh of `Booking.updatedAt` by an update is not modelled.
- `findFirst` without `orderBy` has no guaranteed order. The model takes table order, which is insertion order.
- The error `message` strings are not modelled. `unauthorizedErrorNoBooking` is not modelled either, because the core never raises it.
- Express `req`/`res`, the HTTP transport and the JWT/session middleware are not modelled. The user id arrives as an integer.
- `Number(...)` of a request field is modelled as NaN or an integer. Non-integer numbers such as `1.5`, which `isNaN` lets through, are not modelled.
- Ids and request numbers are unbounded integers. The database's `Int` columns are 32-bit, and a numeric id outside -2147483648..2147483647 plausibly makes the query throw an error that no catch branch recognises, so nothing would be sent. The model instead treats such an id like any other: a room id that matches no room answers 404.
- The enrollment repository and the ticket service are not part of this model. Their answers for the user are inputs (`UserRecords`). `changeBooking` runs the gate twice, and both runs see the same answers.
- A foreign-key violation raised by an insert or update is not modelled. `BookingRepository.BookingTable.CreateBookedRoom` and `BookingRepository.BookingTable.UpdateBooking` require that the room exists. The service meets this because the room guard ran first.
- `BookingRepository.BookingTable.UpdateBooking` reports a missing row as `PrismaClientKnownRequestError`, the error a Prisma update by id throws. No controller recognises that name, so nothing is sent.
- `BookingController.UpdateBooking`: with a NaN id the source sends 400 and still calls the service. The model follows that call until a NaN id would reach the persistence layer. A NaN room id stops it at the room lookup, after the gate and the booking check. A NaN booking id stops it at the update, after all three checks. At that point the model has sent only the 400 and leaves the table unchanged. What the room lookup or the update does with a NaN key, including a 200 sent after the 400, is not modelled.
- When a handler sends twice, both attempted sends are recorded. Express rejects the second one because headers were already sent; that rejection, and the unhandled rejection it can cause, are not modelled.
- Concurrency is not modelled, including the check-then-insert race between concurrent requests. Each operation is one sequential step.
