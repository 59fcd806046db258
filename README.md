# Hotel eligibility gate

This project models the two read endpoints of the event-ticketing backend
that show hotels to participants. `GET /hotels` lists every hotel.
`GET /hotels/:hotelId` returns one hotel with its rooms. Both sit behind
the same eligibility gate: the user must have an enrollment, that
enrollment must have a ticket, the ticket must not be `RESERVED`, and its
ticket type must be in person (`isRemote` false) and include the hotel
(`includesHotel` true).

Three modules follow the program's layers:

- `Snapshot` (`snapshot.dfy`): the database rows as one immutable
  snapshot, and the repository lookups over it. Each lookup returns the
  first row that matches (`FindFirst`). `WellKeyed` states the unique keys that the
  lemmas about eligibility assume: one enrollment per user, one ticket per
  enrollment, one hotel per id. These are assumptions, not facts shown by
  the source (see "## Left out").
  Each ticket row carries the ticket type it references, so the ticket-type
  lookup always succeeds for a ticket that exists. The rooms of a hotel are
  the rows of the room table that name it, in table order.
- `HotelsService` (`hotels_service.dfy`): `getAllHotels` and `getRoomslById`
  (here `GetAllHotels` and `GetRoomsById`). They are pure functions from the
  snapshot and the ids to `Ok(value) | NotFound | PaymentRequired`.
  `CheckTicket` is the guard chain the two functions share. Its checks run
  in the source's order and stop at the first failure.
- `HotelsController` (`hotels_controller.dfy`): each handler calls the
  service. `Raise` turns a denial into the thrown error name
  (`NotFoundError` or `PaymentRequiredError`). `Respond` maps the outcome
  to a status code and a body, exactly as both catch blocks do.

Precedence follows the code. `GetRoomsById` looks up the hotel before any
guard, so a missing hotel gives `NotFound` even for an unpaid or remote
ticket. When the hotel exists, both queries fail or succeed alike.

The code rejects a ticket only when its status is `RESERVED`; it never
tests for `PAID`. With the two ticket statuses `RESERVED` and `PAID`
this is the same as "not paid". The model keeps the code's test.

The integration test at tests/integration/hotels.test.ts:209-221 expects
402 for hotel id 121312 and a `RESERVED` ticket. Under the code's
hotel-first order that request gets 404 unless such a hotel exists.
`HotelsController.ReservedTicketUnknownHotelIsNotFound` proves the 404
for every snapshot with unique keys in which that user holds a `RESERVED`
ticket and no hotel has the requested id. The model follows the code. The
"remote" and "no hotel" tests (tests/integration/hotels.test.ts:85-114,
224-253) also create `RESERVED` tickets. The listing tests at lines 85-114
therefore reach the `RESERVED` guard and not the ticket-type guard. The
rooms tests at lines 224-253 reach the `RESERVED` guard only if hotel 1
exists; otherwise the hotel lookup (src/services/hotels-service/index.ts:38-41)
answers 404 first.

## Model

| member | source | states |
|---|---|---|
| `Snapshot.FindFirst` | src/services/hotels-service/index.ts:15-23 | A repository lookup returns the first row of the table that matches the key, and answers "none" exactly when no row matches; `FindEnrollmentByUserId` (lines 15 and 43) and `FindTicketByEnrollmentId` (lines 20 and 48) are its instances, and `FindHotels` (line 10) returns the whole hotel table |
| `Snapshot.RoomsOf` | src/services/hotels-service/index.ts:38 | The rooms returned with a hotel are exactly the rooms of the table that name that hotel, and no more rooms than the table holds |
| `Snapshot.FindRoomsById` | src/services/hotels-service/index.ts:38-41 | The hotel lookup answers "none" exactly when no stored hotel has the id; otherwise it returns a stored hotel with that id together with exactly that hotel's rooms in table order |
| `Snapshot.RoomsOfAppend` | src/services/hotels-service/index.ts:38 | Selecting a hotel's rooms distributes over concatenation of the room table, so the rooms keep their table order |
| `Snapshot.RoomsOfOwnRooms` | tests/integration/hotels.test.ts:270-295 | A room table holding only rooms of the hotel comes back whole, unchanged and in order |
| `HotelsService.CheckTicket` | src/services/hotels-service/index.ts:15-32 | The shared guard chain (also at lines 43-60) passes only a ticket that is stored, belongs to an enrollment of the user, is not RESERVED, is in person and includes the hotel |
| `HotelsService.GetAllHotels` | src/services/hotels-service/index.ts:9-35 | A successful listing is exactly the stored hotel sequence, and only an eligible user gets one |
| `HotelsService.GetRoomsById` | src/services/hotels-service/index.ts:37-63 | A successful lookup returns a stored hotel with the requested id, for an eligible user, with exactly the rooms that name that hotel |
| `HotelsService.MissingHotelIsNotFound` | src/services/hotels-service/index.ts:38-41 | With no hotel of that id the rooms query is NotFound, whatever the user's enrollment and ticket |
| `HotelsService.NoEnrollmentIsNotFound` | src/services/hotels-service/index.ts:15-18 | A user without an enrollment gets NotFound from both queries (the rooms query at lines 43-46) |
| `HotelsService.NoTicketIsNotFound` | src/services/hotels-service/index.ts:20-23 | A user whose enrollment has no ticket gets NotFound from both queries (the rooms query at lines 48-51) |
| `HotelsService.CheckTicketOf` | src/services/hotels-service/index.ts:43-60 | With unique keys, the guard chain's verdict for a user is decided by that user's own ticket: Ok with that ticket when it admits, PaymentRequired otherwise |
| `HotelsService.ReservedIsPaymentRequired` | src/services/hotels-service/index.ts:25-27 | A RESERVED ticket gives PaymentRequired whatever its type, from the hotel list and from the rooms query of an existing hotel (lines 53-55) |
| `HotelsService.UnsuitableTypeIsPaymentRequired` | src/services/hotels-service/index.ts:29-32 | A non-RESERVED ticket whose type is remote or leaves out the hotel gives PaymentRequired from both queries (lines 57-60), once the hotel exists |
| `HotelsService.AllHotelsIffEligible` | src/services/hotels-service/index.ts:10-34 | The hotel listing is Ok with the stored sequence, the empty one included, if and only if the user is eligible |
| `HotelsService.RoomsIffEligibleAndHotel` | src/services/hotels-service/index.ts:37-63 | The rooms query succeeds if and only if the user is eligible and the hotel exists, and then returns that hotel record unchanged with its rooms |
| `HotelsService.SameGateForExistingHotel` | src/services/hotels-service/index.ts:43-60 | For an existing hotel the rooms query fails or succeeds exactly as the hotel listing does, with the same failure |
| `HotelsService.QueriesReadOnlyTheirTables` | src/services/hotels-service/index.ts:9-63 | Each query's result depends only on the tables it reads, so repeating it on unchanged data repeats its result |
| `HotelsController.Raise` | src/services/hotels-service/index.ts:11-34 | The service returns a value only on success, and unchanged; every denial it throws is named NotFoundError or PaymentRequiredError (the throws at lines 12-31 and 39-59) |
| `HotelsController.Respond` | src/controllers/hotels-controller.ts:9-24 | Status is one of 200, 400, 402, 404; 200 exactly for a returned value, sent as the body; 404 for NotFoundError and 402 for PaymentRequiredError, with no value body; any other error 400 |
| `HotelsController.StatusNamesOutcome` | src/controllers/hotels-controller.ts:32-46 | Each service outcome gets its own status, none gets 400, and equal statuses mean the same kind of outcome |
| `HotelsController.GetAllHotels` | src/controllers/hotels-controller.ts:6-25 | The hotel listing handler answers 200, 402 or 404, and a 200 carries the stored hotels |
| `HotelsController.GetRoomsByHotelId` | src/controllers/hotels-controller.ts:27-47 | The rooms handler answers 200, 402 or 404, and a 200 carries a stored hotel with the requested id |
| `HotelsController.EligibleUserGetsAllHotels` | src/controllers/hotels-controller.ts:10-12 | With unique keys, an eligible user gets 200 with all stored hotels, an empty hotel table included |
| `HotelsController.EligibleUserGetsHotelRooms` | src/controllers/hotels-controller.ts:33-35 | With unique keys, an eligible user asking for an existing hotel id gets 200 with that hotel and exactly its rooms |
| `HotelsController.HandlersAgreeOnExistingHotel` | src/controllers/hotels-controller.ts:6-46 | For an existing hotel both handlers answer with the same status |
| `HotelsController.ReservedTicketUnknownHotelIsNotFound` | tests/integration/hotels.test.ts:209-221 | For every snapshot with unique keys where the user holds a RESERVED ticket and no hotel has the requested id, the rooms handler answers 404, not the 402 that test expects, while the hotel listing answers 402 |

## Left out

- The database and its ORM: repositories are lookups into an immutable snapshot, and the asynchronous calls are plain function calls.
- The second ticket fetch at src/services/hotels-service/index.ts:29 and :57: the ticket row already carries its ticket type. A ticket whose type row is missing cannot be stated in this model.
- `Snapshot.FindHotels` always returns the table: a list query never answers "no list". The null check at src/services/hotels-service/index.ts:11 is kept in `GetAllHotels` but can never fire.
- The error constructors live in an errors module that is not part of this model; the names `NotFoundError` and `PaymentRequiredError` are assumed from the names the controller tests.
- Parsing of the hotel id: src/controllers/hotels-controller.ts:28 binds the whole parameter object, so `Number(hotelId)` at line 33 is not a number. The model passes the hotel id as an integer.
- Routing and the token check (src/routers/hotels-router.ts:5-9): the 401 answers come from the authentication middleware, which is not part of this model.
- The response object and the `console.log` call at src/controllers/hotels-controller.ts:14: a handler returns its status and body instead.
- Timestamps and the other columns of the rows that no check reads (names, prices, addresses).
- Test factories: they only write random rows.
- Unique keys (`WellKeyed`): the lemmas `NoTicketIsNotFound`, `CheckTicketOf`, `ReservedIsPaymentRequired`, `UnsuitableTypeIsPaymentRequired`, `AllHotelsIffEligible`, `RoomsIffEligibleAndHotel`, `EligibleUserGetsAllHotels`, `EligibleUserGetsHotelRooms` and `ReservedTicketUnknownHotelIsNotFound` assume one enrollment per user and one ticket per enrollment (and one hotel per id). The database schema is not part of this model, so these are assumptions. Without them a lookup returns the first matching row, and a user with a PAID and a RESERVED ticket on one enrollment may get either answer.
- `enrollmentRepository.findById(userId)` at src/services/hotels-service/index.ts:15 and :43 is read as a lookup by user id, as the argument says, although its name says by id. The repository code is not part of this model.
- Thrown repository errors: a database failure, or the TypeError that a missing ticket type would raise at src/services/hotels-service/index.ts:29 and :57, would reach the 400 branch (src/controllers/hotels-controller.ts:23, :45). The model has no such errors, so neither handler answers 400 in it; `Respond` alone shows the 400 branch.
- The status text that `res.sendStatus` sends as the body of an error response: the model says only that no value is sent.
