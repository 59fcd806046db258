/** The HTTP boundary of the hotel endpoints: each handler calls the
    service, and turns what it returns, or the error it throws, into a
    status code and a body. Both handlers share one mapping. */
module HotelsController {
  import opened Snapshot
  import HotelsService

  const OK := 200
  const BAD_REQUEST := 400
  const PAYMENT_REQUIRED := 402
  const NOT_FOUND := 404

  /** How a service call settles, as the handler's try/catch sees it:
      a returned value, or a thrown error known by its name. */
  datatype Settled<+T> = Returned(value: T) | Threw(name: string)

  /** A status code and the value sent as body (None: no value, only the
      status itself). */
  datatype Response<+T> = Response(status: int, body: Option<T>)

  /** The service signals each denial by throwing an error of a fixed name:
      a value comes back only on success, unchanged, and every error thrown
      is one of the two names the handlers test for. */
  function Raise<T>(r: HotelsService.Result<T>): (s: Settled<T>)
    ensures s.Returned? <==> r.Ok?
    ensures r.Ok? ==> s.value == r.value
    ensures s.Threw? ==> s.name == "NotFoundError" || s.name == "PaymentRequiredError"
  {
    match r
    case Ok(v) => Returned(v)
    case NotFound => Threw("NotFoundError")
    case PaymentRequired => Threw("PaymentRequiredError")
  }

  /** The status mapping of both handlers: 200 with the value as body;
      404, 402 or 400 with no value body for a thrown error. */
  function Respond<T>(s: Settled<T>): (r: Response<T>)
    ensures r.status in {OK, BAD_REQUEST, PAYMENT_REQUIRED, NOT_FOUND}
    ensures r.status == OK <==> s.Returned?
    ensures r.body.Some? <==> s.Returned?
    ensures s.Returned? ==> r.body == Some(s.value)
    ensures r.status == NOT_FOUND <==> s == Threw("NotFoundError")
    ensures r.status == PAYMENT_REQUIRED <==> s == Threw("PaymentRequiredError")
  {
    match s
    case Returned(v) => Response(OK, Some(v))
    case Threw(name) =>
      if name == "NotFoundError" then Response(NOT_FOUND, None)
      else if name == "PaymentRequiredError" then Response(PAYMENT_REQUIRED, None)
      else Response(BAD_REQUEST, None)
  }

  /** Every service outcome has its own status, and none maps to 400:
      the status alone tells which outcome the service produced. */
  lemma StatusNamesOutcome<T>(x: HotelsService.Result<T>, y: HotelsService.Result<T>)
    ensures Respond(Raise(x)).status != BAD_REQUEST
    ensures Respond(Raise(x)).status == OK <==> x.Ok?
    ensures Respond(Raise(x)).status == NOT_FOUND <==> x.NotFound?
    ensures Respond(Raise(x)).status == PAYMENT_REQUIRED <==> x.PaymentRequired?
    ensures Respond(Raise(x)).status == Respond(Raise(y)).status ==>
      (x.Ok? <==> y.Ok?) && (x.NotFound? <==> y.NotFound?) && (x.PaymentRequired? <==> y.PaymentRequired?)
  {
  }

  /** GET /hotels for the authenticated user. */
  function GetAllHotels(db: Db, userId: int): (r: Response<seq<Hotel>>)
    ensures r.status in {OK, PAYMENT_REQUIRED, NOT_FOUND}
    ensures r.status == OK ==> r.body == Some(db.hotels)
  {
    Respond(Raise(HotelsService.GetAllHotels(db, userId)))
  }

  /** GET /hotels/:hotelId for the authenticated user. */
  function GetRoomsByHotelId(db: Db, hotelId: int, userId: int): (r: Response<HotelWithRooms>)
    ensures r.status in {OK, PAYMENT_REQUIRED, NOT_FOUND}
    ensures r.status == OK ==> r.body.Some? && r.body.value.hotel in db.hotels && r.body.value.hotel.id == hotelId
  {
    Respond(Raise(HotelsService.GetRoomsById(db, hotelId, userId)))
  }

  /** End to end: an eligible user gets 200 with every stored hotel,
      an empty hotel table included. */
  lemma EligibleUserGetsAllHotels(db: Db, userId: int)
    requires WellKeyed(db)
    requires HotelsService.Eligible(db, userId)
    ensures GetAllHotels(db, userId) == Response(OK, Some(db.hotels))
  {
    HotelsService.AllHotelsIffEligible(db, userId);
  }

  /** End to end: an eligible user asking for an existing hotel gets 200
      with that hotel and its rooms. */
  lemma EligibleUserGetsHotelRooms(db: Db, hotelId: int, userId: int, h: Hotel)
    requires WellKeyed(db)
    requires HotelsService.Eligible(db, userId)
    requires h in db.hotels && h.id == hotelId
    ensures GetRoomsByHotelId(db, hotelId, userId) == Response(OK, Some(HotelWithRooms(h, RoomsOf(db.rooms, hotelId))))
  {
    HotelsService.RoomsIffEligibleAndHotel(db, hotelId, userId);
  }

  /** For an existing hotel both handlers answer with the same status. */
  lemma HandlersAgreeOnExistingHotel(db: Db, hotelId: int, userId: int)
    requires HotelsService.HasHotel(db, hotelId)
    ensures GetRoomsByHotelId(db, hotelId, userId).status == GetAllHotels(db, userId).status
  {
    HotelsService.SameGateForExistingHotel(db, hotelId, userId);
  }

  /** A request for a hotel that does not exist is answered 404 even when
      the user's ticket is only RESERVED, because the hotel is looked up
      first; the hotel listing answers the same user 402. */
  lemma ReservedTicketUnknownHotelIsNotFound(db: Db, hotelId: int, userId: int, e: Enrollment, t: Ticket)
    requires WellKeyed(db)
    requires e in db.enrollments && e.userId == userId
    requires t in db.tickets && t.enrollmentId == e.id && t.status == RESERVED
    requires !HotelsService.HasHotel(db, hotelId)
    ensures GetRoomsByHotelId(db, hotelId, userId).status == NOT_FOUND
    ensures GetAllHotels(db, userId).status == PAYMENT_REQUIRED
  {
    HotelsService.ReservedIsPaymentRequired(db, hotelId, userId, e, t);
    HotelsService.MissingHotelIsNotFound(db, hotelId, userId);
  }
}
