/** The hotel query service: listing all hotels and listing one hotel's
    rooms, both behind the same ordered chain of eligibility guards.
    Each guard exits early, so the failure reported when several guards
    would fail is the one checked first. */
module HotelsService {
  import opened Snapshot

  /** The outcome of a query: a value, or the error the service throws. */
  datatype Result<+T> = Ok(value: T) | NotFound | PaymentRequired

  /** A ticket that entitles its holder to see hotels: not reserved (so paid),
      for in-person attendance, with accommodation included. */
  predicate Admits(t: Ticket) {
    t.status != RESERVED && !t.ticketType.isRemote && t.ticketType.includesHotel
  }

  /** The user has an enrollment whose ticket admits them to hotels. */
  ghost predicate Eligible(db: Db, userId: int) {
    exists e, t :: e in db.enrollments && t in db.tickets && e.userId == userId && t.enrollmentId == e.id && Admits(t)
  }

  /** The guards both queries run, in order: enrollment of the user, ticket
      of that enrollment, ticket not RESERVED, ticket type in person and
      with hotel. Returns the ticket that passed. */
  function CheckTicket(db: Db, userId: int): (r: Result<Ticket>)
    ensures r.Ok? ==> Admits(r.value) && r.value in db.tickets
    ensures r.Ok? ==> exists e :: e in db.enrollments && e.userId == userId && r.value.enrollmentId == e.id
  {
    match FindEnrollmentByUserId(db, userId)
    case None => NotFound
    case Some(enrollment) =>
      match FindTicketByEnrollmentId(db, enrollment.id)
      case None => NotFound
      case Some(ticket) =>
        if ticket.status == RESERVED then PaymentRequired
        else if ticket.ticketType.isRemote || !ticket.ticketType.includesHotel then PaymentRequired
        else Ok(ticket)
  }

  /** All hotels, for an eligible user. */
  function GetAllHotels(db: Db, userId: int): (r: Result<seq<Hotel>>)
    ensures r.Ok? ==> r.value == db.hotels && Eligible(db, userId)
  {
    match FindHotels(db)
    case None => NotFound
    case Some(hotels) =>
      match CheckTicket(db, userId)
      case NotFound => NotFound
      case PaymentRequired => PaymentRequired
      case Ok(_) => Ok(hotels)
  }

  /** One hotel with its rooms. The hotel is looked up before any guard runs. */
  function GetRoomsById(db: Db, hotelId: int, userId: int): (r: Result<HotelWithRooms>)
    ensures r.Ok? ==> r.value.hotel in db.hotels && r.value.hotel.id == hotelId && Eligible(db, userId)
    ensures r.Ok? ==> forall x :: x in r.value.rooms <==> x in db.rooms && x.hotelId == hotelId
  {
    match FindRoomsById(db, hotelId)
    case None => NotFound
    case Some(hotel) =>
      match CheckTicket(db, userId)
      case NotFound => NotFound
      case PaymentRequired => PaymentRequired
      case Ok(_) => Ok(hotel)
  }

  ghost predicate HasHotel(db: Db, hotelId: int) {
    exists h :: h in db.hotels && h.id == hotelId
  }

  /** A hotel id no hotel carries gives NotFound whatever the user's
      enrollment or ticket, even an unpaid or remote one. */
  lemma MissingHotelIsNotFound(db: Db, hotelId: int, userId: int)
    requires !HasHotel(db, hotelId)
    ensures GetRoomsById(db, hotelId, userId) == NotFound
  {
  }

  /** A user without an enrollment gets NotFound from both queries. */
  lemma NoEnrollmentIsNotFound(db: Db, hotelId: int, userId: int)
    requires forall e :: e in db.enrollments ==> e.userId != userId
    ensures GetAllHotels(db, userId) == NotFound
    ensures GetRoomsById(db, hotelId, userId) == NotFound
  {
  }

  /** A user whose enrollment has no ticket gets NotFound from both queries. */
  lemma NoTicketIsNotFound(db: Db, hotelId: int, userId: int, e: Enrollment)
    requires WellKeyed(db)
    requires e in db.enrollments && e.userId == userId
    requires forall t :: t in db.tickets ==> t.enrollmentId != e.id
    ensures GetAllHotels(db, userId) == NotFound
    ensures GetRoomsById(db, hotelId, userId) == NotFound
  {
  }

  /** The CheckTicket outcome of a user, read off their enrollment and ticket. */
  lemma CheckTicketOf(db: Db, userId: int, e: Enrollment, t: Ticket)
    requires WellKeyed(db)
    requires e in db.enrollments && e.userId == userId
    requires t in db.tickets && t.enrollmentId == e.id
    ensures CheckTicket(db, userId) == if Admits(t) then Ok(t) else PaymentRequired
  {
  }

  /** A RESERVED ticket gives PaymentRequired whatever its ticket type
      (for the rooms query, once the hotel exists). */
  lemma ReservedIsPaymentRequired(db: Db, hotelId: int, userId: int, e: Enrollment, t: Ticket)
    requires WellKeyed(db)
    requires e in db.enrollments && e.userId == userId
    requires t in db.tickets && t.enrollmentId == e.id
    requires t.status == RESERVED
    ensures GetAllHotels(db, userId) == PaymentRequired
    ensures HasHotel(db, hotelId) ==> GetRoomsById(db, hotelId, userId) == PaymentRequired
  {
    CheckTicketOf(db, userId, e, t);
  }

  /** A paid ticket whose type is remote, or leaves out the hotel, gives
      PaymentRequired (for the rooms query, once the hotel exists). */
  lemma UnsuitableTypeIsPaymentRequired(db: Db, hotelId: int, userId: int, e: Enrollment, t: Ticket)
    requires WellKeyed(db)
    requires e in db.enrollments && e.userId == userId
    requires t in db.tickets && t.enrollmentId == e.id
    requires t.status != RESERVED
    requires t.ticketType.isRemote || !t.ticketType.includesHotel
    ensures GetAllHotels(db, userId) == PaymentRequired
    ensures HasHotel(db, hotelId) ==> GetRoomsById(db, hotelId, userId) == PaymentRequired
  {
    CheckTicketOf(db, userId, e, t);
  }

  /** An eligible user sees exactly the stored hotels, the empty list included;
      conversely only an eligible user sees them. */
  lemma AllHotelsIffEligible(db: Db, userId: int)
    requires WellKeyed(db)
    ensures GetAllHotels(db, userId) == Ok(db.hotels) <==> Eligible(db, userId)
  {
    if Eligible(db, userId) {
      var e, t :| e in db.enrollments && t in db.tickets && e.userId == userId && t.enrollmentId == e.id && Admits(t);
      CheckTicketOf(db, userId, e, t);
    }
  }

  /** An eligible user asking for an existing hotel gets that hotel record
      unchanged, with exactly its rooms in table order; conversely the rooms
      query succeeds only for an eligible user and an existing hotel. */
  lemma RoomsIffEligibleAndHotel(db: Db, hotelId: int, userId: int)
    requires WellKeyed(db)
    ensures GetRoomsById(db, hotelId, userId).Ok? <==> Eligible(db, userId) && HasHotel(db, hotelId)
    ensures forall h :: h in db.hotels && h.id == hotelId && Eligible(db, userId) ==>
      GetRoomsById(db, hotelId, userId) == Ok(HotelWithRooms(h, RoomsOf(db.rooms, hotelId)))
  {
    if Eligible(db, userId) && HasHotel(db, hotelId) {
      var e, t :| e in db.enrollments && t in db.tickets && e.userId == userId && t.enrollmentId == e.id && Admits(t);
      CheckTicketOf(db, userId, e, t);
    }
  }

  /** For an existing hotel both queries fail, or succeed, alike: the
      guard chain is the same, only the hotel check comes before it. */
  lemma SameGateForExistingHotel(db: Db, hotelId: int, userId: int)
    requires HasHotel(db, hotelId)
    ensures GetRoomsById(db, hotelId, userId).Ok? <==> GetAllHotels(db, userId).Ok?
    ensures GetRoomsById(db, hotelId, userId) == NotFound <==> GetAllHotels(db, userId) == NotFound
    ensures GetRoomsById(db, hotelId, userId) == PaymentRequired <==> GetAllHotels(db, userId) == PaymentRequired
  {
  }

  /** Both queries only read what they consult: the hotel listing ignores
      the room table, and the rooms query ignores the rooms of other hotels.
      So repeating a query on unchanged data repeats its result. */
  lemma QueriesReadOnlyTheirTables(db1: Db, db2: Db, hotelId: int, userId: int)
    requires db1.enrollments == db2.enrollments && db1.tickets == db2.tickets && db1.hotels == db2.hotels
    ensures GetAllHotels(db1, userId) == GetAllHotels(db2, userId)
    ensures RoomsOf(db1.rooms, hotelId) == RoomsOf(db2.rooms, hotelId) ==>
      GetRoomsById(db1, hotelId, userId) == GetRoomsById(db2, hotelId, userId)
  {
  }
}
