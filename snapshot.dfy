/** The database rows the hotel endpoints read, as one immutable snapshot,
    and the lookups the enrollment, ticket and hotel repositories perform
    on it. Every lookup answers with the first row that matches, which is
    the only row that matches when the keys are unique (WellKeyed). */
module Snapshot {

  datatype Option<+T> = None | Some(value: T)

  /** Payment state of a ticket. */
  datatype TicketStatus = RESERVED | PAID

  /** Entitlements of a ticket: remote attendance, hotel accommodation. */
  datatype TicketType = TicketType(id: int, isRemote: bool, includesHotel: bool)

  /** A ticket row joined with the one ticket type it references. */
  datatype Ticket = Ticket(id: int, enrollmentId: int, status: TicketStatus, ticketType: TicketType)

  datatype Enrollment = Enrollment(id: int, userId: int)

  datatype Hotel = Hotel(id: int, name: string, image: string)

  datatype Room = Room(id: int, name: string, capacity: int, hotelId: int)

  /** A hotel together with its rooms, as the rooms query returns it. */
  datatype HotelWithRooms = HotelWithRooms(hotel: Hotel, rooms: seq<Room>)

  /** The tables the two queries read, each in storage order. */
  datatype Db = Db(enrollments: seq<Enrollment>, tickets: seq<Ticket>, hotels: seq<Hotel>, rooms: seq<Room>)

  /** Unique keys the lemmas about eligibility assume: one enrollment per
      user, one ticket per enrollment, one hotel per id. */
  ghost predicate WellKeyed(db: Db) {
    && (forall e1, e2 :: e1 in db.enrollments && e2 in db.enrollments && e1.userId == e2.userId ==> e1 == e2)
    && (forall t1, t2 :: t1 in db.tickets && t2 in db.tickets && t1.enrollmentId == t2.enrollmentId ==> t1 == t2)
    && (forall h1, h2 :: h1 in db.hotels && h2 in db.hotels && h1.id == h2.id ==> h1 == h2)
  }

  /** The first row satisfying p, or None when no row does. */
  function FindFirst<T>(rows: seq<T>, p: T -> bool): (r: Option<T>)
    ensures r.Some? ==> r.value in rows && p(r.value)
    ensures r.None? <==> forall x :: x in rows ==> !p(x)
    ensures r.Some? ==> exists i :: 0 <= i < |rows| && rows[i] == r.value && forall j :: 0 <= j < i ==> !p(rows[j])
  {
    if rows == [] then None
    else if p(rows[0]) then Some(rows[0])
    else FindFirst(rows[1..], p)
  }

  function FindEnrollmentByUserId(db: Db, userId: int): Option<Enrollment> {
    FindFirst(db.enrollments, (e: Enrollment) => e.userId == userId)
  }

  function FindTicketByEnrollmentId(db: Db, enrollmentId: int): Option<Ticket> {
    FindFirst(db.tickets, (t: Ticket) => t.enrollmentId == enrollmentId)
  }

  /** The whole hotel table; a list query never answers "no list". */
  function FindHotels(db: Db): Option<seq<Hotel>> {
    Some(db.hotels)
  }

  /** The rooms of one hotel, in table order. */
  function RoomsOf(rooms: seq<Room>, hotelId: int): (r: seq<Room>)
    ensures forall x :: x in r <==> x in rooms && x.hotelId == hotelId
    ensures |r| <= |rooms|
  {
    if rooms == [] then []
    else (if rooms[0].hotelId == hotelId then [rooms[0]] else []) + RoomsOf(rooms[1..], hotelId)
  }

  /** Selecting rooms commutes with concatenating tables: the selection
      keeps the rooms in the order the table holds them. */
  lemma {:induction false} RoomsOfAppend(a: seq<Room>, b: seq<Room>, hotelId: int)
    ensures RoomsOf(a + b, hotelId) == RoomsOf(a, hotelId) + RoomsOf(b, hotelId)
  {
    if a == [] {
      assert a + b == b;
    } else {
      assert (a + b)[1..] == a[1..] + b;
      RoomsOfAppend(a[1..], b, hotelId);
    }
  }

  /** A table holding only rooms of the hotel is returned whole and unchanged. */
  lemma {:induction false} RoomsOfOwnRooms(rooms: seq<Room>, hotelId: int)
    requires forall x :: x in rooms ==> x.hotelId == hotelId
    ensures RoomsOf(rooms, hotelId) == rooms
  {
    if rooms != [] {
      RoomsOfOwnRooms(rooms[1..], hotelId);
    }
  }

  /** The hotel with the given id and its rooms, or None when no hotel has it. */
  function FindRoomsById(db: Db, hotelId: int): (r: Option<HotelWithRooms>)
    ensures r.None? <==> forall h :: h in db.hotels ==> h.id != hotelId
    ensures r.Some? ==> r.value.hotel in db.hotels && r.value.hotel.id == hotelId
    ensures r.Some? ==> r.value.rooms == RoomsOf(db.rooms, hotelId)
  {
    match FindFirst(db.hotels, (h: Hotel) => h.id == hotelId)
    case None => None
    case Some(h) => Some(HotelWithRooms(h, RoomsOf(db.rooms, h.id)))
  }
}
