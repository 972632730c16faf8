// The database row of a seat and the two directions of its mapping: a seat
// visitor that encodes a domain seat as a row of a given session, and
// ToDomainSeat, which decodes a row back into a seat.

module SeatMapping {
  import opened Wrappers
  import opened Seats

  /** The stored kind of a seat. The column is an enum, which can hold values
      other than the three named ones; Unknown stands for those. */
  datatype SeatType = Free | Booked | Bought | Unknown(value: int)

  /** A row of the seats table; a null client id is None. */
  datatype DatabaseSeat = DatabaseSeat(sessionId: int, number: int, seatType: SeatType, clientId: Option<int>)

  /** Why a row does not decode: the seat constructor refused the number, a
      booked or bought row has no client (InvalidOperationException), or the
      kind is not one of the three (ArgumentOutOfRangeException). */
  datatype DecodeError =
    | InvalidSeat(error: DomainError)
    | MissingClient(sessionId: int, number: int)
    | UnknownSeatType(seatType: SeatType)

  function FromDomain(r: Result<Seat, DomainError>): Result<Seat, DecodeError> {
    match r
    case Ok(s) => Ok(s)
    case Err(e) => Err(InvalidSeat(e))
  }

  /** DatabaseSeat.ToDomainSeat. */
  function ToDomainSeat(row: DatabaseSeat): (r: Result<Seat, DecodeError>)
    ensures r.Ok? ==> r.value.number == row.number && r.value.Valid()
    ensures r.Ok? <==> row.number >= 1 && (row.seatType.Free? || ((row.seatType.Booked? || row.seatType.Bought?) && row.clientId.Some?))
    ensures r.Ok? && row.seatType.Free? ==> r.value == FreeSeat(row.number)
    ensures r.Ok? && row.seatType.Booked? ==> r.value == BookedSeat(row.number, row.clientId.value)
    ensures r.Ok? && row.seatType.Bought? ==> r.value == BoughtSeat(row.number, row.clientId.value)
    ensures (row.seatType.Booked? || row.seatType.Bought?) && row.clientId.None? ==>
              r == Err(MissingClient(row.sessionId, row.number))
    ensures row.seatType.Unknown? ==> r == Err(UnknownSeatType(row.seatType))
  {
    match row.seatType
    case Free => FromDomain(NewFreeSeat(row.number))
    case Booked =>
      if row.clientId.None? then Err(MissingClient(row.sessionId, row.number))
      else FromDomain(NewBookedSeat(row.number, row.clientId.value))
    case Bought =>
      if row.clientId.None? then Err(MissingClient(row.sessionId, row.number))
      else FromDomain(NewBoughtSeat(row.number, row.clientId.value))
    case Unknown(_) => Err(UnknownSeatType(row.seatType))
  }

  /** A successful decode does not depend on the session the row belongs to. */
  lemma DecodeIgnoresSession(row: DatabaseSeat, otherSession: int)
    requires ToDomainSeat(row).Ok?
    ensures ToDomainSeat(row.(sessionId := otherSession)) == ToDomainSeat(row)
  {
  }

  // DatabaseSeatMapperSeatVisitor: one Visit per seat variant, each tagging
  // the row with the session given to the visitor's constructor.

  function VisitFree(sessionId: int, s: Seat): DatabaseSeat {
    DatabaseSeat(sessionId, s.number, Free, None)
  }

  function VisitBought(sessionId: int, s: Seat): DatabaseSeat {
    DatabaseSeat(sessionId, s.number, Bought, s.Holder())
  }

  function VisitBooked(sessionId: int, s: Seat): DatabaseSeat {
    DatabaseSeat(sessionId, s.number, Booked, s.Holder())
  }

  function MapperVisitor(sessionId: int): SeatVisitor<DatabaseSeat> {
    SeatVisitor(s => VisitFree(sessionId, s), s => VisitBooked(sessionId, s), s => VisitBought(sessionId, s))
  }

  /** A seat encoded as a row of the session: seat.Accept(visitor). */
  function ToDatabaseSeat(sessionId: int, s: Seat): (row: DatabaseSeat)
    ensures row.sessionId == sessionId && row.number == s.number
    ensures row.clientId == s.Holder()
    ensures s.FreeSeat? ==> row.seatType == Free
    ensures s.BookedSeat? ==> row.seatType == Booked
    ensures s.BoughtSeat? ==> row.seatType == Bought
  {
    Accept(s, MapperVisitor(sessionId))
  }

  /** Decoding an encoded valid seat gives the seat back, and never fails. */
  lemma RoundTrip(sessionId: int, s: Seat)
    requires s.Valid()
    ensures ToDomainSeat(ToDatabaseSeat(sessionId, s)) == Ok(s)
  {
  }

  /** The other direction: a row that decodes, and whose client column is null
      whenever the seat is free, is exactly what encoding the decoded seat
      gives. */
  lemma EncodeAfterDecode(row: DatabaseSeat)
    requires ToDomainSeat(row).Ok?
    requires row.seatType.Free? ==> row.clientId.None?
    ensures ToDatabaseSeat(row.sessionId, ToDomainSeat(row).value) == row
  {
  }
}
