// The seats of a cinema session: free, booked by a client or bought by a
// client. FreeSeat, BookedSeat and BoughtSeat share the abstract Seat base,
// whose constructor checks the seat number; here they are the three variants
// of one datatype, and structural seat equality is datatype equality.

module Seats {
  import opened Wrappers

  /** The errors of the booking domain. NumberOutOfRange stands for the
      ArgumentOutOfRangeException of the Seat constructor. */
  datatype DomainError =
    | NumberOutOfRange(number: int)
    | SeatBooked(clientId: int)
    | SeatBought(clientId: int)
    | SeatNotFound(seat: int)

  datatype Seat =
    | FreeSeat(number: int)
    | BookedSeat(number: int, clientId: int)
    | BoughtSeat(number: int, clientId: int)
  {
    /** Every seat the constructors let through has a positive number. */
    predicate Valid() {
      number >= 1
    }

    /** The client holding the seat, if any. */
    function Holder(): Option<int> {
      if FreeSeat? then None else Some(clientId)
    }
  }

  /** The Seat base constructor: a number below 1 is refused. */
  function CheckNumber(number: int): (r: Result<int, DomainError>)
    ensures r.Ok? <==> number >= 1
    ensures r.Ok? ==> r.value == number
    ensures r.Err? ==> r.error == NumberOutOfRange(number)
  {
    if number < 1 then Err(NumberOutOfRange(number)) else Ok(number)
  }

  function NewFreeSeat(number: int): (r: Result<Seat, DomainError>)
    ensures r.Ok? <==> number >= 1
    ensures r.Ok? ==> r.value.FreeSeat? && r.value.number == number && r.value.Valid()
    ensures r.Err? ==> r.error == NumberOutOfRange(number)
  {
    match CheckNumber(number)
    case Err(e) => Err(e)
    case Ok(n) => Ok(FreeSeat(n))
  }

  function NewBookedSeat(number: int, clientId: int): (r: Result<Seat, DomainError>)
    ensures r.Ok? <==> number >= 1
    ensures r.Ok? ==> r.value.BookedSeat? && r.value.number == number
                      && r.value.clientId == clientId && r.value.Valid()
    ensures r.Err? ==> r.error == NumberOutOfRange(number)
  {
    match CheckNumber(number)
    case Err(e) => Err(e)
    case Ok(n) => Ok(BookedSeat(n, clientId))
  }

  function NewBoughtSeat(number: int, clientId: int): (r: Result<Seat, DomainError>)
    ensures r.Ok? <==> number >= 1
    ensures r.Ok? ==> r.value.BoughtSeat? && r.value.number == number
                      && r.value.clientId == clientId && r.value.Valid()
    ensures r.Err? ==> r.error == NumberOutOfRange(number)
  {
    match CheckNumber(number)
    case Err(e) => Err(e)
    case Ok(n) => Ok(BoughtSeat(n, clientId))
  }

  /** What a seat's Book or Buy hands back: the seat object itself (which
      Session reads as "nothing to do") or a new seat. */
  datatype Transition = Same | Replaced(seat: Seat)

  /** The seat after a transition. */
  function After(s: Seat, t: Transition): Seat {
    if t.Same? then s else t.seat
  }

  /** Seat.Book: a free seat becomes booked by the client; a seat booked by the
      same client is handed back unchanged; any other holder is reported in the
      exception. */
  function Book(s: Seat, clientId: int): (r: Result<Transition, DomainError>)
    ensures r.Ok? ==> After(s, r.value) == BookedSeat(s.number, clientId)
    ensures r.Ok? && r.value.Same? <==> s == BookedSeat(s.number, clientId)
    ensures s.FreeSeat? ==> r.Ok? && r.value.Replaced?
    ensures r.Err? <==> s.BoughtSeat? || (s.BookedSeat? && s.clientId != clientId)
    ensures r.Err? ==> r.error == (if s.BoughtSeat? then SeatBought(s.clientId) else SeatBooked(s.clientId))
  {
    match s
    case FreeSeat(n) => Ok(Replaced(BookedSeat(n, clientId)))
    case BookedSeat(n, holder) => if holder == clientId then Ok(Same) else Err(SeatBooked(holder))
    case BoughtSeat(n, holder) => Err(SeatBought(holder))
  }

  /** Seat.Buy: a free seat, or a seat booked by the same client, becomes bought
      by the client; a seat the client already bought is handed back unchanged;
      a seat held by anyone else is reported with its holder. */
  function Buy(s: Seat, clientId: int): (r: Result<Transition, DomainError>)
    ensures r.Ok? ==> After(s, r.value) == BoughtSeat(s.number, clientId)
    ensures r.Ok? && r.value.Same? <==> s == BoughtSeat(s.number, clientId)
    ensures s.FreeSeat? ==> r.Ok? && r.value.Replaced?
    ensures r.Ok? <==> s.Holder().None? || s.Holder() == Some(clientId)
    ensures r.Err? ==> r.error == (if s.BoughtSeat? then SeatBought(s.clientId) else SeatBooked(s.clientId))
  {
    match s
    case FreeSeat(n) => Ok(Replaced(BoughtSeat(n, clientId)))
    case BookedSeat(n, holder) => if holder == clientId then Ok(Replaced(BoughtSeat(n, clientId))) else Err(SeatBooked(holder))
    case BoughtSeat(n, holder) => if holder == clientId then Ok(Same) else Err(SeatBought(holder))
  }

  /** Booking twice for the same client: the second call hands the seat back
      unchanged. */
  lemma BookIsIdempotent(s: Seat, clientId: int)
    requires Book(s, clientId).Ok?
    ensures Book(After(s, Book(s, clientId).value), clientId) == Ok(Same)
  {
  }

  /** Buying twice for the same client: the second call hands the seat back
      unchanged. */
  lemma BuyIsIdempotent(s: Seat, clientId: int)
    requires Buy(s, clientId).Ok?
    ensures Buy(After(s, Buy(s, clientId).value), clientId) == Ok(Same)
  {
  }

  /** Book and Buy keep the seat number, and so keep a valid seat valid. */
  lemma TransitionsKeepNumber(s: Seat, clientId: int)
    ensures Book(s, clientId).Ok? ==> After(s, Book(s, clientId).value).number == s.number
    ensures Buy(s, clientId).Ok? ==> After(s, Buy(s, clientId).value).number == s.number
  {
  }

  /** Anything FreeSeat.Equals(Seat) may be handed: a seat or null. */
  function FreeSeatEquals(self: Seat, other: Option<Seat>): (r: bool)
    requires self.FreeSeat?
    ensures r ==> other.Some? && other.value.FreeSeat?
    ensures r <==> other == Some(self)
  {
    match other
    case None => false
    case Some(seat) => seat.FreeSeat? && seat.number == self.number
  }

  /** What FreeSeat.Equals(object) may be handed besides null: a seat or some
      other object. */
  datatype Object = SeatObject(seat: Seat) | OtherObject

  function FreeSeatEqualsObject(self: Seat, other: Option<Object>): (r: bool)
    requires self.FreeSeat?
    ensures other.Some? && other.value.SeatObject? ==> r == FreeSeatEquals(self, Some(other.value.seat))
    ensures other.None? || other.value.OtherObject? ==> !r
  {
    other.Some? && other.value.SeatObject? && FreeSeatEquals(self, Some(other.value.seat))
  }

  /** FreeSeat.GetHashCode: the hash of the number, which for a 32-bit
      integer is the integer itself. */
  function FreeSeatHashCode(self: Seat): (h: int)
    requires self.FreeSeat?
  {
    self.number
  }

  /** Equal free seats have equal hash codes. */
  lemma EqualFreeSeatsHashAlike(a: Seat, b: Seat)
    requires a.FreeSeat? && b.FreeSeat? && FreeSeatEquals(a, Some(b))
    ensures FreeSeatHashCode(a) == FreeSeatHashCode(b)
  {
  }

  /** FreeSeat.Equals is an equivalence on free seats. */
  lemma FreeSeatEqualsIsEquivalence(a: Seat, b: Seat, c: Seat)
    requires a.FreeSeat? && b.FreeSeat? && c.FreeSeat?
    ensures FreeSeatEquals(a, Some(a))
    ensures FreeSeatEquals(a, Some(b)) <==> FreeSeatEquals(b, Some(a))
    ensures FreeSeatEquals(a, Some(b)) && FreeSeatEquals(b, Some(c)) ==> FreeSeatEquals(a, Some(c))
  {
  }

  /** The visitor a seat accepts: one visit per variant. */
  datatype SeatVisitor<T> = SeatVisitor(visitFree: Seat -> T, visitBooked: Seat -> T, visitBought: Seat -> T)

  /** Seat.Accept: each variant calls the visit method for its own type. */
  function Accept<T>(s: Seat, visitor: SeatVisitor<T>): (r: T)
    ensures s.FreeSeat? ==> r == visitor.visitFree(s)
    ensures s.BookedSeat? ==> r == visitor.visitBooked(s)
    ensures s.BoughtSeat? ==> r == visitor.visitBought(s)
  {
    match s
    case FreeSeat(_) => visitor.visitFree(s)
    case BookedSeat(_, _) => visitor.visitBooked(s)
    case BoughtSeat(_, _) => visitor.visitBought(s)
  }
}
