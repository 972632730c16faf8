// A cinema session: an id and a fixed array of seats that Book and Buy update
// in place. The pure functions below specify each operation on the sequence
// of seats; the class methods are proved to do what they say.

module Sessions {
  import opened Wrappers
  import opened Seats

  /** The ArgumentNullException of the Session constructor: the collection
      itself was null, or the seat at some position was. */
  datatype CreateError = NullSeats | NullSeatAt(index: nat)

  /** The first position holding null, if any. */
  function FirstNull(seats: seq<Option<Seat>>): (r: Option<nat>)
    ensures r.None? <==> forall j :: 0 <= j < |seats| ==> seats[j].Some?
    ensures r.Some? ==> r.value < |seats| && seats[r.value].None?
                        && forall j :: 0 <= j < r.value ==> seats[j].Some?
    decreases |seats|
  {
    if seats == [] then None
    else if seats[0].None? then Some(0)
    else match FirstNull(seats[1..])
      case None => None
      case Some(j) => Some(j + 1)
  }

  /** The seats of a collection without nulls. */
  function Values(seats: seq<Option<Seat>>): (r: seq<Seat>)
    requires forall j :: 0 <= j < |seats| ==> seats[j].Some?
    ensures |r| == |seats|
    ensures forall j :: 0 <= j < |seats| ==> seats[j] == Some(r[j])
    decreases |seats|
  {
    if seats == [] then [] else [seats[0].value] + Values(seats[1..])
  }

  /** The first position whose seat has number place (FindSeatByPlace). */
  function Find(seats: seq<Seat>, place: int): (r: Option<nat>)
    ensures r.None? <==> forall j :: 0 <= j < |seats| ==> seats[j].number != place
    ensures r.Some? ==> r.value < |seats| && seats[r.value].number == place
                        && forall j :: 0 <= j < r.value ==> seats[j].number != place
    decreases |seats|
  {
    if seats == [] then None
    else if seats[0].number == place then Some(0)
    else match Find(seats[1..], place)
      case None => None
      case Some(j) => Some(j + 1)
  }

  /** What an operation of Session answers and the seats it leaves behind. */
  datatype Outcome = Outcome(result: Result<Seat, DomainError>, seats: seq<Seat>)

  /** Session.Book: find the seat, ask it to book itself; a seat handed back
      unchanged is refused with the caller's client id, a new seat replaces the
      found one. */
  function SessionBook(seats: seq<Seat>, place: int, clientId: int): (o: Outcome)
    ensures Find(seats, place).None? ==> o == Outcome(Err(SeatNotFound(place)), seats)
    ensures o.result.Err? ==> o.seats == seats
    ensures o.result.Ok? ==> Find(seats, place).Some?
                             && o.result.value == BookedSeat(place, clientId)
                             && o.seats == seats[Find(seats, place).value := o.result.value]
  {
    match Find(seats, place)
    case None => Outcome(Err(SeatNotFound(place)), seats)
    case Some(i) =>
      match Book(seats[i], clientId)
      case Err(e) => Outcome(Err(e), seats)
      case Ok(Same) => Outcome(Err(SeatBooked(clientId)), seats)
      case Ok(Replaced(booked)) => Outcome(Ok(booked), seats[i := booked])
  }

  /** Session.Buy as written: on success it stores the seat it found, not the
      bought one, so the seats do not change at all. */
  function SessionBuyAsWritten(seats: seq<Seat>, place: int, clientId: int): (o: Outcome)
    ensures Find(seats, place).None? ==> o == Outcome(Err(SeatNotFound(place)), seats)
    ensures o.seats == seats
    ensures o.result.Ok? ==> Find(seats, place).Some? && o.result.value == BoughtSeat(place, clientId)
  {
    match Find(seats, place)
    case None => Outcome(Err(SeatNotFound(place)), seats)
    case Some(i) =>
      match Buy(seats[i], clientId)
      case Err(e) => Outcome(Err(e), seats)
      case Ok(Same) => Outcome(Err(SeatBought(clientId)), seats)
      case Ok(Replaced(bought)) => Outcome(Ok(bought), seats[i := seats[i]])
  }

  /** Session.Buy as intended: the bought seat replaces the found one, as
      Book does with the booked seat. */
  function SessionBuy(seats: seq<Seat>, place: int, clientId: int): (o: Outcome)
    ensures Find(seats, place).None? ==> o == Outcome(Err(SeatNotFound(place)), seats)
    ensures o.result.Err? ==> o.seats == seats
    ensures o.result.Ok? ==> Find(seats, place).Some?
                             && o.result.value == BoughtSeat(place, clientId)
                             && o.seats == seats[Find(seats, place).value := o.result.value]
    ensures o.result == SessionBuyAsWritten(seats, place, clientId).result
  {
    match Find(seats, place)
    case None => Outcome(Err(SeatNotFound(place)), seats)
    case Some(i) =>
      match Buy(seats[i], clientId)
      case Err(e) => Outcome(Err(e), seats)
      case Ok(Same) => Outcome(Err(SeatBought(clientId)), seats)
      case Ok(Replaced(bought)) => Outcome(Ok(bought), seats[i := bought])
  }

  /** Every seat has a positive number. */
  predicate AllValid(seats: seq<Seat>) {
    forall j :: 0 <= j < |seats| ==> seats[j].Valid()
  }

  /** Replacing the found seat keeps the place findable at the same
      position. */
  lemma FindAfterReplace(seats: seq<Seat>, place: int, s: Seat)
    requires Find(seats, place).Some? && s.number == place
    ensures Find(seats[Find(seats, place).value := s], place) == Find(seats, place)
  {
    var i := Find(seats, place).value;
    var after := seats[i := s];
    assert after[i].number == place;
    var k := Find(after, place).value;
    assert k <= i;
    assert after[k] == seats[k] || k == i;
  }

  /** Book and Buy keep the number of seats and keep every seat valid. */
  lemma OperationsKeepSeatsValid(seats: seq<Seat>, place: int, clientId: int)
    requires AllValid(seats)
    ensures AllValid(SessionBook(seats, place, clientId).seats)
    ensures AllValid(SessionBuy(seats, place, clientId).seats)
    ensures |SessionBook(seats, place, clientId).seats| == |seats|
    ensures |SessionBuy(seats, place, clientId).seats| == |seats|
  {
  }

  /** A free seat is booked for the client: the result is structurally the
      booked seat with that number and client. */
  lemma BookFreeSeat(seats: seq<Seat>, place: int, clientId: int)
    requires Find(seats, place).Some? && seats[Find(seats, place).value].FreeSeat?
    ensures SessionBook(seats, place, clientId).result == Ok(BookedSeat(place, clientId))
  {
  }

  /** Booking a bought seat fails, and the exception names the buyer. */
  lemma BookBoughtSeat(seats: seq<Seat>, place: int, clientId: int, buyer: int)
    requires Find(seats, place).Some? && seats[Find(seats, place).value] == BoughtSeat(place, buyer)
    ensures SessionBook(seats, place, clientId) == Outcome(Err(SeatBought(buyer)), seats)
  {
  }

  /** Once a client has booked a seat, booking it again fails: with the same
      client as SeatBooked for that client, with another client as SeatBooked
      for the holder. */
  lemma BookedSeatStaysWithHolder(seats: seq<Seat>, place: int, holder: int, other: int)
    requires SessionBook(seats, place, holder).result.Ok?
    ensures var after := SessionBook(seats, place, holder).seats;
            SessionBook(after, place, other) == Outcome(Err(SeatBooked(holder)), after)
  {
    var i := Find(seats, place).value;
    FindAfterReplace(seats, place, BookedSeat(place, holder));
  }

  /** The purchase is lost as written: on a session whose only seat is free,
      two different clients both buy seat 1. */
  lemma DoubleSaleAsWritten()
    ensures var first := SessionBuyAsWritten([FreeSeat(1)], 1, 2);
            first == Outcome(Ok(BoughtSeat(1, 2)), [FreeSeat(1)])
            && SessionBuyAsWritten(first.seats, 1, 3).result == Ok(BoughtSeat(1, 3))
  {
    assert Find([FreeSeat(1)], 1) == Some(0);
  }

  /** With the purchase stored, a bought seat is never sold to anyone else:
      the next Buy by another client fails and names the buyer. */
  lemma NoDoubleSale(seats: seq<Seat>, place: int, buyer: int, other: int)
    requires SessionBuy(seats, place, buyer).result.Ok? && other != buyer
    ensures var after := SessionBuy(seats, place, buyer).seats;
            SessionBuy(after, place, other) == Outcome(Err(SeatBought(buyer)), after)
  {
    FindAfterReplace(seats, place, BoughtSeat(place, buyer));
  }

  class Session {
    const id: int
    const seats: array<Seat>

    /** The private half of the public constructor: it stores the array it is
        given. Create is the entry point that matches the public constructor,
        which checks the seats and copies them into a new array, so no caller
        shares the session's array. */
    constructor (id: int, seats: array<Seat>)
      ensures this.id == id && this.seats == seats
    {
      this.id := id;
      this.seats := seats;
    }

    /** BuildSeatsArray: refuses a null collection and a null seat, naming the
        first null position; otherwise copies the seats in order. */
    static method BuildSeatsArray(seats: Option<seq<Option<Seat>>>) returns (r: Result<array<Seat>, CreateError>)
      ensures seats.None? ==> r.Err? && r.error == NullSeats
      ensures seats.Some? ==> (r.Err? <==> FirstNull(seats.value).Some?)
      ensures seats.Some? && r.Err? ==> r.error == NullSeatAt(FirstNull(seats.value).value)
      ensures r.Ok? ==> fresh(r.value) && seats.Some? && r.value[..] == Values(seats.value)
    {
      if seats.None? {
        return Err(NullSeats);
      }
      var given := seats.value;
      var i := 0;
      while i < |given|
        invariant 0 <= i <= |given|
        invariant forall j :: 0 <= j < i ==> given[j].Some?
      {
        if given[i].None? {
          assert FirstNull(given) == Some(i);
          return Err(NullSeatAt(i));
        }
        i := i + 1;
      }
      var values := Values(given);
      var copy := new Seat[|values|](j requires 0 <= j < |values| => values[j]);
      return Ok(copy);
    }

    /** The public constructor: builds the seat array or reports why not. */
    static method Create(id: int, seats: Option<seq<Option<Seat>>>) returns (r: Result<Session, CreateError>)
      ensures seats.None? ==> r.Err? && r.error == NullSeats
      ensures seats.Some? ==> (r.Err? <==> FirstNull(seats.value).Some?)
      ensures r.Ok? ==> fresh(r.value) && fresh(r.value.seats) && r.value.id == id
                        && seats.Some? && r.value.seats[..] == Values(seats.value)
    {
      var built := BuildSeatsArray(seats);
      match built
      case Err(e) =>
        return Err(e);
      case Ok(copy) =>
        var session := new Session(id, copy);
        return Ok(session);
    }

    /** The first seat with number place and its index, or SeatNotFound. */
    method FindSeatByPlace(place: int) returns (r: Result<(Seat, nat), DomainError>)
      ensures Find(seats[..], place).None? <==> r.Err?
      ensures r.Err? ==> r.error == SeatNotFound(place)
      ensures r.Ok? ==> r.value.1 == Find(seats[..], place).value && r.value.0 == seats[r.value.1]
    {
      var i := 0;
      while i < seats.Length
        invariant 0 <= i <= seats.Length
        invariant forall j :: 0 <= j < i ==> seats[j].number != place
      {
        if seats[i].number == place {
          assert Find(seats[..], place) == Some(i);
          return Ok((seats[i], i));
        }
        i := i + 1;
      }
      return Err(SeatNotFound(place));
    }

    /** Books the seat with number place for the client. */
    method Book(place: int, clientId: int) returns (r: Result<Seat, DomainError>)
      modifies seats
      ensures var o := SessionBook(old(seats[..]), place, clientId);
              r == o.result && seats[..] == o.seats
    {
      var found := FindSeatByPlace(place);
      if found.Err? {
        return Err(found.error);
      }
      var (seat, index) := found.value;
      var booked := Seats.Book(seat, clientId);
      match booked
      case Err(e) =>
        return Err(e);
      case Ok(Same) =>
        return Err(SeatBooked(clientId));
      case Ok(Replaced(s)) =>
        seats[index] := s;
        return Ok(s);
    }

    /** Buys the seat with number place for the client, as written: the seat
        found is stored back, so the purchase is not recorded. */
    method Buy(place: int, clientId: int) returns (r: Result<Seat, DomainError>)
      modifies seats
      ensures var o := SessionBuyAsWritten(old(seats[..]), place, clientId);
              r == o.result && seats[..] == o.seats
    {
      var found := FindSeatByPlace(place);
      if found.Err? {
        return Err(found.error);
      }
      var (seat, index) := found.value;
      var bought := Seats.Buy(seat, clientId);
      match bought
      case Err(e) =>
        return Err(e);
      case Ok(Same) =>
        return Err(SeatBought(clientId));
      case Ok(Replaced(s)) =>
        seats[index] := seat;
        return Ok(s);
    }

    /** Buy with the purchase recorded: the bought seat replaces the found
        one. */
    method BuyRecorded(place: int, clientId: int) returns (r: Result<Seat, DomainError>)
      modifies seats
      ensures var o := SessionBuy(old(seats[..]), place, clientId);
              r == o.result && seats[..] == o.seats
    {
      var found := FindSeatByPlace(place);
      if found.Err? {
        return Err(found.error);
      }
      var (seat, index) := found.value;
      var bought := Seats.Buy(seat, clientId);
      match bought
      case Err(e) =>
        return Err(e);
      case Ok(Same) =>
        return Err(SeatBought(clientId));
      case Ok(Replaced(s)) =>
        seats[index] := s;
        return Ok(s);
    }
  }
}
