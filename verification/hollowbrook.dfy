/** The guesthouse: which rooms are free, bookings, and the money taken for them.
    Money is in pence and in thirty-two bits, as a release build computes it. */
module Hollowbrook {
  import opened Basics

  const WORD: nat := 0x1_0000_0000
  const TOP: nat := 0xFFFF_FFFF

  type Word = n: nat | n < 0x1_0000_0000

  datatype Room = Room(id: Id, rate: Word)

  /** Dates are days, counted from any one of them. */
  datatype Booking = Booking(id: Id, room: Id, arrival: int, departure: int, total: Word)

  /** A charge's id is made from the caller's key where one is given: two keys are
      not taken to share an id, nor a key to share one with an id minted. */
  datatype ChargeId = Keyed(key: string) | Minted(id: Id)

  datatype Charge = Charge(id: ChargeId, account: Id, booking: Id, amount: Word)

  datatype NewCharge = NewCharge(account: Id, booking: Id, amount: Word, key: Option<string>)

  datatype Refusal =
    | DepartsFirst
    | InThePast
    | NoSuchRoom
    | TakenThen
    | NoSuchAccount
    | ForNothing
    | NoSuchBooking
    | KeyUsed
    | MoreThanTheTotal

  datatype Ledger = Ledger(rooms: seq<Room>, accounts: set<Id>, bookings: seq<Booking>, charges: seq<Charge>)

  // ---- Stays ------------------------------------------------------------------------------------

  function StayProblem(arrival: int, departure: int, today: int): Option<Refusal> {
    if departure <= arrival then Some(DepartsFirst)
    else if arrival < today then Some(InThePast)
    else None
  }

  /** Touching at the edges is not overlapping. */
  predicate Overlaps(b: Booking, room: Id, arrival: int, departure: int) {
    b.room == room && b.arrival < departure && arrival < b.departure
  }

  predicate Free(bookings: seq<Booking>, room: Id, arrival: int, departure: int) {
    forall i :: 0 <= i < |bookings| ==> !Overlaps(bookings[i], room, arrival, departure)
  }

  /** What a stay costs, and what the arithmetic makes of it. */
  function TotalOf(rate: Word, arrival: int, departure: int): Word {
    (rate * ((if departure <= arrival then 0 else departure - arrival) % WORD)) % WORD
  }

  datatype Offer = Offer(room: Id, rate: Word, total: Word)

  function Offers(rooms: seq<Room>, bookings: seq<Booking>, arrival: int, departure: int): seq<Offer> {
    if rooms == [] then []
    else
      (if Free(bookings, rooms[0].id, arrival, departure)
       then [Offer(rooms[0].id, rooms[0].rate, TotalOf(rooms[0].rate, arrival, departure))] else [])
      + Offers(rooms[1..], bookings, arrival, departure)
  }

  function Availability(l: Ledger, arrival: int, departure: int, today: int): Result<seq<Offer>, Refusal> {
    match StayProblem(arrival, departure, today)
    case Some(problem) => Err(problem)
    case None => Ok(Offers(l.rooms, l.bookings, arrival, departure))
  }

  function FindRoom(rooms: seq<Room>, id: Id): (room: Option<Room>)
    ensures room.Some? ==> room.value in rooms && room.value.id == id
    ensures room.None? <==> forall i :: 0 <= i < |rooms| ==> rooms[i].id != id
  {
    if rooms == [] then None
    else if rooms[0].id == id then Some(rooms[0])
    else FindRoom(rooms[1..], id)
  }

  function Book(l: Ledger, room: Id, arrival: int, departure: int, today: int, id: Id): Result<Booking, Refusal> {
    match FindRoom(l.rooms, room)
    case None => Err(NoSuchRoom)
    case Some(found) =>
      match StayProblem(arrival, departure, today)
      case Some(problem) => Err(problem)
      case None =>
        if !Free(l.bookings, room, arrival, departure) then Err(TakenThen)
        else Ok(Booking(id, room, arrival, departure, TotalOf(found.rate, arrival, departure)))
  }

  // ---- Charges ----------------------------------------------------------------------------------

  function FindBooking(bookings: seq<Booking>, id: Id): (b: Option<Booking>)
    ensures b.Some? ==> b.value in bookings && b.value.id == id
    ensures b.None? <==> forall i :: 0 <= i < |bookings| ==> bookings[i].id != id
  {
    if bookings == [] then None
    else if bookings[0].id == id then Some(bookings[0])
    else FindBooking(bookings[1..], id)
  }

  function FindCharge(charges: seq<Charge>, id: ChargeId): (c: Option<Charge>)
    ensures c.Some? ==> c.value in charges && c.value.id == id
    ensures c.None? <==> forall i :: 0 <= i < |charges| ==> charges[i].id != id
  {
    if charges == [] then None
    else if charges[0].id == id then Some(charges[0])
    else FindCharge(charges[1..], id)
  }

  /** What has been taken for a booking. */
  function Charged(charges: seq<Charge>, booking: Id): nat {
    if charges == [] then 0
    else
      var last := charges[|charges| - 1];
      Charged(charges[..|charges| - 1], booking) + if last.booking == booking then last.amount else 0
  }

  function SaturatingAdd(a: Word, b: Word): Word {
    if a + b > TOP then TOP else a + b
  }

  /** Taken now, or already, or refused. */
  datatype Taken = New(charge: Charge) | Already(charge: Charge) | Refused(why: Refusal)

  function Take(l: Ledger, input: NewCharge, id: Id): Taken {
    if input.account !in l.accounts then Refused(NoSuchAccount)
    else if input.amount == 0 then Refused(ForNothing)
    else
      match FindBooking(l.bookings, input.booking)
      case None => Refused(NoSuchBooking)
      case Some(booking) =>
        var seen := if input.key.Some? then FindCharge(l.charges, Keyed(input.key.value)) else None;
        if seen.Some? then
          if seen.value.account == input.account && seen.value.booking == input.booking && seen.value.amount == input.amount
          then Already(seen.value) else Refused(KeyUsed)
        else if SaturatingAdd(input.amount, Charged(l.charges, input.booking) % WORD) > booking.total then Refused(MoreThanTheTotal)
        else New(Charge(if input.key.Some? then Keyed(input.key.value) else Minted(id), input.account, input.booking, input.amount))
  }

  // ---- Runs -------------------------------------------------------------------------------------

  datatype Request =
    | ToBook(room: Id, arrival: int, departure: int, today: int, id: Id)
    | ToCharge(input: NewCharge, id: Id)
    | ToReset

  function Apply(l: Ledger, r: Request): Ledger {
    match r
    case ToBook(room, arrival, departure, today, id) =>
      (match Book(l, room, arrival, departure, today, id)
       case Ok(booking) => l.(bookings := l.bookings + [booking])
       case Err(_) => l)
    case ToCharge(input, id) =>
      (match Take(l, input, id)
       case New(charge) => l.(charges := l.charges + [charge])
       case _ => l)
    case ToReset => l.(bookings := [])
  }

  /** An id minted is one nothing has had: no booking, and no charge for a booking
      a reset cleared away. */
  predicate Fresh(l: Ledger, r: Request) {
    match r
    case ToBook(_, _, _, _, id) =>
      && (forall i :: 0 <= i < |l.bookings| ==> l.bookings[i].id != id)
      && (forall i :: 0 <= i < |l.charges| ==> l.charges[i].booking != id)
    case ToCharge(_, id) => forall i :: 0 <= i < |l.charges| ==> l.charges[i].id != Minted(id)
    case ToReset => true
  }

  predicate Runs(l: Ledger, rs: seq<Request>)
    decreases |rs|
  {
    rs == [] || (Fresh(l, rs[0]) && Runs(Apply(l, rs[0]), rs[1..]))
  }

  function After(l: Ledger, rs: seq<Request>): Ledger
    decreases |rs|
  {
    if rs == [] then l else After(Apply(l, rs[0]), rs[1..])
  }

  predicate StayOk(bookings: seq<Booking>, i: nat)
    requires i < |bookings|
  {
    var b := bookings[i];
    && b.arrival < b.departure
    && forall j :: 0 <= j < |bookings| && j != i ==>
         bookings[j].id != b.id && !Overlaps(bookings[j], b.room, b.arrival, b.departure)
  }

  predicate Covered(l: Ledger, b: Booking) {
    b.total < TOP ==> Charged(l.charges, b.id) <= b.total
  }

  predicate ChargeOnce(charges: seq<Charge>, i: nat, j: nat) {
    i < j < |charges| ==> charges[i].id != charges[j].id
  }

  ghost predicate Valid(l: Ledger) {
    && (forall i :: 0 <= i < |l.bookings| ==> StayOk(l.bookings, i))
    && (forall i :: 0 <= i < |l.bookings| ==> Covered(l, l.bookings[i]))
    && (forall i: nat, j: nat :: ChargeOnce(l.charges, i, j))
  }

  lemma {:induction false} NothingChargedYet(charges: seq<Charge>, booking: Id)
    requires forall i :: 0 <= i < |charges| ==> charges[i].booking != booking
    ensures Charged(charges, booking) == 0
    decreases |charges|
  {
    if charges != [] { NothingChargedYet(charges[..|charges| - 1], booking); }
  }

  lemma OneMoreCharge(charges: seq<Charge>, c: Charge, booking: Id)
    ensures Charged(charges + [c], booking) == Charged(charges, booking) + if c.booking == booking then c.amount else 0
  {
    assert (charges + [c])[..|charges|] == charges;
  }

  lemma BookKeepsValid(l: Ledger, r: Request)
    requires Valid(l) && r.ToBook? && Fresh(l, r)
    ensures Valid(Apply(l, r))
  {
    var after := Apply(l, r);
    if after != l {
      var n := |l.bookings|;
      var b := after.bookings[n];
      forall i | 0 <= i <= n ensures StayOk(after.bookings, i) {
        if i < n { assert StayOk(l.bookings, i); }
      }
      forall i | 0 <= i <= n ensures Covered(after, after.bookings[i]) {
        if i < n { assert Covered(l, l.bookings[i]); } else { NothingChargedYet(l.charges, b.id); }
      }
      forall i: nat, j: nat ensures ChargeOnce(after.charges, i, j) { assert ChargeOnce(l.charges, i, j); }
    }
  }

  lemma ChargeKeepsValid(l: Ledger, r: Request)
    requires Valid(l) && r.ToCharge? && Fresh(l, r)
    ensures Valid(Apply(l, r))
  {
    var after := Apply(l, r);
    if after != l {
      var c := Take(l, r.input, r.id).charge;
      forall i | 0 <= i < |l.bookings| ensures StayOk(after.bookings, i) { assert StayOk(l.bookings, i); }
      forall i | 0 <= i < |l.bookings| ensures Covered(after, after.bookings[i]) {
        CoveredStill(l, r.input, r.id, i);
      }
      forall i: nat, j: nat ensures ChargeOnce(after.charges, i, j) {
        assert ChargeOnce(l.charges, i, j);
      }
    }
  }

  /** The ceiling, and the arithmetic: what was taken fits in thirty-two bits, and
      so does what would be, short of the top. */
  lemma CoveredStill(l: Ledger, input: NewCharge, id: Id, i: nat)
    requires Valid(l) && i < |l.bookings| && Take(l, input, id).New?
    ensures Covered(l.(charges := l.charges + [Take(l, input, id).charge]), l.bookings[i])
  {
    var b, c := l.bookings[i], Take(l, input, id).charge;
    assert Covered(l, b) && StayOk(l.bookings, i);
    OneMoreCharge(l.charges, c, b.id);
    if c.booking == b.id && b.total < TOP {
      var found := FindBooking(l.bookings, b.id).value;
      var k :| 0 <= k < |l.bookings| && l.bookings[k] == found;
      assert k == i;
      assert Charged(l.charges, b.id) % WORD == Charged(l.charges, b.id);
    }
  }

  /** The main claim: over every run, stays of one room are apart, and what is
      taken for a booking is at most its total. */
  lemma {:induction false} AlwaysValid(l: Ledger, rs: seq<Request>)
    requires Valid(l) && Runs(l, rs)
    ensures Valid(After(l, rs))
    decreases |rs|
  {
    if rs != [] {
      match rs[0]
      case ToBook(_, _, _, _, _) => BookKeepsValid(l, rs[0]); AlwaysValid(Apply(l, rs[0]), rs[1..]);
      case ToCharge(_, _) => ChargeKeepsValid(l, rs[0]); AlwaysValid(Apply(l, rs[0]), rs[1..]);
      case ToReset => ResetKeepsValid(l); AlwaysValid(Apply(l, rs[0]), rs[1..]);
    }
  }

  lemma ResetKeepsValid(l: Ledger)
    requires Valid(l)
    ensures Valid(Apply(l, ToReset))
  {
    forall i: nat, j: nat ensures ChargeOnce(Apply(l, ToReset).charges, i, j) { assert ChargeOnce(l.charges, i, j); }
  }

  // ---- What a caller sees ----------------------------------------------------------------------

  /** No night of a room is sold twice; leaving on the day another arrives is no
      clash. */
  lemma NoNightIsSoldTwice(l: Ledger, i: nat, j: nat, night: int)
    requires Valid(l) && i < |l.bookings| && j < |l.bookings| && l.bookings[i].room == l.bookings[j].room
    requires l.bookings[i].arrival <= night < l.bookings[i].departure
    requires l.bookings[j].arrival <= night < l.bookings[j].departure
    ensures i == j
  {
    assert StayOk(l.bookings, i);
  }

  /** A stay is taken exactly where there is such a room, the stay is of at least a
      night and none of it is past, and no night of it is in a booking of that room;
      and then it is the stay asked for. */
  lemma AStayIsTakenIff(l: Ledger, room: Id, arrival: int, departure: int, today: int, id: Id)
    requires forall i :: 0 <= i < |l.bookings| ==> l.bookings[i].arrival < l.bookings[i].departure
    ensures Book(l, room, arrival, departure, today, id).Ok? <==>
              && (exists i :: 0 <= i < |l.rooms| && l.rooms[i].id == room)
              && today <= arrival < departure
              && forall i, night :: 0 <= i < |l.bookings| && NightOf(l.bookings[i], room, night) ==> !(arrival <= night < departure)
    ensures Book(l, room, arrival, departure, today, id).Ok? ==>
              var b := Book(l, room, arrival, departure, today, id).value;
              b.id == id && b.room == room && b.arrival == arrival && b.departure == departure
  {
    if today <= arrival < departure {
      forall i | 0 <= i < |l.bookings|
        ensures Overlaps(l.bookings[i], room, arrival, departure) <==>
                  exists night :: NightOf(l.bookings[i], room, night) && arrival <= night < departure
      {
        var b := l.bookings[i];
        if Overlaps(b, room, arrival, departure) {
          assert NightOf(b, room, if arrival < b.arrival then b.arrival else arrival);
        }
      }
    }
  }

  predicate NightOf(b: Booking, room: Id, night: int) {
    b.room == room && b.arrival <= night < b.departure
  }

  predicate DistinctRooms(rooms: seq<Room>) {
    forall i, j :: 0 <= i < j < |rooms| ==> rooms[i].id != rooms[j].id
  }

  predicate Offered(offers: seq<Offer>, room: Id, total: Word) {
    exists k :: 0 <= k < |offers| && offers[k].room == room && offers[k].total == total
  }

  lemma {:induction false} OffersAre(rooms: seq<Room>, bookings: seq<Booking>, arrival: int, departure: int, room: Id, total: Word)
    requires DistinctRooms(rooms)
    ensures Offered(Offers(rooms, bookings, arrival, departure), room, total) <==>
              var found := FindRoom(rooms, room);
              found.Some? && Free(bookings, room, arrival, departure) && total == TotalOf(found.value.rate, arrival, departure)
    decreases |rooms|
  {
    if rooms != [] {
      var first, rest := rooms[0], Offers(rooms[1..], bookings, arrival, departure);
      var offers := Offers(rooms, bookings, arrival, departure);
      OffersAre(rooms[1..], bookings, arrival, departure, room, total);
      if Free(bookings, first.id, arrival, departure) {
        assert offers == [Offer(first.id, first.rate, TotalOf(first.rate, arrival, departure))] + rest;
        assert Offered(offers, room, total) <==> Offered(offers[..1], room, total) || Offered(rest, room, total) by {
          assert forall k :: 0 <= k < |rest| ==> offers[k + 1] == rest[k];
          assert forall k :: 1 <= k < |offers| ==> offers[k] == rest[k - 1];
          assert offers[..1][0] == offers[0];
        }
        assert Offered(offers[..1], room, total) <==> first.id == room && total == TotalOf(first.rate, arrival, departure) by {
          assert offers[..1] == [offers[0]];
        }
      } else {
        assert offers == [] + rest == rest;
      }
    }
  }

  /** The rooms offered for a stay are exactly those a booking would be taken for,
      at the same price; and dates no room is offered for are refused alike. */
  lemma OfferedIsBookable(l: Ledger, room: Id, arrival: int, departure: int, today: int, id: Id, total: Word)
    requires DistinctRooms(l.rooms)
    ensures var booked := Book(l, room, arrival, departure, today, id);
            var offers := Availability(l, arrival, departure, today);
            && ((offers.Ok? && Offered(offers.value, room, total)) <==>
                  booked == Ok(Booking(id, room, arrival, departure, total)))
            && (offers.Err? && FindRoom(l.rooms, room).Some? ==> booked == Err(offers.error))
  {
    OffersAre(l.rooms, l.bookings, arrival, departure, room, total);
  }

  // ---- The ceiling --------------------------------------------------------------------------------

  /** Exactly what is refused as too much: a charge that would take the booking
      past its total, unless the total is the top of the range, when nothing is. */
  lemma RefusedAsTooMuchIff(l: Ledger, input: NewCharge, id: Id)
    requires Valid(l) && input.account in l.accounts && input.amount > 0
    requires FindBooking(l.bookings, input.booking).Some?
    requires input.key.Some? ==> FindCharge(l.charges, Keyed(input.key.value)).None?
    ensures var total := FindBooking(l.bookings, input.booking).value.total;
            Take(l, input, id) == Refused(MoreThanTheTotal) <==>
              total < TOP && Charged(l.charges, input.booking) + input.amount > total
  {
    var b := FindBooking(l.bookings, input.booking).value;
    var k :| 0 <= k < |l.bookings| && l.bookings[k] == b;
    assert Covered(l, b);
  }

  /** A ledger with one booking, whose total is the top of the range. */
  function AtTheTop(charges: seq<Charge>): Ledger {
    Ledger([Room(1, TOP)], {2}, [Booking(3, 1, 0, 1, TOP)], charges)
  }

  /** There, whatever is asked is taken. */
  lemma TakenAtTheTop(charges: seq<Charge>, amount: Word, id: Id)
    requires amount > 0
    ensures Apply(AtTheTop(charges), ToCharge(NewCharge(2, 3, amount, None), id))
         == AtTheTop(charges + [Charge(Minted(id), 2, 3, amount)])
  {
    assert FindBooking([Booking(3, 1, 0, 1, TOP)], 3) == Some(Booking(3, 1, 0, 1, TOP));
  }

  lemma RunOfTwo(l: Ledger, a: Request, b: Request)
    ensures After(l, [a, b]) == Apply(Apply(l, a), b)
    ensures Runs(l, [a, b]) <==> Fresh(l, a) && Fresh(Apply(l, a), b)
  {
    hide Apply, Fresh;
    assert [a, b][1..] == [b] && [b][1..] == [];
    assert After(Apply(l, a), [b]) == After(Apply(Apply(l, a), b), []);
    assert Runs(Apply(l, a), [b]) <==> Fresh(Apply(l, a), b) && Runs(Apply(Apply(l, a), b), []);
  }

  /** At the top of the range there is no ceiling: a stay that costs all that
      thirty-two bits can say is charged in full, and then a penny more. */
  lemma NoCeilingAtTheTop()
    ensures var rs := [ToCharge(NewCharge(2, 3, TOP, None), 4), ToCharge(NewCharge(2, 3, 1, None), 5)];
            && Valid(AtTheTop([])) && Runs(AtTheTop([]), rs)
            && Charged(After(AtTheTop([]), rs).charges, 3) == TOP + 1
    ensures Book(Ledger([Room(1, TOP)], {2}, [], []), 1, 0, 1, 0, 3) == Ok(AtTheTop([]).bookings[0])
  {
    hide Apply;
    var c1, c2 := Charge(Minted(4), 2, 3, TOP), Charge(Minted(5), 2, 3, 1);
    TakenAtTheTop([], TOP, 4);
    TakenAtTheTop([] + [c1], 1, 5);
    RunOfTwo(AtTheTop([]), ToCharge(NewCharge(2, 3, TOP, None), 4), ToCharge(NewCharge(2, 3, 1, None), 5));
    OneMoreCharge([], c1, 3);
    OneMoreCharge([] + [c1], c2, 3);
  }

  const HOUSE: seq<Room> := [Room(1, 14_500), Room(2, 13_000), Room(3, 19_500)]

  /** What a stay costs: the rate for each night, where thirty-two bits can say it. */
  lemma AStayTotals(rate: Word, arrival: int, nights: nat)
    requires rate * nights <= TOP
    ensures TotalOf(rate, arrival, arrival + nights) == rate * nights
  {
    if rate > 0 && nights > 0 {
      assert nights <= rate * nights;
    }
  }

  /** The house's own rates never come to it, even where the price wraps around. */
  lemma TheHouseIsNeverAtTheTop(i: nat, arrival: int, departure: int)
    requires i < |HOUSE|
    ensures TotalOf(HOUSE[i].rate, arrival, departure) % 4 == 0
    ensures TotalOf(HOUSE[i].rate, arrival, departure) < TOP
  {
    var nights := (if departure <= arrival then 0 else departure - arrival) % WORD;
    var quarter := HOUSE[i].rate / 4;
    assert HOUSE[i].rate == 4 * quarter;
    assert HOUSE[i].rate * nights == 4 * (quarter * nights);
    WrapKeepsFours(quarter * nights);
  }

  predicate BelowTheTop(l: Ledger) {
    l.rooms == HOUSE && forall i :: 0 <= i < |l.bookings| ==> l.bookings[i].total < TOP
  }

  lemma BookedAtAHouseRate(l: Ledger, room: Id, arrival: int, departure: int, today: int, id: Id)
    requires l.rooms == HOUSE && Book(l, room, arrival, departure, today, id).Ok?
    ensures Book(l, room, arrival, departure, today, id).value.total < TOP
  {
    var found := FindRoom(HOUSE, room).value;
    var i :| 0 <= i < |HOUSE| && HOUSE[i] == found;
    TheHouseIsNeverAtTheTop(i, arrival, departure);
  }

  lemma {:induction false} StaysBelowTheTop(l: Ledger, rs: seq<Request>)
    requires BelowTheTop(l)
    ensures BelowTheTop(After(l, rs))
    decreases |rs|
  {
    if rs != [] {
      var after, r := Apply(l, rs[0]), rs[0];
      if r.ToBook? && after != l {
        BookedAtAHouseRate(l, r.room, r.arrival, r.departure, r.today, r.id);
      }
      StaysBelowTheTop(after, rs[1..]);
    }
  }

  /** So in the house, over every run, no booking that stands is charged more than
      its total. */
  lemma NoGuestIsOvercharged(accounts: set<Id>, rs: seq<Request>, i: nat)
    requires Runs(Ledger(HOUSE, accounts, [], []), rs)
    ensures var l := After(Ledger(HOUSE, accounts, [], []), rs);
            i < |l.bookings| ==> Charged(l.charges, l.bookings[i].id) <= l.bookings[i].total
  {
    var first := Ledger(HOUSE, accounts, [], []);
    AlwaysValid(first, rs);
    StaysBelowTheTop(first, rs);
    var l := After(first, rs);
    if i < |l.bookings| { assert Covered(l, l.bookings[i]); }
  }

  lemma WrapKeepsFours(n: nat)
    ensures (4 * n) % WORD % 4 == 0
  {
    var q := (4 * n) / WORD;
    assert 4 * n == q * WORD + (4 * n) % WORD;
    assert (4 * n) % WORD == 4 * (n - q * 0x4000_0000);
  }

  /** When money is taken: for a booking that stands, to a known card, of some amount
      and within the ceiling, and of a key not used; and then it is the charge asked
      for, and the only change. */
  lemma AChargeIsTakenIff(l: Ledger, input: NewCharge, id: Id)
    requires Valid(l)
    ensures Take(l, input, id).New? <==>
              && input.account in l.accounts && input.amount > 0
              && FindBooking(l.bookings, input.booking).Some?
              && (input.key.Some? ==> forall i :: 0 <= i < |l.charges| ==> l.charges[i].id != Keyed(input.key.value))
              && (var total := FindBooking(l.bookings, input.booking).value.total;
                  total == TOP || Charged(l.charges, input.booking) + input.amount <= total)
    ensures Take(l, input, id).New? ==>
              && Take(l, input, id).charge ==
                   Charge(if input.key.Some? then Keyed(input.key.value) else Minted(id), input.account, input.booking, input.amount)
              && Apply(l, ToCharge(input, id)) == l.(charges := l.charges + [Take(l, input, id).charge])
    ensures !Take(l, input, id).New? ==> Apply(l, ToCharge(input, id)) == l
  {
    if input.account in l.accounts && input.amount > 0 && FindBooking(l.bookings, input.booking).Some?
       && (input.key.Some? ==> FindCharge(l.charges, Keyed(input.key.value)).None?) {
      RefusedAsTooMuchIff(l, input, id);
    }
  }

  /** Which of the refusals, and a booking or a reset, of which the one adds its stay
      and the other clears them all; charges stay. */
  lemma OtherwiseRefused(l: Ledger, input: NewCharge, id: Id)
    ensures input.account !in l.accounts ==> Take(l, input, id) == Refused(NoSuchAccount)
    ensures input.account in l.accounts && input.amount == 0 ==> Take(l, input, id) == Refused(ForNothing)
    ensures input.account in l.accounts && input.amount > 0 && FindBooking(l.bookings, input.booking).None? ==>
              Take(l, input, id) == Refused(NoSuchBooking)
    ensures Take(l, input, id).Refused? ==>
              var why := Take(l, input, id).why;
              && (why == KeyUsed ==> input.key.Some? && FindCharge(l.charges, Keyed(input.key.value)).Some?)
              && (why == MoreThanTheTotal ==> FindBooking(l.bookings, input.booking).Some?)
              && why in {NoSuchAccount, ForNothing, NoSuchBooking, KeyUsed, MoreThanTheTotal}
    ensures Apply(l, ToReset) == Ledger(l.rooms, l.accounts, [], l.charges)
  {
  }

  lemma ABookingIsAdded(l: Ledger, room: Id, arrival: int, departure: int, today: int, id: Id)
    ensures var after, r := Apply(l, ToBook(room, arrival, departure, today, id)), Book(l, room, arrival, departure, today, id);
            if r.Ok? then after == l.(bookings := l.bookings + [r.value]) else after == l
    ensures departure <= arrival && FindRoom(l.rooms, room).Some? ==> Book(l, room, arrival, departure, today, id) == Err(DepartsFirst)
    ensures arrival < today && arrival < departure && FindRoom(l.rooms, room).Some? ==>
              Book(l, room, arrival, departure, today, id) == Err(InThePast)
    ensures FindRoom(l.rooms, room).None? ==> Book(l, room, arrival, departure, today, id) == Err(NoSuchRoom)
    ensures FindRoom(l.rooms, room).Some? && today <= arrival < departure && Book(l, room, arrival, departure, today, id).Err? ==>
              Book(l, room, arrival, departure, today, id) == Err(TakenThen)
  {
  }

  // ---- Keys ---------------------------------------------------------------------------------------

  lemma {:induction false} FoundStill(charges: seq<Charge>, more: seq<Charge>, id: ChargeId)
    requires FindCharge(charges, id).Some?
    ensures FindCharge(charges + more, id) == FindCharge(charges, id)
    decreases |charges|
  {
    assert (charges + more)[0] == charges[0] && (charges + more)[1..] == charges[1..] + more;
    if charges[0].id != id { FoundStill(charges[1..], more, id); }
  }

  lemma {:induction false} FoundAfterAnything(l: Ledger, rs: seq<Request>, id: ChargeId)
    requires FindCharge(l.charges, id).Some?
    ensures FindCharge(After(l, rs).charges, id) == FindCharge(l.charges, id)
    ensures After(l, rs).accounts == l.accounts
    decreases |rs|
  {
    if rs != [] {
      var after := Apply(l, rs[0]);
      assert after.charges == l.charges || exists c :: after.charges == l.charges + [c] by {
        if rs[0].ToCharge? && Take(l, rs[0].input, rs[0].id).New? {
          assert after.charges == l.charges + [Take(l, rs[0].input, rs[0].id).charge];
        }
      }
      if after.charges != l.charges {
        var c :| after.charges == l.charges + [c];
        FoundStill(l.charges, [c], id);
      }
      FoundAfterAnything(after, rs[1..], id);
    }
  }

  /** A charge made with a key is made once: asked for again, whatever has happened
      since, it changes nothing, and the answer is the charge first made -- while
      its booking is still there to be found. */
  lemma AKeyIsChargedOnce(l: Ledger, input: NewCharge, id: Id, rs: seq<Request>, again: Id)
    requires input.key.Some? && Take(l, input, id).New?
    ensures var made := Take(l, input, id).charge;
            var later := After(Apply(l, ToCharge(input, id)), rs);
            && Apply(later, ToCharge(input, again)) == later
            && Take(later, input, again) == if FindBooking(later.bookings, input.booking).Some? then Already(made) else Refused(NoSuchBooking)
  {
    var made := Take(l, input, id).charge;
    var after := Apply(l, ToCharge(input, id));
    FoundAtTheEnd(l.charges, made);
    FoundAfterAnything(after, rs, made.id);
    hide After;
    AKeyAlreadyUsed(After(after, rs), input, made, again);
  }

  lemma AKeyAlreadyUsed(l: Ledger, input: NewCharge, made: Charge, again: Id)
    requires input.account in l.accounts && input.amount > 0 && input.key.Some?
    requires made == Charge(Keyed(input.key.value), input.account, input.booking, input.amount)
    requires FindCharge(l.charges, made.id) == Some(made)
    ensures Apply(l, ToCharge(input, again)) == l
    ensures Take(l, input, again) == if FindBooking(l.bookings, input.booking).Some? then Already(made) else Refused(NoSuchBooking)
  {
  }

  lemma {:induction false} FoundAtTheEnd(charges: seq<Charge>, c: Charge)
    requires FindCharge(charges, c.id).None?
    ensures FindCharge(charges + [c], c.id) == Some(c)
    decreases |charges|
  {
    if charges != [] {
      assert (charges + [c])[0] == charges[0] && (charges + [c])[1..] == charges[1..] + [c];
      forall i | 0 <= i < |charges| - 1 ensures charges[1..][i].id != c.id { assert charges[1..][i] == charges[i + 1]; }
      FoundAtTheEnd(charges[1..], c);
    }
  }

  /** And the same key for anything else is refused, and changes nothing. */
  lemma AKeyIsForOneCharge(l: Ledger, input: NewCharge, id: Id, rs: seq<Request>, other: NewCharge, again: Id)
    requires input.key.Some? && Take(l, input, id).New?
    requires other.key == input.key && other != input
    ensures var later := After(Apply(l, ToCharge(input, id)), rs);
            && Apply(later, ToCharge(other, again)) == later && Take(later, other, again).Refused?
            && (other.account in later.accounts && other.amount > 0 && FindBooking(later.bookings, other.booking).Some? ==>
                  Take(later, other, again) == Refused(KeyUsed))
  {
    var made := Take(l, input, id).charge;
    FoundAtTheEnd(l.charges, made);
    FoundAfterAnything(Apply(l, ToCharge(input, id)), rs, made.id);
  }

  // ---- The service -------------------------------------------------------------------------------

  /** What the service holds: its rooms and cards for good, and the bookings and
      charges its requests add to and clear, each under its lock. */
  class Fixture {
    const rooms: seq<Room>
    const accounts: set<Id>
    var bookings: seq<Booking>
    var charges: seq<Charge>

    ghost function Now(): Ledger
      reads this
    {
      Ledger(rooms, accounts, bookings, charges)
    }

    constructor (rooms: seq<Room>, accounts: set<Id>)
      ensures Now() == Ledger(rooms, accounts, [], []) && Valid(Now())
    {
      this.rooms, this.accounts := rooms, accounts;
      bookings, charges := [], [];
    }

    method CreateBooking(room: Id, arrival: int, departure: int, today: int, id: Id) returns (r: Result<Booking, Refusal>)
      requires Valid(Now()) && Fresh(Now(), ToBook(room, arrival, departure, today, id))
      modifies this`bookings
      ensures Valid(Now()) && Now() == Apply(old(Now()), ToBook(room, arrival, departure, today, id))
      ensures r == Book(old(Now()), room, arrival, departure, today, id)
    {
      BookKeepsValid(Now(), ToBook(room, arrival, departure, today, id));
      var found := FindRoom(rooms, room);
      if found.None? {
        return Err(NoSuchRoom);
      }
      var problem := StayProblem(arrival, departure, today);
      if problem.Some? {
        return Err(problem.value);
      }
      var i := 0;
      while i < |bookings|
        invariant i <= |bookings| && bookings == old(bookings)
        invariant forall k :: 0 <= k < i ==> !Overlaps(bookings[k], room, arrival, departure)
      {
        if Overlaps(bookings[i], room, arrival, departure) {
          return Err(TakenThen);
        }
        i := i + 1;
      }
      var booking := Booking(id, room, arrival, departure, TotalOf(found.value.rate, arrival, departure));
      bookings := bookings + [booking];
      return Ok(booking);
    }

    /** What is already charged, summed as a release build sums: round the top. */
    method Already(booking: Id) returns (sum: Word)
      ensures sum == Charged(charges, booking) % WORD
    {
      sum := 0;
      var i := 0;
      while i < |charges|
        invariant i <= |charges|
        invariant sum == Charged(charges[..i], booking) % WORD
      {
        assert charges[..i + 1][..i] == charges[..i];
        if charges[i].booking == booking {
          sum := (sum + charges[i].amount) % WORD;
        }
        i := i + 1;
      }
      assert charges[..i] == charges;
    }

    method CreateCharge(input: NewCharge, id: Id) returns (r: Taken)
      requires Valid(Now()) && Fresh(Now(), ToCharge(input, id))
      modifies this`charges
      ensures Valid(Now()) && Now() == Apply(old(Now()), ToCharge(input, id))
      ensures r == Take(old(Now()), input, id)
    {
      ChargeKeepsValid(Now(), ToCharge(input, id));
      if input.account !in accounts {
        return Refused(NoSuchAccount);
      }
      if input.amount == 0 {
        return Refused(ForNothing);
      }
      var booking := FindBooking(bookings, input.booking);
      if booking.None? {
        return Refused(NoSuchBooking);
      }
      if input.key.Some? {
        var seen := FindCharge(charges, Keyed(input.key.value));
        if seen.Some? {
          if seen.value.account == input.account && seen.value.booking == input.booking && seen.value.amount == input.amount {
            return Taken.Already(seen.value);
          }
          return Refused(KeyUsed);
        }
      }
      var already := Already(input.booking);
      if SaturatingAdd(input.amount, already) > booking.value.total {
        return Refused(MoreThanTheTotal);
      }
      var charge := Charge(if input.key.Some? then Keyed(input.key.value) else Minted(id), input.account, input.booking, input.amount);
      charges := charges + [charge];
      return New(charge);
    }

    method Reset()
      requires Valid(Now())
      modifies this`bookings
      ensures Valid(Now()) && Now() == Apply(old(Now()), ToReset)
    {
      ResetKeepsValid(Now());
      bookings := [];
    }
  }
}
