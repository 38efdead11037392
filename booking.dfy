/**
 * The booking coordinator's contract (`bookRoom`, `cancelBooking`,
 * `getAvailableRooms`) as its tests state it, with `Room` left abstract: a
 * room answers `isAvailable` by rules outside this model and holds its
 * bookings by id. The clock, the room repository and the notification
 * service are collaborators: the current instant and the repository's rooms
 * are inputs. The calls on the clock, the repository and the notification
 * service, and the changes made to a room's bookings, are recorded in order
 * as a trace of effects; a room's queries (`isAvailable`, `hasBooking`,
 * `getBooking`) and a booking's getters are not.
 */
module Bookings {
  import opened Wrappers

  /** A point in time; calendar arithmetic is not part of this model. */
  type Instant = int

  /** An immutable reservation of one room for one window. */
  datatype Booking = Booking(id: string, roomId: string, startTime: Instant, endTime: Instant)

  class Room {
    const id: string
    /** The answer `isAvailable(start, end)` gives; how a room decides is not part of this model. */
    const availability: (Instant, Instant) -> bool
    /** The room's bookings, by id. */
    var bookings: map<string, Booking>

    constructor (id: string, availability: (Instant, Instant) -> bool, bookings: map<string, Booking>)
      ensures this.id == id && this.availability == availability && this.bookings == bookings
    {
      this.id := id;
      this.availability := availability;
      this.bookings := bookings;
    }

    function IsAvailable(start: Instant, end: Instant): bool
    {
      availability(start, end)
    }

    /** Every booking is filed under its own id and belongs to this room. */
    ghost predicate Valid()
      reads this
    {
      forall k :: k in bookings ==> bookings[k].id == k && bookings[k].roomId == id
    }

    /** `hasBooking(id)`: whether the room holds a booking with that id. */
    function HasBooking(bookingId: string): (held: bool)
      reads this
      ensures Valid() ==> (held <==> exists k :: k in bookings && bookings[k].id == bookingId)
    {
      bookingId in bookings
    }

    /** `getBooking(id)`: the room's booking with that id. */
    function GetBooking(bookingId: string): (b: Booking)
      reads this
      requires HasBooking(bookingId)
      ensures b in bookings.Values
      ensures Valid() ==> b.id == bookingId && b.roomId == id
    {
      bookings[bookingId]
    }

    /** `addBooking`: files the booking under its id; no availability check is made here. */
    method AddBooking(booking: Booking)
      modifies this
      ensures bookings == old(bookings)[booking.id := booking]
      ensures old(Valid()) && booking.roomId == id ==> Valid()
    {
      bookings := bookings[booking.id := booking];
    }

    /** `removeBooking`: drops the booking with that id, if any. */
    method RemoveBooking(bookingId: string)
      modifies this
      ensures bookings == old(bookings) - {bookingId}
      ensures old(Valid()) ==> Valid()
    {
      bookings := bookings - {bookingId};
    }
  }

  /** A call on the clock, the repository or the notification service, or a change to a room's bookings. */
  datatype Effect =
    | ReadClock
    | FindById(roomId: string)
    | FindAll
    | AddBooking(room: Room, booking: Booking)
    | RemoveBooking(room: Room, bookingId: string)
    | Save(room: Room)
    | SendBookingConfirmation(booking: Booking)
    | SendCancellationConfirmation(booking: Booking)

  datatype ErrorKind = IllegalArgument | IllegalState

  /** A thrown exception: its kind and its message. */
  datatype Exception = Exception(kind: ErrorKind, message: string)

  /** How a boolean operation ends: it returns, or throws an exception. */
  datatype Outcome = Returned(value: bool) | Thrown(exception: Exception)

  const MissingBookingArguments := "Bokning kräver giltiga start- och sluttider samt rum-id"
  const StartInPast := "Kan inte boka tid i dåtid"
  const EndNotAfterStart := "Sluttid måste vara efter starttid"
  const NoSuchRoom := "Rummet existerar inte"
  const MissingBookingId := "Boknings-id kan inte vara null"
  const AlreadyStarted := "Kan inte avboka påbörjad eller avslutad bokning"
  const MissingWindow := "Måste ange både start- och sluttid"

  /** The repository's `findById`: the first stored room with that id, if any. */
  function FindRoom(store: seq<Room>, roomId: string): (r: Option<Room>)
    ensures r.Some? ==> r.value in store && r.value.id == roomId
    ensures r.None? <==> forall i :: 0 <= i < |store| ==> store[i].id != roomId
  {
    if store == [] then None
    else if store[0].id == roomId then Some(store[0])
    else FindRoom(store[1..], roomId)
  }

  /** Whether no room in the store has changed its bookings. */
  twostate predicate BookingsUnchanged(store: seq<Room>)
    reads store
  {
    forall i :: 0 <= i < |store| ==> store[i].bookings == old(store[i].bookings)
  }

  /** Whether every room of the store keeps its invariant. */
  ghost predicate AllValid(store: seq<Room>)
    reads store
  {
    forall i :: 0 <= i < |store| ==> store[i].Valid()
  }

  /** Whether every room of the store except `room` has kept its bookings. */
  twostate predicate OthersUnchanged(store: seq<Room>, room: Room)
    reads store
  {
    forall i :: 0 <= i < |store| && store[i] != room ==> store[i].bookings == old(store[i].bookings)
  }

  /**
   * `bookRoom(roomId, start, end)` at instant `now`. A new booking gets the id
   * `newBookingId`, and `notificationFails` says whether the booking
   * confirmation throws `NotificationException`.
   */
  method BookRoom(store: seq<Room>, now: Instant, newBookingId: string, notificationFails: bool,
                  roomId: Option<string>, start: Option<Instant>, end: Option<Instant>)
    returns (outcome: Outcome, trace: seq<Effect>)
    modifies store
    // A missing argument is refused before anything is asked.
    ensures roomId.None? || start.None? || end.None? ==>
      outcome == Thrown(Exception(IllegalArgument, MissingBookingArguments)) && trace == [] && BookingsUnchanged(store)
    // A start before now is refused after reading the clock, before the repository.
    ensures roomId.Some? && start.Some? && end.Some? && start.value < now ==>
      outcome == Thrown(Exception(IllegalArgument, StartInPast)) && trace == [ReadClock] && BookingsUnchanged(store)
    // So is a window that does not end after it starts.
    ensures roomId.Some? && start.Some? && end.Some? && now <= start.value && end.value <= start.value ==>
      outcome == Thrown(Exception(IllegalArgument, EndNotAfterStart)) && trace == [ReadClock] && BookingsUnchanged(store)
    // A valid request for a room the repository does not have is refused.
    ensures roomId.Some? && start.Some? && end.Some? && now <= start.value < end.value
            && FindRoom(store, roomId.value).None? ==>
      && outcome == Thrown(Exception(IllegalArgument, NoSuchRoom))
      && trace == [ReadClock, FindById(roomId.value)] && BookingsUnchanged(store)
    // An unavailable room answers false and is neither changed nor saved.
    ensures roomId.Some? && start.Some? && end.Some? && now <= start.value < end.value
            && FindRoom(store, roomId.value).Some?
            && !FindRoom(store, roomId.value).value.IsAvailable(start.value, end.value) ==>
      && outcome == Returned(false)
      && trace == [ReadClock, FindById(roomId.value)] && BookingsUnchanged(store)
    // An available room gets exactly one new booking and one save, then the
    // confirmation is attempted; the answer is true whether or not it throws.
    ensures roomId.Some? && start.Some? && end.Some? && now <= start.value < end.value
            && FindRoom(store, roomId.value).Some?
            && FindRoom(store, roomId.value).value.IsAvailable(start.value, end.value) ==>
      var room := FindRoom(store, roomId.value).value;
      var booking := Booking(newBookingId, roomId.value, start.value, end.value);
      && outcome == Returned(true)
      && trace == [ReadClock, FindById(roomId.value), AddBooking(room, booking), Save(room),
                   SendBookingConfirmation(booking)]
      && room.bookings == old(room.bookings)[newBookingId := booking]
      && room.HasBooking(newBookingId)
      && OthersUnchanged(store, room)
    // Every booking stays filed under its id in its own room.
    ensures old(AllValid(store)) ==> AllValid(store)
  {
    trace := [];
    if roomId.None? || start.None? || end.None? {
      return Thrown(Exception(IllegalArgument, MissingBookingArguments)), trace;
    }
    trace := trace + [ReadClock];
    if start.value < now {
      return Thrown(Exception(IllegalArgument, StartInPast)), trace;
    }
    if end.value <= start.value {
      return Thrown(Exception(IllegalArgument, EndNotAfterStart)), trace;
    }
    trace := trace + [FindById(roomId.value)];
    var found := FindRoom(store, roomId.value);
    if found.None? {
      return Thrown(Exception(IllegalArgument, NoSuchRoom)), trace;
    }
    var room := found.value;
    if !room.IsAvailable(start.value, end.value) {
      return Returned(false), trace;
    }
    var booking := Booking(newBookingId, roomId.value, start.value, end.value);
    room.AddBooking(booking);
    trace := trace + [AddBooking(room, booking), Save(room)];
    // The confirmation is attempted either way; a NotificationException is caught and ignored.
    trace := trace + [SendBookingConfirmation(booking)];
    return Returned(true), trace;
  }

  /**
   * The scan of `cancelBooking` over `findAll()`: the position of the first
   * room holding the booking, or `|store|` when none does.
   */
  method FindHoldingRoom(store: seq<Room>, bookingId: string) returns (k: nat)
    ensures k <= |store|
    ensures forall j :: 0 <= j < k ==> !store[j].HasBooking(bookingId)
    ensures k < |store| ==> store[k].HasBooking(bookingId)
  {
    k := 0;
    while k < |store| && !store[k].HasBooking(bookingId)
      invariant k <= |store|
      invariant forall j :: 0 <= j < k ==> !store[j].HasBooking(bookingId)
    {
      k := k + 1;
    }
  }

  /** Whether some room of the store holds the booking. */
  predicate Held(store: seq<Room>, bookingId: string)
    reads store
  {
    exists i :: 0 <= i < |store| && store[i].HasBooking(bookingId)
  }

  /**
   * `cancelBooking(bookingId)` at instant `now`; `notificationFails` says
   * whether the cancellation confirmation throws `NotificationException`.
   */
  method CancelBooking(store: seq<Room>, now: Instant, notificationFails: bool, bookingId: Option<string>)
    returns (outcome: Outcome, trace: seq<Effect>)
    modifies store
    // A missing id is refused and nothing is saved.
    ensures bookingId.None? ==>
      outcome == Thrown(Exception(IllegalArgument, MissingBookingId)) && trace == [] && BookingsUnchanged(store)
    // An id no room holds answers false and nothing is saved.
    ensures bookingId.Some? && !old(Held(store, bookingId.value)) ==>
      outcome == Returned(false) && trace == [FindAll] && BookingsUnchanged(store)
    // A held booking that has already started cannot be cancelled.
    ensures bookingId.Some? && old(Held(store, bookingId.value)) ==>
      exists k :: 0 <= k < |store| && old(store[k].HasBooking(bookingId.value))
        && (forall j :: 0 <= j < k ==> !old(store[j].HasBooking(bookingId.value)))
        && var room := store[k];
           var booking := old(room.GetBooking(bookingId.value));
           if booking.startTime <= now then
             && outcome == Thrown(Exception(IllegalState, AlreadyStarted))
             && trace == [FindAll, ReadClock] && BookingsUnchanged(store)
           else
             // A future booking is removed from the first room holding it and
             // that room saved; the answer is true whether or not the
             // confirmation throws.
             && outcome == Returned(true)
             && trace == [FindAll, ReadClock, RemoveBooking(room, bookingId.value), Save(room),
                          SendCancellationConfirmation(booking)]
             && room.bookings == old(room.bookings) - {bookingId.value}
             && !room.HasBooking(bookingId.value)
             && OthersUnchanged(store, room)
    ensures old(AllValid(store)) ==> AllValid(store)
  {
    trace := [];
    if bookingId.None? {
      return Thrown(Exception(IllegalArgument, MissingBookingId)), trace;
    }
    var id := bookingId.value;
    var k := FindHoldingRoom(store, id);
    if k == |store| {
      return Returned(false), [FindAll];
    }
    var room := store[k];
    var booking := room.GetBooking(id);
    if booking.startTime <= now {
      return Thrown(Exception(IllegalState, AlreadyStarted)), [FindAll, ReadClock];
    }
    room.RemoveBooking(id);
    // The confirmation is attempted either way; a NotificationException is caught and ignored.
    trace := [FindAll, ReadClock, RemoveBooking(room, id), Save(room), SendCancellationConfirmation(booking)];
    assert old(store[k].HasBooking(id)) && forall j :: 0 <= j < k ==> !old(store[j].HasBooking(id));
    return Returned(true), trace;
  }

  /**
   * The rooms of `rooms` that are available for the window: each available
   * room as often as it is stored, each unavailable one not at all, in the
   * order given.
   */
  function AvailableAmong(rooms: seq<Room>, start: Instant, end: Instant): (r: seq<Room>)
    ensures |r| <= |rooms|
    ensures forall i :: 0 <= i < |r| ==> r[i] in rooms && r[i].IsAvailable(start, end)
    ensures (forall i :: 0 <= i < |rooms| ==> rooms[i].IsAvailable(start, end)) ==> r == rooms
  {
    if rooms == [] then []
    else if rooms[0].IsAvailable(start, end) then [rooms[0]] + AvailableAmong(rooms[1..], start, end)
    else AvailableAmong(rooms[1..], start, end)
  }

  /**
   * The filter keeps each available room exactly as often as it is stored and
   * drops every unavailable one.
   */
  lemma {:induction false} AvailableAmongCounts(rooms: seq<Room>, start: Instant, end: Instant)
    ensures multiset(AvailableAmong(rooms, start, end)) <= multiset(rooms)
    ensures forall x :: x in multiset(rooms) ==>
      multiset(AvailableAmong(rooms, start, end))[x]
        == (if x.IsAvailable(start, end) then multiset(rooms)[x] else 0)
  {
    if rooms != [] {
      AvailableAmongCounts(rooms[1..], start, end);
      assert rooms == [rooms[0]] + rooms[1..];
      assert multiset(rooms) == multiset{rooms[0]} + multiset(rooms[1..]);
    }
  }

  /** Filtering keeps the store's order: filtering two lists is filtering each in turn. */
  lemma {:induction false} AvailableAmongAppend(xs: seq<Room>, ys: seq<Room>, start: Instant, end: Instant)
    ensures AvailableAmong(xs + ys, start, end) == AvailableAmong(xs, start, end) + AvailableAmong(ys, start, end)
  {
    if xs == [] {
      assert xs + ys == ys;
    } else {
      assert (xs + ys)[0] == xs[0] && (xs + ys)[1..] == xs[1..] + ys;
      AvailableAmongAppend(xs[1..], ys, start, end);
    }
  }

  /**
   * `getAvailableRooms(start, end)` over the repository's rooms. The window is
   * checked before the repository is asked; the clock is never consulted.
   */
  method GetAvailableRooms(store: seq<Room>, start: Option<Instant>, end: Option<Instant>)
    returns (result: Result<seq<Room>, Exception>, trace: seq<Effect>)
    ensures start.None? || end.None? ==>
      result == Err(Exception(IllegalArgument, MissingWindow)) && trace == []
    ensures start.Some? && end.Some? && end.value <= start.value ==>
      result == Err(Exception(IllegalArgument, EndNotAfterStart)) && trace == []
    ensures start.Some? && end.Some? && start.value < end.value ==>
      && trace == [FindAll]
      && result.Ok?
      && multiset(result.value) <= multiset(store)
      && (forall i :: 0 <= i < |store| ==>
            multiset(result.value)[store[i]]
              == (if store[i].IsAvailable(start.value, end.value) then multiset(store)[store[i]] else 0))
      && (forall i :: 0 <= i < |result.value| ==> result.value[i].IsAvailable(start.value, end.value))
      && result.value == AvailableAmong(store, start.value, end.value)
  {
    if start.None? || end.None? {
      return Err(Exception(IllegalArgument, MissingWindow)), [];
    }
    if end.value <= start.value {
      return Err(Exception(IllegalArgument, EndNotAfterStart)), [];
    }
    trace := [FindAll];
    result := Ok(AvailableAmong(store, start.value, end.value));
    AvailableAmongCounts(store, start.value, end.value);
  }

  /** Three rooms of which one is busy leave two available, and the repository is asked once. */
  method AvailableRoomsExample() returns (count: nat, trace: seq<Effect>)
    ensures count == 2 && trace == [FindAll]
  {
    var free := (s: Instant, e: Instant) => true;
    var busy := (s: Instant, e: Instant) => false;
    var room1 := new Room("room1", free, map[]);
    var room2 := new Room("room2", free, map[]);
    var room3 := new Room("room3", busy, map[]);
    var store := [room1, room2, room3];
    assert room1.IsAvailable(13, 14) && room2.IsAvailable(13, 14) && !room3.IsAvailable(13, 14);
    var result;
    result, trace := GetAvailableRooms(store, Some(13), Some(14));
    // The size follows from the contract: room1 and room2 once each, room3 never.
    assert multiset(result.value)[room1] == 1 && multiset(result.value)[room2] == 1;
    assert multiset(result.value)[room3] == 0;
    assert multiset(result.value) <= multiset{room1, room2, room3};
    assert multiset(result.value) == multiset{room1, room2};
    count := |result.value|;
    assert count == |multiset(result.value)|;
  }
}
