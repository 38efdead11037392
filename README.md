# MockingExample core, modelled in Dafny

This project models three small pieces of sequential logic of the MockingExample
repository and proves properties of them with Dafny.

- **Shop pricing** (`discounts.dfy`, `shop.dfy`). An `Item` has a fixed base price
  and a list of discounts, applied in the order they were added. A `ShoppingCart`
  holds items by reference and its own list of cart discounts. Its total is the
  sum of the items' discounted prices, starting from zero, with the cart discounts
  then applied in order. Both percentage discounts compute `x * (1 - p)`. Only the
  item discount's constructor rejects a `p` outside `[0, 1]`. `BigDecimal`
  addition and multiplication are exact, so prices are `real`.
- **Payment decision flow** (`payment.dfy`). `processPayment` checks for null
  arguments, charges once, saves the outcome as `FAILED` or `SUCCESS`, and on
  success attempts a confirmation email whose `NotificationException` is swallowed.
  The payment API's answer and whether the email throws are inputs. The calls on the
  payment API, the repository and the email service are returned as an ordered trace
  of effects. Reading the configured API key is not traced; the key is an input.
- **Booking coordinator contract** (`booking.dfy`). `bookRoom`, `cancelBooking` and
  `getAvailableRooms` as their tests pin them down. A `Room` is abstract: it answers
  `isAvailable(start, end)` from an oracle it was built with and holds its bookings
  by id. Time is an integer instant. The current time, the repository's rooms, the
  new booking's id and whether a notification throws are inputs. All three
  operations return an ordered trace. It records the calls on the clock
  (`getCurrentTime`), the repository (`findById`, `findAll`, `save`) and the notifier,
  and the changes to a room (`addBooking`, `removeBooking`). Those changes are also
  made to the room object in place. The room's queries (`isAvailable`, `hasBooking`,
  `getBooking`) and the booking's getters are not traced.

`wrappers.dfy` holds `Option` (Java's `null`) and `Result` (a constructor that may
throw).

The classes `Item`, `ShoppingCart` and `Room` keep the source's in-place updates.
Their methods say exactly what the new state is. `getPrice` and `getTotalPrice` are
loops proved against the functions `Item.DiscountedPrice` and `ShoppingCart.Total`.
The lemmas about those functions state what the source promises.

## Model

| member | source | states |
|---|---|---|
| `Discounts.NewItemPercentageDiscount` | src/main/java/com/example/shop/ItemPercentageDiscount.java:9-16 | throws with the fixed message exactly when `p < 0` or `p > 1`; otherwise builds an item discount holding `p` |
| `Discounts.Discount.Apply` | src/main/java/com/example/shop/ItemPercentageDiscount.java:18-20 | `apply` takes exactly `percentage * price` off the price, for both discount kinds (the cart kind is CartPercentageDiscount.java:13-15) |
| `Discounts.ItemPercentageBoundsAccepted` | src/main/java/com/example/shop/ItemPercentageDiscount.java:10 | the boundaries `p = 0` and `p = 1` are accepted |
| `Discounts.NewCartPercentageDiscount` | src/main/java/com/example/shop/CartPercentageDiscount.java:8-10 | never throws; any percentage, also negative or above 1, is kept |
| `Discounts.CartAndItemDiscountAgree` | src/main/java/com/example/shop/CartPercentageDiscount.java:13-15 | both discount kinds give `x * (1 - p)` for the same `p` |
| `Discounts.ApplyAtBoundaries` | src/main/java/com/example/shop/ItemPercentageDiscount.java:19-21 | `p = 0` leaves the price unchanged; `p = 1` makes it 0 |
| `Discounts.ItemDiscountWithinPrice` | src/main/java/com/example/shop/ItemPercentageDiscount.java:10-21 | an accepted item discount on `x >= 0` gives a result in `[0, x]` |
| `Discounts.CartDiscountOverFullGoesNegative` | src/main/java/com/example/shop/CartPercentageDiscount.java:8-15 | with no guard, `p > 1` and `x > 0` give a negative price |
| `Discounts.ApplyTwiceCommutes` | src/main/java/com/example/shop/CartPercentageDiscount.java:13-15 | `p` then `q` gives `x(1-p)(1-q)`, the same as `q` then `p` |
| `Discounts.ApplyAllOne` | src/main/java/com/example/shop/Item.java:19-21 | one discount in the list is applied once to the price |
| `Discounts.ApplyAllInOrder` | src/main/java/com/example/shop/ShoppingCart.java:33-35 | the discount added first is applied first |
| `Discounts.ApplyAllAppend` | src/main/java/com/example/shop/ShoppingCart.java:33-35 | folding a list of discounts is folding its two halves in turn |
| `Discounts.ApplyAllSwap` | src/main/java/com/example/shop/ShoppingCart.java:33-35 | swapping two neighbouring discounts does not change the result |
| `Discounts.ApplyAllToZero` | src/main/java/com/example/shop/ShoppingCart.java:28-35 | a price of zero stays zero under any list of discounts |
| `Discounts.ItemDiscountsWithinPrice` | src/main/java/com/example/shop/Item.java:17-23 | a list of item discounts keeps a price `>= 0` within `[0, price]` |
| `Shop.Item.constructor` | src/main/java/com/example/shop/Item.java:12-15 | the item keeps the given name and base price, with no discounts |
| `Shop.Item.GetPrice` | src/main/java/com/example/shop/Item.java:17-23 | the loop returns the base price with the item's discounts folded over it in order; it changes no state, so two calls agree |
| `Shop.Item.AddDiscount` | src/main/java/com/example/shop/Item.java:25-27 | appends exactly one discount; the base price is a constant |
| `Shop.UndiscountedItemPrice` | src/main/java/com/example/shop/Item.java:17-23 | with no discounts the price is the constructor price |
| `Shop.ItemPriceWithinBase` | src/main/java/com/example/shop/Item.java:17-23 | with only item discounts and a base price `>= 0`, `0 <= getPrice() <= price` |
| `Shop.SumPricesAppend` | src/main/java/com/example/shop/ShoppingCart.java:28-30 | the summed prices of two item lists is the sum of the two sums |
| `Shop.RemoveFirst` | src/main/java/com/example/shop/ShoppingCart.java:19-21 | the list without its first element equal to the item, others in order; unchanged, same length, if absent; one shorter if present |
| `Shop.RemoveFirstSumPrices` | src/main/java/com/example/shop/ShoppingCart.java:19-30 | removing a present item lowers the summed prices by exactly its price |
| `Shop.AddedItemRaisesSum` | src/main/java/com/example/shop/ShoppingCart.java:14-30 | an appended item adds exactly its price to the summed prices |
| `Shop.ShoppingCart.constructor` | src/main/java/com/example/shop/ShoppingCart.java:11-12 | a new cart has no items and no discounts |
| `Shop.ShoppingCart.AddItem` | src/main/java/com/example/shop/ShoppingCart.java:14-17 | appends the item at the end and returns true; discounts unchanged |
| `Shop.ShoppingCart.RemoveItem` | src/main/java/com/example/shop/ShoppingCart.java:19-21 | the items become `RemoveFirst` of the old items (by reference); discounts unchanged |
| `Shop.ShoppingCart.GetItems` | src/main/java/com/example/shop/ShoppingCart.java:23-25 | returns the cart's items |
| `Shop.ShoppingCart.AddDiscount` | src/main/java/com/example/shop/ShoppingCart.java:40-42 | appends one cart discount; items unchanged |
| `Shop.ShoppingCart.GetTotalPrice` | src/main/java/com/example/shop/ShoppingCart.java:27-38 | the two loops return the items' prices summed from zero, with the cart discounts then folded in order; changes neither list nor any item |
| `Shop.EmptyCartTotalsZero` | src/main/java/com/example/shop/ShoppingCart.java:27-38 | a cart with no items totals 0, whatever its discounts |
| `Shop.UndiscountedCartTotal` | src/main/java/com/example/shop/ShoppingCart.java:28-30 | without cart discounts the total is the sum of the items' prices |
| `Shop.StandaloneItemExample` | src/test/java/com/example/ShoppingCartTest.java:71-79 | 300 with 25% off is 225, from the item and from the cart |
| `Shop.TwoItemCartTotal` | src/test/java/com/example/ShoppingCartTest.java:81-102 | items at 90 and 100 with a 10% cart discount total 171 |
| `Shop.ItemAndCartExample` | src/test/java/com/example/ShoppingCartTest.java:81-102 | the discounted item costs 90, the other item still costs 100, and the cart totals 171 |
| `Payment.PaymentStatus.Name` | src/main/java/com/example/payment/PaymentProcessor.java:34-38 | `name()` is "FAILED" exactly for `FAILED` and "SUCCESS" exactly for `SUCCESS` |
| `Payment.ProcessPayment` | src/main/java/com/example/payment/PaymentProcessor.java:24-47 | null email or amount: `IllegalArgument` and no effects. Otherwise exactly one charge comes first, with the key and amount. Declined: one `FAILED` save, `PaymentException(amount)`, no email. Success: one `SUCCESS` save, then the email, then `true`, whether or not the email throws. A thrown charge propagates with no save. It never returns false and never saves both statuses |
| `Bookings.Room.constructor` | src/test/java/com/example/BookingSystemTest.java:229-235 | a room with the given id, availability answer and bookings |
| `Bookings.Room.HasBooking` | src/test/java/com/example/BookingSystemTest.java:189-191 | for a room whose bookings are filed under their own ids, true exactly when it holds a booking with that id |
| `Bookings.Room.GetBooking` | src/test/java/com/example/BookingSystemTest.java:187-192 | returns one of the room's bookings; for a room whose bookings are filed under their own ids, the one with that id, belonging to this room |
| `Bookings.Room.AddBooking` | src/test/java/com/example/BookingSystemTest.java:79 | the room holds the booking under its id afterwards, other bookings unchanged; a booking for this room keeps the room's invariant |
| `Bookings.Room.RemoveBooking` | src/test/java/com/example/BookingSystemTest.java:221 | the room no longer holds that id; other bookings stay; the room's invariant is kept |
| `Bookings.FindRoom` | src/test/java/com/example/BookingSystemTest.java:108-110 | finds a stored room with that id, or none exactly when no stored room has it |
| `Bookings.BookRoom` | src/test/java/com/example/BookingSystemTest.java:71-158 | missing argument, start before now, end not after start and unknown room each throw `IllegalArgumentException` with their own message, in that order, before any room changes. Unavailable room: false, no change, no save. Available room: true, exactly one `addBooking` of the new booking then one `save`, then the confirmation, whose failure changes nothing. Every room keeps its invariant |
| `Bookings.FindHoldingRoom` | src/test/java/com/example/BookingSystemTest.java:170-195 | the linear scan returns the first room holding the id, or the end of the list when none does |
| `Bookings.CancelBooking` | src/test/java/com/example/BookingSystemTest.java:160-223 | null id: `IllegalArgumentException`, no save. Id held by no room: false, no save. Booking already started: `IllegalStateException`, no change. Future booking: removed from the first room holding it, that room saved, confirmation attempted, true even if it fails. Every room keeps its invariant |
| `Bookings.AvailableAmong` | src/test/java/com/example/BookingSystemTest.java:228-245 | every room kept is a stored room and is available, the result is no longer than the store, and all rooms are kept when every one is available |
| `Bookings.AvailableAmongCounts` | src/test/java/com/example/BookingSystemTest.java:228-245 | each available room is kept exactly as often as it is stored and each unavailable one is dropped |
| `Bookings.AvailableAmongAppend` | src/test/java/com/example/BookingSystemTest.java:237-239 | filtering two lists is filtering each in turn, so the store's order is kept |
| `Bookings.GetAvailableRooms` | src/test/java/com/example/BookingSystemTest.java:226-265 | a null bound throws `IllegalArgumentException` with "Måste ange både start- och sluttid", and an end not after the start throws it with "Sluttid måste vara efter starttid"; neither asks the repository. Otherwise one `findAll`, which returns the available stored rooms, each as often as stored and in store order |
| `Bookings.AvailableRoomsExample` | src/test/java/com/example/BookingSystemTest.java:228-245 | three rooms with one busy give two available rooms, found with one `findAll`; the size follows from the contract |

## Where the tests and the code disagree

The model follows the code, not these tests:

- `Item` has only the two-argument constructor. The quantity operations that
  src/test/java/com/example/ShoppingCartTest.java:104-130 uses (`increaseQuantity`,
  `decreaseQuantity`, `getQuantity`, a three-argument constructor) do not exist,
  and `getTotalPrice` ignores quantity.
- `processPayment` has no "Amount must be positive" check
  (src/test/java/com/example/PaymentProcessorTest.java:55-62). A zero or negative
  amount is charged like any other.
- When `charge` throws, `processPayment` neither wraps the exception in
  `PaymentException` nor saves `FAILED`
  (src/test/java/com/example/PaymentProcessorTest.java:126-145). The model returns
  `ChargeThrew` with only the charge in the trace.

`BookingSystem`, `Room`, `Booking`, `RoomRepository`, `TimeProvider` and
`NotificationService` are not part of this model as source: the booking half is
the contract `BookingSystemTest.java` asserts. A room's bookings are kept under
their own ids and belong to that room (`Room.Valid`); both booking operations keep
this invariant. Where no test pins a choice down, the model chooses:
- `bookRoom` checks for a start before now before it checks that the end comes after the start;
- a booking may start exactly now;
- a window must end strictly after it starts (`end == start` is refused);
- a booking that starts exactly now can no longer be cancelled;
- the cancellation scan takes the first room that holds the id;
- where calls fall in the traces: `bookRoom` reads the clock only after its null check, and
  `cancelBooking` reads it only once the scan has found the booking, so an unknown id
  leaves just `[FindAll]`. The tests verify these calls without `InOrder`, so the order
  `addBooking`, `save`, confirmation (and `removeBooking`, `save`, confirmation) is the
  model's choice too.

`Discount.java` is not part of this model either. The `Discount` datatype stands
for its two implementations.

## Left out

- `Room.isAvailable`: its overlap rules are left abstract (a fixed answer per room). The model claims nothing about half-open windows or back-to-back bookings, and nothing links a room's bookings to its later availability answers.
- Bookings.BookRoom: the new booking's id is an input and is not checked for freshness; `addBooking` stores it under that id.
- The clock, the repository and the notifier are inputs and trace entries. A failing `save` is not modelled, nor any exception other than `NotificationException` from a notifier or email service, or one thrown by `charge`.
- The load-modify-save race between concurrent bookings: the repository is single-threaded.
- `LocalDateTime` calendar arithmetic: instants are integers.
- `BigDecimal` scale, rounding mode and `equals` against `compareTo`: prices are exact reals, compared by value.
- Payment.ProcessPayment: the text of `PaymentException` is "Payment failed with amount: " followed by `BigDecimal.toString()` of the amount. The model carries the amount, not the rendered text.
- Shop.ShoppingCart.GetItems: the source returns the live list, so a caller could change the cart through it; the model returns a copy of the sequence.
- The stale duplicates of `Item` and `ShoppingCart` under src/test/java/com/example/shop/ are not modelled.
- JUnit and Mockito mechanics.
