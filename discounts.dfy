/**
 * The two percentage discounts of the shop (`ItemPercentageDiscount` and
 * `CartPercentageDiscount`) and the ordered application of a list of them.
 * Prices are `BigDecimal` values combined only by exact addition, subtraction
 * and multiplication, so they are modelled as `real`.
 */
module Discounts {
  import opened Wrappers

  /** A percentage written as a fraction of one: 0.25 takes a quarter off. */
  type Fraction = p: real | 0.0 <= p <= 1.0

  /** The message of the `IllegalArgumentException` that the item discount throws. */
  const InvalidPercentageMessage := "Discount must be a percentage in double format between 0 and 1 (e.g. 0.25)"

  /**
   * A discount. An item discount can only hold a percentage its constructor
   * accepted; a cart discount holds whatever it was given.
   */
  datatype Discount =
    | ItemPercentage(itemPercentage: Fraction)
    | CartPercentage(cartPercentage: real)
  {
    function Percentage(): real {
      match this
      case ItemPercentage(p) => p
      case CartPercentage(p) => p
    }

    /** `apply`: both kinds take the percentage's share of the price off it. */
    function Apply(originalPrice: real): (discounted: real)
      ensures originalPrice - discounted == originalPrice * Percentage()
    {
      originalPrice * (1.0 - Percentage())
    }
  }

  /** `new ItemPercentageDiscount(percentage)`: refuses a percentage outside [0, 1]. */
  function NewItemPercentageDiscount(percentage: real): (r: Result<Discount, string>)
    ensures r.Err? <==> percentage < 0.0 || 1.0 < percentage
    ensures r.Err? ==> r.error == InvalidPercentageMessage
    ensures r.Ok? ==> r.value.ItemPercentage? && r.value.Percentage() == percentage
  {
    if percentage < 0.0 || percentage > 1.0 then Err(InvalidPercentageMessage)
    else Ok(ItemPercentage(percentage))
  }

  /** `new CartPercentageDiscount(percentage)`: accepts every percentage. */
  function NewCartPercentageDiscount(percentage: real): (d: Discount)
    ensures d.CartPercentage? && d.Percentage() == percentage
  {
    CartPercentage(percentage)
  }

  /** The boundaries 0 and 1 are accepted, because both comparisons are strict. */
  lemma ItemPercentageBoundsAccepted()
    ensures NewItemPercentageDiscount(0.0) == Ok(ItemPercentage(0.0))
    ensures NewItemPercentageDiscount(1.0) == Ok(ItemPercentage(1.0))
  {
  }

  /** Both discount kinds compute the same price for the same percentage. */
  lemma CartAndItemDiscountAgree(p: Fraction, x: real)
    ensures CartPercentage(p).Apply(x) == ItemPercentage(p).Apply(x) == x * (1.0 - p)
  {
  }

  /** A zero percentage leaves the price as it is; a full one makes it free. */
  lemma ApplyAtBoundaries(d: Discount, x: real)
    ensures d.Percentage() == 0.0 ==> d.Apply(x) == x
    ensures d.Percentage() == 1.0 ==> d.Apply(x) == 0.0
  {
  }

  /** An accepted item discount never raises a price and never makes it negative. */
  lemma ItemDiscountWithinPrice(d: Discount, x: real)
    requires d.ItemPercentage? && 0.0 <= x
    ensures 0.0 <= d.Apply(x) <= x
  {
    var p := d.Percentage();
    assert 0.0 <= 1.0 - p <= 1.0;
    assert x * (1.0 - p) <= x * 1.0 by {
      assert x * 1.0 - x * (1.0 - p) == x * p;
    }
  }

  /** The cart discount has no guard: more than 100% off turns a positive price negative. */
  lemma CartDiscountOverFullGoesNegative(p: real, x: real)
    requires 1.0 < p && 0.0 < x
    ensures NewCartPercentageDiscount(p).Apply(x) < 0.0
  {
    assert x * (1.0 - p) == -(x * (p - 1.0));
  }

  /** Two discounts in a row scale the price by both factors, so their order does not matter. */
  lemma ApplyTwiceCommutes(d: Discount, e: Discount, x: real)
    ensures e.Apply(d.Apply(x)) == x * (1.0 - d.Percentage()) * (1.0 - e.Percentage())
    ensures e.Apply(d.Apply(x)) == d.Apply(e.Apply(x))
  {
  }

  /**
   * The for-loop of `Item.getPrice` and `ShoppingCart.getTotalPrice`:
   * the discounts applied to `price` one after the other, first added first.
   */
  function ApplyAll(price: real, ds: seq<Discount>): real
  {
    if ds == [] then price else ds[|ds| - 1].Apply(ApplyAll(price, ds[..|ds| - 1]))
  }

  /** Applying a list of discounts is applying its two halves in turn. */
  lemma {:induction false} ApplyAllAppend(price: real, ds: seq<Discount>, es: seq<Discount>)
    ensures ApplyAll(price, ds + es) == ApplyAll(ApplyAll(price, ds), es)
  {
    if es == [] {
      assert ds + es == ds;
    } else {
      var init := es[..|es| - 1];
      assert (ds + es)[..|ds + es| - 1] == ds + init;
      ApplyAllAppend(price, ds, init);
    }
  }

  /** A single discount is applied once. */
  lemma ApplyAllOne(price: real, d: Discount)
    ensures ApplyAll(price, [d]) == d.Apply(price)
  {
    assert [d][..0] == [];
  }

  /** The first discount added is applied first. */
  lemma ApplyAllInOrder(price: real, d: Discount, e: Discount)
    ensures ApplyAll(price, [d, e]) == e.Apply(d.Apply(price))
  {
    assert [d, e][..1] == [d];
    assert [d][..0] == [];
    assert ApplyAll(price, [d]) == d.Apply(ApplyAll(price, []));
  }

  /** Swapping two neighbouring discounts does not change the result. */
  lemma ApplyAllSwap(price: real, ds: seq<Discount>, d: Discount, e: Discount, es: seq<Discount>)
    ensures ApplyAll(price, ds + [d, e] + es) == ApplyAll(price, ds + [e, d] + es)
  {
    var before := ApplyAll(price, ds);
    ApplyAllAppend(price, ds + [d, e], es);
    ApplyAllAppend(price, ds, [d, e]);
    ApplyAllAppend(price, ds + [e, d], es);
    ApplyAllAppend(price, ds, [e, d]);
    ApplyAllInOrder(before, d, e);
    ApplyAllInOrder(before, e, d);
    ApplyTwiceCommutes(d, e, before);
  }

  /** A price of zero stays zero whatever percentage discounts follow. */
  lemma {:induction false} ApplyAllToZero(ds: seq<Discount>)
    ensures ApplyAll(0.0, ds) == 0.0
  {
    if ds != [] {
      ApplyAllToZero(ds[..|ds| - 1]);
    }
  }

  /** Item discounts alone keep a non-negative price between zero and where it started. */
  lemma {:induction false} ItemDiscountsWithinPrice(price: real, ds: seq<Discount>)
    requires 0.0 <= price
    requires forall i :: 0 <= i < |ds| ==> ds[i].ItemPercentage?
    ensures 0.0 <= ApplyAll(price, ds) <= price
  {
    if ds != [] {
      var init := ds[..|ds| - 1];
      ItemDiscountsWithinPrice(price, init);
      ItemDiscountWithinPrice(ds[|ds| - 1], ApplyAll(price, init));
    }
  }
}
