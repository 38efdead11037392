/**
 * The shop's `Item` and `ShoppingCart`. Both keep their lists in place and are
 * shared by reference: the cart holds the very `Item` objects its caller made,
 * so a discount added to an item later still shows in the cart's total.
 */
module Shop {
  import opened Discounts

  class Item {
    const id: string
    /** The base price; it is final and never changes. */
    const price: real
    var discounts: seq<Discount>

    /** `new Item(name, price)`: no discounts yet. */
    constructor (name: string, price: real)
      ensures id == name && this.price == price && discounts == []
    {
      id := name;
      this.price := price;
      discounts := [];
    }

    /** The price after this item's own discounts, applied in the order they were added. */
    function DiscountedPrice(): real
      reads this
    {
      ApplyAll(price, discounts)
    }

    /** `getPrice`: reads the discounts and changes nothing. */
    method GetPrice() returns (discountedPrice: real)
      ensures discountedPrice == DiscountedPrice()
    {
      discountedPrice := price;
      for i := 0 to |discounts|
        invariant discountedPrice == ApplyAll(price, discounts[..i])
      {
        assert discounts[..i + 1][..i] == discounts[..i];
        discountedPrice := discounts[i].Apply(discountedPrice);
      }
      assert discounts[..|discounts|] == discounts;
    }

    /** `addDiscount`: appends one discount; the base price stays. */
    method AddDiscount(discount: Discount)
      modifies this
      ensures discounts == old(discounts) + [discount]
    {
      discounts := discounts + [discount];
    }
  }

  /** Without discounts an item costs its constructor price. */
  lemma UndiscountedItemPrice(item: Item)
    requires item.discounts == []
    ensures item.DiscountedPrice() == item.price
  {
  }

  /** With only item discounts, a non-negative price ends between zero and the base price. */
  lemma ItemPriceWithinBase(item: Item)
    requires 0.0 <= item.price
    requires forall i :: 0 <= i < |item.discounts| ==> item.discounts[i].ItemPercentage?
    ensures 0.0 <= item.DiscountedPrice() <= item.price
  {
    ItemDiscountsWithinPrice(item.price, item.discounts);
  }

  /**
   * The stream reduce of `getTotalPrice`: the items' discounted prices added
   * from `ZERO`, left to right.
   */
  function SumPrices(items: seq<Item>): real
    reads items
  {
    if items == [] then 0.0 else SumPrices(items[..|items| - 1]) + items[|items| - 1].DiscountedPrice()
  }

  /** The sum over two lists is the sum of the two sums. */
  lemma {:induction false} SumPricesAppend(xs: seq<Item>, ys: seq<Item>)
    ensures SumPrices(xs + ys) == SumPrices(xs) + SumPrices(ys)
  {
    if ys == [] {
      assert xs + ys == xs;
    } else {
      var init := ys[..|ys| - 1];
      assert (xs + ys)[..|xs + ys| - 1] == xs + init;
      SumPricesAppend(xs, init);
    }
  }

  /** The position of the first element equal to `x`. */
  function IndexOf<T(==)>(s: seq<T>, x: T): (k: nat)
    requires x in s
    ensures k < |s| && s[k] == x
    ensures forall j :: 0 <= j < k ==> s[j] != x
  {
    if s[0] == x then 0 else 1 + IndexOf(s[1..], x)
  }

  /**
   * `List.remove(Object)`: drops the first element equal to `x` and keeps the
   * rest in order; without one the list is unchanged. `Item` does not override
   * `equals`, so for items this is reference equality, which is what `==` on a
   * Dafny class means.
   */
  function RemoveFirst<T(==)>(s: seq<T>, x: T): (r: seq<T>)
    ensures x !in s ==> r == s
    ensures x in s ==> |r| == |s| - 1 && r == s[..IndexOf(s, x)] + s[IndexOf(s, x) + 1..]
  {
    if s == [] then []
    else if s[0] == x then s[1..]
    else [s[0]] + RemoveFirst(s[1..], x)
  }

  /** Removing an item takes exactly its discounted price off the sum. */
  lemma RemoveFirstSumPrices(items: seq<Item>, item: Item)
    requires item in items
    ensures SumPrices(RemoveFirst(items, item)) == SumPrices(items) - item.DiscountedPrice()
  {
    var k := IndexOf(items, item);
    assert items == items[..k] + [item] + items[k + 1..];
    SumPricesAppend(items[..k] + [item], items[k + 1..]);
    SumPricesAppend(items[..k], [item]);
    SumPricesAppend(items[..k], items[k + 1..]);
    assert [item][..0] == [];
  }

  class ShoppingCart {
    var items: seq<Item>
    var discounts: seq<Discount>

    /** `new ShoppingCart()`: no items, no discounts. */
    constructor ()
      ensures items == [] && discounts == []
    {
      items := [];
      discounts := [];
    }

    /** `addItem`: appends the item at the end and always answers true. */
    method AddItem(item: Item) returns (added: bool)
      modifies this
      ensures added
      ensures items == old(items) + [item] && discounts == old(discounts)
    {
      items := items + [item];
      added := true;
    }

    /** `removeItem`: drops the first occurrence of this very item, if any. */
    method RemoveItem(item: Item)
      modifies this
      ensures items == RemoveFirst(old(items), item) && discounts == old(discounts)
    {
      items := RemoveFirst(items, item);
    }

    /** `getItems`. */
    method GetItems() returns (r: seq<Item>)
      ensures r == items
    {
      r := items;
    }

    /** `addDiscount`: appends a cart discount; the items stay. */
    method AddDiscount(discount: Discount)
      modifies this
      ensures discounts == old(discounts) + [discount] && items == old(items)
    {
      discounts := discounts + [discount];
    }

    /** The cart's total: the items' sum, then the cart discounts in the order they were added. */
    function Total(): real
      reads this, items
    {
      ApplyAll(SumPrices(items), discounts)
    }

    /** `getTotalPrice`: reads the cart and its items and changes nothing. */
    method GetTotalPrice() returns (total: real)
      ensures total == Total()
    {
      total := 0.0;
      for i := 0 to |items|
        invariant total == SumPrices(items[..i])
      {
        assert items[..i + 1][..i] == items[..i];
        var p := items[i].GetPrice();
        total := total + p;
      }
      assert items[..|items|] == items;
      ghost var sum := total;
      for j := 0 to |discounts|
        invariant total == ApplyAll(sum, discounts[..j])
      {
        assert discounts[..j + 1][..j] == discounts[..j];
        total := discounts[j].Apply(total);
      }
      assert discounts[..|discounts|] == discounts;
    }
  }

  /** A cart with no items totals zero, whatever cart discounts it holds. */
  lemma EmptyCartTotalsZero(cart: ShoppingCart)
    requires cart.items == []
    ensures cart.Total() == 0.0
  {
    ApplyAllToZero(cart.discounts);
  }

  /** Without cart discounts, the total is the sum of the items' prices. */
  lemma UndiscountedCartTotal(cart: ShoppingCart)
    requires cart.discounts == []
    ensures cart.Total() == SumPrices(cart.items)
  {
  }

  /** A single item sums to its own price. */
  lemma SumPricesOne(item: Item)
    ensures SumPrices([item]) == item.DiscountedPrice()
  {
    assert [item][..0] == [];
  }

  /** Adding an item to a cart without discounts adds that item's price to the total. */
  lemma AddedItemRaisesSum(items: seq<Item>, item: Item)
    ensures SumPrices(items + [item]) == SumPrices(items) + item.DiscountedPrice()
  {
    SumPricesAppend(items, [item]);
    assert [item][..0] == [];
  }

  /** An item of 300 with 25% off costs 225, and asking twice gives the same answer. */
  method StandaloneItemExample() returns (price: real, again: real, total: real)
    ensures price == again == total == 225.0
  {
    var item := new Item("item", 300.0);
    item.AddDiscount(ItemPercentage(0.25));
    var cart := new ShoppingCart();
    var _ := cart.AddItem(item);
    assert item.discounts == [ItemPercentage(0.25)];
    ApplyAllOne(300.0, ItemPercentage(0.25));
    assert item.DiscountedPrice() == 225.0;
    SumPricesOne(item);
    assert cart.items == [item];
    price := item.GetPrice();
    again := item.GetPrice();
    total := cart.GetTotalPrice();
  }

  /** The arithmetic of the two-item example, on the state it builds. */
  lemma TwoItemCartTotal(cart: ShoppingCart, item1: Item, item2: Item)
    requires cart.items == [item1, item2] && cart.discounts == [CartPercentage(0.10)]
    requires item1.price == 100.0 && item1.discounts == [ItemPercentage(0.10)]
    requires item2.price == 100.0 && item2.discounts == []
    ensures item1.DiscountedPrice() == 90.0 && item2.DiscountedPrice() == 100.0
    ensures cart.Total() == 171.0
  {
    ApplyAllOne(100.0, ItemPercentage(0.10));
    SumPricesOne(item1);
    AddedItemRaisesSum([item1], item2);
    assert [item1] + [item2] == cart.items;
    ApplyAllOne(190.0, CartPercentage(0.10));
  }

  /**
   * Two items of 100, the first with 10% off, and a 10% cart discount:
   * 90 + 100 comes down to 171. The first item's discount leaves the second's
   * price alone.
   */
  method ItemAndCartExample() returns (first: real, second: real, total: real)
    ensures first == 90.0 && second == 100.0 && total == 171.0
  {
    var item1 := new Item("item1", 100.0);
    var item2 := new Item("item2", 100.0);
    item1.AddDiscount(ItemPercentage(0.10));
    var cart := new ShoppingCart();
    var _ := cart.AddItem(item1);
    var _ := cart.AddItem(item2);
    var cartDiscount := NewCartPercentageDiscount(0.10);
    assert cartDiscount == CartPercentage(0.10);
    cart.AddDiscount(cartDiscount);
    assert cart.items == [item1, item2] && cart.discounts == [CartPercentage(0.10)];
    assert item1.discounts == [ItemPercentage(0.10)] && item2.discounts == [];
    TwoItemCartTotal(cart, item1, item2);
    first := item1.GetPrice();
    second := item2.GetPrice();
    total := cart.GetTotalPrice();
  }
}
