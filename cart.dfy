/** The cart aggregate (`CartService`): an ordered sequence of cart lines that every
    operation replaces wholesale, with the item count and the total price derived
    from it on every read. */
module Cart {
  import opened Seqs
  import opened Models

  function Quantity(item: CartItem): int
  {
    item.quantity
  }

  function LineTotal(item: CartItem): int
  {
    item.product.price * item.quantity
  }

  /** `itemCount`: the quantities of all lines added up. */
  function SumQuantities(items: seq<CartItem>): int
  {
    SumBy(items, Quantity)
  }

  /** `totalPrice`: unit price times quantity, added up over the lines. */
  function SumLineTotals(items: seq<CartItem>): int
  {
    SumBy(items, LineTotal)
  }

  function HasProductId(id: int): CartItem -> bool
  {
    (item: CartItem) => item.product.id == id
  }

  function LacksProductId(id: int): CartItem -> bool
  {
    (item: CartItem) => item.product.id != id
  }

  /** The cart invariant: no product occupies two lines. */
  ghost predicate UniqueProductIds(items: seq<CartItem>)
  {
    forall i, j :: 0 <= i < j < |items| ==> items[i].product.id != items[j].product.id
  }

  ghost predicate AllPositive(items: seq<CartItem>)
  {
    forall i :: 0 <= i < |items| ==> items[i].quantity >= 1
  }

  /** `addToCart`: raise the quantity of the first line for the product, or append a new line. */
  function AddItem(items: seq<CartItem>, product: Product, quantity: int): (r: seq<CartItem>)
    ensures |r| == |items| || |r| == |items| + 1
    ensures forall j :: 0 <= j < |items| ==>
              r[j].product == items[j].product &&
              (r[j] == items[j] || (items[j].product.id == product.id && r[j].quantity == items[j].quantity + quantity))
    ensures (exists j :: 0 <= j < |items| && items[j].product.id == product.id) <==> |r| == |items|
    ensures (forall j :: 0 <= j < |items| ==> items[j].product.id != product.id) ==> r == items + [CartItem(product, quantity)]
  {
    var i := FindIndex(items, HasProductId(product.id));
    if i > -1 then items[i := items[i].(quantity := items[i].quantity + quantity)]
    else items + [CartItem(product, quantity)]
  }

  /** `removeFromCart`: keep the lines of every other product. */
  function RemoveItems(items: seq<CartItem>, id: int): (r: seq<CartItem>)
    ensures |r| <= |items|
    ensures forall j :: 0 <= j < |r| ==> r[j] in items && r[j].product.id != id
  {
    Filter(items, LacksProductId(id))
  }

  /** `updateQuantity`: remove when the quantity is not positive, otherwise set it on every matching line. */
  function UpdateItems(items: seq<CartItem>, id: int, quantity: int): (r: seq<CartItem>)
    ensures quantity <= 0 ==> forall j :: 0 <= j < |r| ==> r[j] in items && r[j].product.id != id
    ensures quantity > 0 ==>
              |r| == |items| &&
              forall k :: 0 <= k < |items| ==>
                r[k].product == items[k].product &&
                r[k].quantity == (if items[k].product.id == id then quantity else items[k].quantity)
  {
    if quantity <= 0 then RemoveItems(items, id)
    else seq(|items|, k requires 0 <= k < |items| =>
               if items[k].product.id == id then items[k].(quantity := quantity) else items[k])
  }

  // ----- Derived values -----

  lemma EmptyCartTotals()
    ensures SumQuantities([]) == 0 && SumLineTotals([]) == 0
  {
  }

  /** With every quantity at least one, the item count is at least the number of lines. */
  lemma {:induction false} ItemCountAtLeastLines(items: seq<CartItem>)
    requires AllPositive(items)
    ensures SumQuantities(items) >= |items|
  {
    if items != [] {
      ItemCountAtLeastLines(items[1..]);
    }
  }

  /** Non-negative prices and quantities give a non-negative total. */
  lemma {:induction false} TotalPriceNonNegative(items: seq<CartItem>)
    requires forall i :: 0 <= i < |items| ==> items[i].product.price >= 0 && items[i].quantity >= 0
    ensures SumLineTotals(items) >= 0
  {
    if items != [] {
      TotalPriceNonNegative(items[1..]);
    }
  }

  // ----- addToCart -----

  /** A product already in the cart: only its first line's quantity grows; length and order are kept. */
  lemma AddItemExisting(items: seq<CartItem>, product: Product, quantity: int, i: int)
    requires 0 <= i < |items| && items[i].product.id == product.id
    requires forall j :: 0 <= j < i ==> items[j].product.id != product.id
    ensures var r := AddItem(items, product, quantity);
            |r| == |items| &&
            r[i] == items[i].(quantity := items[i].quantity + quantity) &&
            forall j :: 0 <= j < |items| && j != i ==> r[j] == items[j]
  {
    assert FindIndex(items, HasProductId(product.id)) == i;
  }

  /** A product not in the cart: one line `{product, quantity}` is appended. */
  lemma AddItemAbsent(items: seq<CartItem>, product: Product, quantity: int)
    requires forall j :: 0 <= j < |items| ==> items[j].product.id != product.id
    ensures AddItem(items, product, quantity) == items + [CartItem(product, quantity)]
  {
    assert FindIndex(items, HasProductId(product.id)) == -1;
  }

  lemma AddItemPreservesUnique(items: seq<CartItem>, product: Product, quantity: int)
    requires UniqueProductIds(items)
    ensures UniqueProductIds(AddItem(items, product, quantity))
  {
  }

  lemma AddItemPreservesPositive(items: seq<CartItem>, product: Product, quantity: int)
    requires AllPositive(items) && quantity >= 1
    ensures AllPositive(AddItem(items, product, quantity))
  {
  }

  /** Adding raises the item count by exactly the added quantity. */
  lemma AddItemCount(items: seq<CartItem>, product: Product, quantity: int)
    ensures SumQuantities(AddItem(items, product, quantity)) == SumQuantities(items) + quantity
  {
    var i := FindIndex(items, HasProductId(product.id));
    if i > -1 {
      SumByUpdate(items, i, items[i].(quantity := items[i].quantity + quantity), Quantity);
    } else {
      SumByAppend(items, [CartItem(product, quantity)], Quantity);
    }
  }

  /** Adding raises the total by the added quantity times the unit price of the line it lands on,
      which for a product already present is the price captured when it was first added. */
  lemma AddItemTotal(items: seq<CartItem>, product: Product, quantity: int)
    ensures var i := FindIndex(items, HasProductId(product.id));
            var unit := if i > -1 then items[i].product.price else product.price;
            SumLineTotals(AddItem(items, product, quantity)) == SumLineTotals(items) + unit * quantity
  {
    var i := FindIndex(items, HasProductId(product.id));
    if i > -1 {
      var line := items[i].(quantity := items[i].quantity + quantity);
      SumByUpdate(items, i, line, LineTotal);
      assert LineTotal(line) == LineTotal(items[i]) + items[i].product.price * quantity;
    } else {
      SumByAppend(items, [CartItem(product, quantity)], LineTotal);
    }
  }

  /** Adding a product with quantity 1 and then 2 leaves one line with quantity 3. */
  lemma AddSameProductTwice(product: Product)
    ensures AddItem(AddItem([], product, 1), product, 2) == [CartItem(product, 3)]
  {
    AddItemAbsent([], product, 1);
    assert [] + [CartItem(product, 1)] == [CartItem(product, 1)];
    AddItemExisting([CartItem(product, 1)], product, 2, 0);
  }

  // ----- removeFromCart -----

  /** Removal keeps, in order, exactly the lines of other products. */
  lemma RemoveItemsSpec(items: seq<CartItem>, id: int)
    ensures IsSubsequence(RemoveItems(items, id), items)
    ensures forall x :: x in RemoveItems(items, id) <==> x in items && x.product.id != id
    ensures forall x :: multiset(RemoveItems(items, id))[x] == if x.product.id != id then multiset(items)[x] else 0
  {
    FilterIsSubsequence(items, LacksProductId(id));
    forall x ensures x in RemoveItems(items, id) <==> x in items && x.product.id != id {
      FilterMembership(items, LacksProductId(id), x);
    }
    forall x ensures multiset(RemoveItems(items, id))[x] == if x.product.id != id then multiset(items)[x] else 0 {
      FilterMultiset(items, LacksProductId(id), x);
    }
  }

  /** Removing a product that is not in the cart changes nothing. */
  lemma RemoveAbsentIsNoOp(items: seq<CartItem>, id: int)
    requires forall j :: 0 <= j < |items| ==> items[j].product.id != id
    ensures RemoveItems(items, id) == items
  {
    FilterKeepsAll(items, LacksProductId(id));
  }

  lemma {:induction false} RemoveItemsPreservesUnique(items: seq<CartItem>, id: int)
    requires UniqueProductIds(items)
    ensures UniqueProductIds(RemoveItems(items, id))
  {
    if items != [] {
      RemoveItemsPreservesUnique(items[1..], id);
      var rest := RemoveItems(items[1..], id);
      forall j | 0 <= j < |rest|
        ensures rest[j].product.id != items[0].product.id
      {
        var k :| 0 <= k < |items[1..]| && items[1..][k] == rest[j];
        assert items[k + 1] == rest[j];
      }
    }
  }

  lemma RemoveItemsPreservesPositive(items: seq<CartItem>, id: int)
    requires AllPositive(items)
    ensures AllPositive(RemoveItems(items, id))
  {
    RemoveItemsSpec(items, id);
    var r := RemoveItems(items, id);
    forall j | 0 <= j < |r|
      ensures r[j].quantity >= 1
    {
      assert r[j] in items;
    }
  }

  /** Removing a product lowers the item count by the quantity of its line (if any). */
  lemma {:induction false} RemoveItemsCount(items: seq<CartItem>, id: int)
    requires UniqueProductIds(items)
    ensures var i := FindIndex(items, HasProductId(id));
            SumQuantities(RemoveItems(items, id)) ==
            SumQuantities(items) - (if i > -1 then items[i].quantity else 0)
  {
    if items != [] {
      RemoveItemsCount(items[1..], id);
      if items[0].product.id == id {
        RemoveAbsentIsNoOp(items[1..], id);
      }
    }
  }

  // ----- updateQuantity -----

  /** A quantity of zero or less is exactly a removal. */
  lemma UpdateNonPositiveIsRemove(items: seq<CartItem>, id: int, quantity: int)
    requires quantity <= 0
    ensures UpdateItems(items, id, quantity) == RemoveItems(items, id)
  {
  }

  /** A positive quantity replaces the quantity of the product's line and changes nothing else;
      for a product not in the cart nothing changes at all. */
  lemma UpdatePositive(items: seq<CartItem>, id: int, quantity: int)
    requires UniqueProductIds(items) && quantity > 0
    ensures var i := FindIndex(items, HasProductId(id));
            UpdateItems(items, id, quantity) ==
            if i > -1 then items[i := items[i].(quantity := quantity)] else items
  {
  }

  lemma UpdateItemsPreservesUnique(items: seq<CartItem>, id: int, quantity: int)
    requires UniqueProductIds(items)
    ensures UniqueProductIds(UpdateItems(items, id, quantity))
  {
    if quantity <= 0 {
      RemoveItemsPreservesUnique(items, id);
    }
  }

  lemma UpdateItemsPreservesPositive(items: seq<CartItem>, id: int, quantity: int)
    requires AllPositive(items)
    ensures AllPositive(UpdateItems(items, id, quantity))
  {
    if quantity <= 0 {
      RemoveItemsPreservesPositive(items, id);
    }
  }

  /** A positive update moves the item count from the old line quantity to the new one. */
  lemma UpdateItemsCount(items: seq<CartItem>, id: int, quantity: int)
    requires UniqueProductIds(items) && quantity > 0
    ensures var i := FindIndex(items, HasProductId(id));
            SumQuantities(UpdateItems(items, id, quantity)) ==
            SumQuantities(items) + (if i > -1 then quantity - items[i].quantity else 0)
  {
    UpdatePositive(items, id, quantity);
    var i := FindIndex(items, HasProductId(id));
    if i > -1 {
      SumByUpdate(items, i, items[i].(quantity := quantity), Quantity);
    }
  }

  /** The cart service: the private `cartItems` field, replaced by every operation. */
  class CartService {
    var cartItems: seq<CartItem>

    ghost predicate Valid()
      reads this
    {
      UniqueProductIds(cartItems)
    }

    constructor()
      ensures Valid() && cartItems == []
    {
      cartItems := [];
    }

    function Items(): seq<CartItem>
      reads this
    {
      cartItems
    }

    /** `itemCount`: no items in an empty cart, and at least one per line while every quantity is
        positive. */
    function ItemCount(): (n: int)
      reads this
      ensures cartItems == [] ==> n == 0
      ensures AllPositive(cartItems) ==> n >= |cartItems|
    {
      assert AllPositive(cartItems) ==> SumQuantities(cartItems) >= |cartItems| by {
        if AllPositive(cartItems) {
          ItemCountAtLeastLines(cartItems);
        }
      }
      SumQuantities(cartItems)
    }

    /** `totalPrice`: nothing for an empty cart, and never negative while prices and quantities
        are not. */
    function TotalPrice(): (t: int)
      reads this
      ensures cartItems == [] ==> t == 0
      ensures (forall i :: 0 <= i < |cartItems| ==> cartItems[i].product.price >= 0 && cartItems[i].quantity >= 0) ==> t >= 0
    {
      assert (forall i :: 0 <= i < |cartItems| ==> cartItems[i].product.price >= 0 && cartItems[i].quantity >= 0) ==>
             SumLineTotals(cartItems) >= 0 by {
        if forall i :: 0 <= i < |cartItems| ==> cartItems[i].product.price >= 0 && cartItems[i].quantity >= 0 {
          TotalPriceNonNegative(cartItems);
        }
      }
      SumLineTotals(cartItems)
    }

    method AddToCart(product: Product, quantity: int := 1)
      requires Valid()
      modifies this
      ensures Valid()
      ensures cartItems == AddItem(old(cartItems), product, quantity)
      ensures ItemCount() == old(ItemCount()) + quantity
      ensures quantity >= 1 && AllPositive(old(cartItems)) ==> AllPositive(cartItems)
    {
      AddItemPreservesUnique(cartItems, product, quantity);
      AddItemCount(cartItems, product, quantity);
      if quantity >= 1 && AllPositive(cartItems) {
        AddItemPreservesPositive(cartItems, product, quantity);
      }
      cartItems := AddItem(cartItems, product, quantity);
    }

    method RemoveFromCart(productId: int)
      requires Valid()
      modifies this
      ensures Valid()
      ensures cartItems == RemoveItems(old(cartItems), productId)
      ensures AllPositive(old(cartItems)) ==> AllPositive(cartItems)
    {
      RemoveItemsPreservesUnique(cartItems, productId);
      if AllPositive(cartItems) {
        RemoveItemsPreservesPositive(cartItems, productId);
      }
      cartItems := RemoveItems(cartItems, productId);
    }

    method UpdateQuantity(productId: int, quantity: int)
      requires Valid()
      modifies this
      ensures Valid()
      ensures cartItems == UpdateItems(old(cartItems), productId, quantity)
      ensures AllPositive(old(cartItems)) ==> AllPositive(cartItems)
    {
      if quantity <= 0 {
        RemoveFromCart(productId);
        return;
      }
      UpdateItemsPreservesUnique(cartItems, productId, quantity);
      if AllPositive(cartItems) {
        UpdateItemsPreservesPositive(cartItems, productId, quantity);
      }
      cartItems := UpdateItems(cartItems, productId, quantity);
    }

    method ClearCart()
      modifies this
      ensures Valid() && cartItems == [] && ItemCount() == 0 && TotalPrice() == 0
    {
      cartItems := [];
    }
  }
}
