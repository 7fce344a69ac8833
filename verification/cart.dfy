/** The shopping cart value (Models/CartModels.cs): a list of items keyed by
    product id, its derived amounts, and the four edits. The C# class mutates
    its list in place; here every edit returns the new cart. */
module Carts {

  import opened Common

  datatype CartItem = CartItem(
    productId: int,
    productName: string,
    unitPrice: real,
    quantity: int,
    unit: string,
    imageUrl: string,
    sellerName: string,
    sellerId: int,
    availableQuantity: int,
    sellerSubaccountId: NullableString)

  datatype Cart = Cart(items: seq<CartItem>)

  /** Government tax rate (7.5 % VAT) and platform fee rate (2.5 %). */
  const GovernmentTaxRate: real := 0.075
  const PlatformFeeRate: real := 0.025

  /** `CartItem.TotalPrice`. */
  function TotalPrice(item: CartItem): real {
    item.unitPrice * item.quantity as real
  }

  /** `Cart.SubTotal`: the sum of the items' total prices. */
  function SubTotal(items: seq<CartItem>): real {
    if |items| == 0 then 0.0 else TotalPrice(items[0]) + SubTotal(items[1..])
  }

  /** `Cart.TotalItems`: the sum of the items' quantities. */
  function TotalItems(items: seq<CartItem>): int {
    if |items| == 0 then 0 else items[0].quantity + TotalItems(items[1..])
  }

  function GovernmentTax(c: Cart): real {
    SubTotal(c.items) * GovernmentTaxRate
  }

  function PlatformFee(c: Cart): real {
    SubTotal(c.items) * PlatformFeeRate
  }

  /** `Cart.Total`: subtotal plus tax plus fee, which is 110 % of the subtotal. */
  function Total(c: Cart): (r: real)
    ensures r == 1.1 * SubTotal(c.items)
    ensures r - SubTotal(c.items) == GovernmentTax(c) + PlatformFee(c)
  {
    SubTotal(c.items) + GovernmentTax(c) + PlatformFee(c)
  }

  predicate HasProduct(items: seq<CartItem>, productId: int) {
    exists i :: 0 <= i < |items| && items[i].productId == productId
  }

  /** No two entries share a product id. */
  predicate UniqueProducts(items: seq<CartItem>) {
    forall i, j :: 0 <= i < j < |items| ==> items[i].productId != items[j].productId
  }

  /** The position `FirstOrDefault(i => i.ProductId == productId)` finds. */
  function IndexOf(items: seq<CartItem>, productId: int): (k: nat)
    requires HasProduct(items, productId)
    ensures k < |items| && items[k].productId == productId
    ensures forall j :: 0 <= j < k ==> items[j].productId != productId
  {
    if items[0].productId == productId then 0
    else
      assert HasProduct(items[1..], productId) by {
        var i :| 0 <= i < |items| && items[i].productId == productId;
        assert items[1..][i - 1].productId == productId;
      }
      1 + IndexOf(items[1..], productId)
  }

  // ------------------------------------------------------------- the edits

  /** `AddItem`: an item for a product already in the cart adds its quantity
      (C# `int +=`, which wraps) to the first such entry, whose other fields
      stay; any other item is appended. */
  function AddItem(c: Cart, item: CartItem): (r: Cart)
    ensures HasProduct(c.items, item.productId) ==>
      var k := IndexOf(c.items, item.productId);
      && |r.items| == |c.items|
      && r.items[k].quantity == AddInt32(c.items[k].quantity, item.quantity)
      && r.items[k].(quantity := c.items[k].quantity) == c.items[k]
      && (forall j :: 0 <= j < |c.items| && j != k ==> r.items[j] == c.items[j])
    ensures !HasProduct(c.items, item.productId) ==> r.items == c.items + [item]
    ensures UniqueProducts(c.items) ==> UniqueProducts(r.items)
    ensures HasProduct(r.items, item.productId)
  {
    if HasProduct(c.items, item.productId) then
      var k := IndexOf(c.items, item.productId);
      Cart(c.items[k := c.items[k].(quantity := AddInt32(c.items[k].quantity, item.quantity))])
    else
      assert (c.items + [item])[|c.items|].productId == item.productId;
      Cart(c.items + [item])
  }

  /** The entries `RemoveAll(i => i.ProductId == productId)` keeps. */
  function Without(items: seq<CartItem>, productId: int): (r: seq<CartItem>)
    ensures forall x :: x in r <==> x in items && x.productId != productId
    ensures |r| <= |items|
  {
    if |items| == 0 then []
    else if items[0].productId == productId then Without(items[1..], productId)
    else [items[0]] + Without(items[1..], productId)
  }

  /** `RemoveItem`: drops every entry for the product and keeps the others. */
  function RemoveItem(c: Cart, productId: int): (r: Cart)
    ensures !HasProduct(r.items, productId)
    ensures forall x :: x in r.items <==> x in c.items && x.productId != productId
    ensures !HasProduct(c.items, productId) ==> r == c
    ensures UniqueProducts(c.items) ==> UniqueProducts(r.items)
    ensures r.items == Without(c.items, productId)
  {
    WithoutAbsent(c.items, productId);
    WithoutKeepsUnique(c.items, productId);
    Cart(Without(c.items, productId))
  }

  /** `UpdateQuantity`: no effect when the product is absent; a quantity of
      zero or less removes it; otherwise only the first entry's quantity changes. */
  function UpdateQuantity(c: Cart, productId: int, quantity: int): (r: Cart)
    ensures !HasProduct(c.items, productId) ==> r == c
    ensures HasProduct(c.items, productId) && quantity <= 0 ==> r == RemoveItem(c, productId)
    ensures HasProduct(c.items, productId) && quantity > 0 ==>
      var k := IndexOf(c.items, productId);
      && |r.items| == |c.items|
      && r.items[k].quantity == quantity
      && r.items[k].(quantity := c.items[k].quantity) == c.items[k]
      && (forall j :: 0 <= j < |c.items| && j != k ==> r.items[j] == c.items[j])
    ensures UniqueProducts(c.items) ==> UniqueProducts(r.items)
  {
    if !HasProduct(c.items, productId) then c
    else if quantity <= 0 then RemoveItem(c, productId)
    else
      var k := IndexOf(c.items, productId);
      Cart(c.items[k := c.items[k].(quantity := quantity)])
  }

  /** `Clear`: the empty cart, whose amounts are all zero. */
  function Clear(c: Cart): (r: Cart)
    ensures r.items == []
    ensures SubTotal(r.items) == 0.0 && Total(r) == 0.0 && TotalItems(r.items) == 0
    ensures GovernmentTax(r) == 0.0 && PlatformFee(r) == 0.0
  {
    Cart([])
  }

  /** After clearing, the cart holds no product, and adding an item gives a
      one-entry cart whose amounts are that item's. */
  lemma ClearThenAdd(c: Cart, item: CartItem, productId: int)
    ensures !HasProduct(Clear(c).items, productId)
    ensures AddItem(Clear(c), item).items == [item]
    ensures SubTotal(AddItem(Clear(c), item).items) == item.unitPrice * item.quantity as real
  {
  }

  // ----------------------------------------------------------- lemmas

  /** Without an entry for the product in `items`, there is none in any suffix either. */
  lemma AbsentFromTail(items: seq<CartItem>, productId: int)
    requires |items| > 0
    requires forall i :: 1 <= i < |items| ==> items[i].productId != productId
    ensures !HasProduct(items[1..], productId)
  {
    forall i | 0 <= i < |items[1..]|
      ensures items[1..][i].productId != productId
    {
      assert items[1..][i] == items[i + 1];
    }
  }

  lemma WithoutAbsent(items: seq<CartItem>, productId: int)
    ensures !HasProduct(items, productId) ==> Without(items, productId) == items
  {
    if !HasProduct(items, productId) {
      assert forall x :: x in items ==> x.productId != productId;
      WithoutNothing(items, productId);
    }
  }

  /** Removing a product no entry carries keeps the list as it is. */
  lemma {:induction false} WithoutNothing(items: seq<CartItem>, productId: int)
    requires forall x :: x in items ==> x.productId != productId
    ensures Without(items, productId) == items
  {
    if |items| > 0 {
      assert items[0] in items;
      assert forall x :: x in items[1..] ==> x in items;
      WithoutNothing(items[1..], productId);
      assert items == [items[0]] + items[1..];
    }
  }

  lemma {:induction false} WithoutKeepsUnique(items: seq<CartItem>, productId: int)
    ensures UniqueProducts(items) ==> UniqueProducts(Without(items, productId))
  {
    if |items| > 0 && UniqueProducts(items) {
      WithoutKeepsUnique(items[1..], productId);
      var rest := Without(items[1..], productId);
      if items[0].productId != productId {
        forall j | 0 <= j < |rest|
          ensures rest[j].productId != items[0].productId
        {
          assert rest[j] in items[1..];
        }
      }
    }
  }

  /** Removal is a filter: it distributes over concatenation, so the kept
      entries stay in their order. */
  lemma {:induction false} WithoutAppend(a: seq<CartItem>, b: seq<CartItem>, productId: int)
    ensures Without(a + b, productId) == Without(a, productId) + Without(b, productId)
  {
    if |a| > 0 {
      assert (a + b)[0] == a[0];
      assert (a + b)[1..] == a[1..] + b;
      WithoutAppend(a[1..], b, productId);
      if a[0].productId != productId {
        var x, y := Without(a[1..], productId), Without(b, productId);
        assert [a[0]] + (x + y) == ([a[0]] + x) + y;
      }
    } else {
      assert a + b == b;
    }
  }

  lemma {:induction false} SubTotalUpdate(items: seq<CartItem>, k: nat, x: CartItem)
    requires k < |items|
    ensures SubTotal(items[k := x]) == SubTotal(items) - TotalPrice(items[k]) + TotalPrice(x)
    ensures TotalItems(items[k := x]) == TotalItems(items) - items[k].quantity + x.quantity
  {
    if k > 0 {
      assert items[k := x][1..] == items[1..][k - 1 := x];
      SubTotalUpdate(items[1..], k - 1, x);
    } else {
      assert items[k := x][1..] == items[1..];
    }
  }

  lemma {:induction false} SubTotalAppend(a: seq<CartItem>, b: seq<CartItem>)
    ensures SubTotal(a + b) == SubTotal(a) + SubTotal(b)
    ensures TotalItems(a + b) == TotalItems(a) + TotalItems(b)
  {
    if |a| > 0 {
      assert (a + b)[1..] == a[1..] + b;
      SubTotalAppend(a[1..], b);
    } else {
      assert a + b == b;
    }
  }

  /** Adding an item raises the subtotal by its quantity at the price of the
      entry that receives it: the existing entry's unit price when the product
      is already in the cart (the new item's price is ignored), its own price
      otherwise. The item count rises by the added quantity unless the `int`
      sum wraps. */
  lemma AddItemAmounts(c: Cart, item: CartItem)
    requires !HasProduct(c.items, item.productId) || IsInt32(c.items[IndexOf(c.items, item.productId)].quantity + item.quantity)
    ensures HasProduct(c.items, item.productId) ==>
      SubTotal(AddItem(c, item).items)
        == SubTotal(c.items) + c.items[IndexOf(c.items, item.productId)].unitPrice * item.quantity as real
    ensures !HasProduct(c.items, item.productId) ==>
      SubTotal(AddItem(c, item).items) == SubTotal(c.items) + TotalPrice(item)
    ensures TotalItems(AddItem(c, item).items) == TotalItems(c.items) + item.quantity
  {
    if HasProduct(c.items, item.productId) {
      var k := IndexOf(c.items, item.productId);
      var old_ := c.items[k];
      var x := old_.(quantity := old_.quantity + item.quantity);
      assert AddItem(c, item).items == c.items[k := x];
      assert TotalPrice(x) == TotalPrice(old_) + old_.unitPrice * item.quantity as real by {
        assert (old_.quantity + item.quantity) as real == old_.quantity as real + item.quantity as real;
      }
      SubTotalUpdate(c.items, k, x);
    } else {
      SubTotalAppend(c.items, [item]);
    }
  }

  /** In a cart with unique product ids, removing a present product lowers the
      subtotal by exactly that entry's total price and the count by its quantity. */
  lemma {:induction false} RemoveItemAmounts(items: seq<CartItem>, productId: int)
    requires UniqueProducts(items) && HasProduct(items, productId)
    ensures SubTotal(Without(items, productId)) == SubTotal(items) - TotalPrice(items[IndexOf(items, productId)])
    ensures TotalItems(Without(items, productId)) == TotalItems(items) - items[IndexOf(items, productId)].quantity
  {
    if items[0].productId == productId {
      AbsentFromTail(items, productId);
      WithoutAbsent(items[1..], productId);
    } else {
      var k := IndexOf(items, productId);
      assert items[1..][k - 1].productId == productId;
      RemoveItemAmounts(items[1..], productId);
    }
  }

  /** Removing a product is idempotent. */
  lemma RemoveItemIdempotent(c: Cart, productId: int)
    ensures RemoveItem(RemoveItem(c, productId), productId) == RemoveItem(c, productId)
  {
  }

  /** Setting a present product to a positive quantity moves the subtotal by
      the change in quantity at that entry's unit price, and the item count by
      the change in quantity; a following update to the same quantity changes
      nothing. */
  lemma UpdateQuantityAmounts(c: Cart, productId: int, quantity: int)
    requires HasProduct(c.items, productId) && quantity > 0
    ensures var k := IndexOf(c.items, productId);
      && SubTotal(UpdateQuantity(c, productId, quantity).items)
           == SubTotal(c.items) + c.items[k].unitPrice * (quantity - c.items[k].quantity) as real
      && TotalItems(UpdateQuantity(c, productId, quantity).items)
           == TotalItems(c.items) + quantity - c.items[k].quantity
    ensures UpdateQuantity(UpdateQuantity(c, productId, quantity), productId, quantity)
         == UpdateQuantity(c, productId, quantity)
  {
    var k := IndexOf(c.items, productId);
    var x := c.items[k].(quantity := quantity);
    SubTotalUpdate(c.items, k, x);
    var r := UpdateQuantity(c, productId, quantity);
    assert HasProduct(r.items, productId) by {
      assert r.items[k].productId == productId;
    }
    assert IndexOf(r.items, productId) == k by {
      SameFirstIndex(c.items, r.items, productId, k);
    }
    assert r.items[k := r.items[k].(quantity := quantity)] == r.items;
  }

  /** Two item lists that agree on every product id up to and including
      position `k`, where the product first occurs, find it at `k` alike. */
  lemma SameFirstIndex(a: seq<CartItem>, b: seq<CartItem>, productId: int, k: nat)
    requires HasProduct(a, productId) && IndexOf(a, productId) == k
    requires |b| == |a| && forall j :: 0 <= j <= k ==> b[j].productId == a[j].productId
    ensures HasProduct(b, productId) && IndexOf(b, productId) == k
  {
    assert b[k].productId == productId;
    assert forall j :: 0 <= j < k ==> b[j].productId != productId;
  }
}
