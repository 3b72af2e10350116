/** The shopping cart: adding a product, removing a line, changing a quantity, the total. */
module Cart {
  import opened Types
  import opened Seqs

  function LineId(item: CartItem): string {
    item.id
  }

  predicate HasId(cart: seq<CartItem>, id: string) {
    HasKey(cart, LineId, id)
  }

  /** At most one line per product id. */
  ghost predicate UniqueIds(cart: seq<CartItem>) {
    UniqueBy(cart, LineId)
  }

  /** Every line orders at least one unit. */
  predicate AllPositive(cart: seq<CartItem>) {
    forall k :: 0 <= k < |cart| ==> cart[k].quantity >= 1
  }

  /** The cart invariant the operations keep. */
  ghost predicate WellFormed(cart: seq<CartItem>) {
    UniqueIds(cart) && AllPositive(cart)
  }

  /** `cart.find(item => item.id === id)`: the first line with that id, if any. */
  function Find(cart: seq<CartItem>, id: string): (r: Option<CartItem>)
    ensures r.None? <==> !HasId(cart, id)
    ensures r.Some? ==> exists k :: 0 <= k < |cart| && cart[k] == r.value && r.value.id == id &&
                                    forall j :: 0 <= j < k ==> cart[j].id != id
  {
    if cart == [] then None
    else if cart[0].id == id then Some(cart[0])
    else
      var r := Find(cart[1..], id);
      assert r.Some? ==> exists k :: 0 < k < |cart| && cart[k] == r.value && r.value.id == id &&
                                     forall j :: 0 <= j < k ==> cart[j].id != id by {
        if r.Some? {
          var k :| 0 <= k < |cart[1..]| && cart[1..][k] == r.value && r.value.id == id &&
                   forall j :: 0 <= j < k ==> cart[1..][j].id != id;
          assert cart[k + 1] == r.value;
          assert forall j :: 0 <= j < k + 1 ==> cart[j].id != id by {
            forall j | 0 <= j < k + 1 ensures cart[j].id != id {
              if j > 0 { assert cart[j] == cart[1..][j - 1]; }
            }
          }
        }
      }
      r
  }

  /** With distinct ids, the line `find` returns is the only one with that id. */
  lemma FindUnique(cart: seq<CartItem>, id: string, k: nat)
    requires UniqueIds(cart)
    requires k < |cart| && cart[k].id == id
    ensures Find(cart, id) == Some(cart[k])
  {
  }

  /** `{ ...product, quantity: 1 }` */
  function NewLine(p: Product): CartItem {
    CartItem(p.id, p.name, p.price, p.category, p.image, 1)
  }

  function Bump(id: string): CartItem -> CartItem {
    (item: CartItem) => if item.id == id then item.(quantity := item.quantity + 1) else item
  }

  /** Adding a product: raise the quantity of its line, or append a line with quantity 1. */
  function AddToCart(cart: seq<CartItem>, p: Product): (r: seq<CartItem>)
    ensures |r| == if HasId(cart, p.id) then |cart| else |cart| + 1
    ensures HasId(r, p.id)
  {
    if Find(cart, p.id).Some? then Map(cart, Bump(p.id))
    else
      var r := cart + [NewLine(p)];
      assert r[|cart|].id == p.id;
      r
  }

  /**
   * A product already in the cart: same length, that line's quantity goes up by one
   * and its stored name, price, category and image are kept; nothing else changes.
   */
  lemma AddToCartExisting(cart: seq<CartItem>, p: Product, k: nat)
    requires UniqueIds(cart)
    requires k < |cart| && cart[k].id == p.id
    ensures AddToCart(cart, p) == cart[k := cart[k].(quantity := cart[k].quantity + 1)]
  {
  }

  /** A product not in the cart: one line with quantity 1 is appended at the end. */
  lemma AddToCartNew(cart: seq<CartItem>, p: Product)
    requires !HasId(cart, p.id)
    ensures AddToCart(cart, p) == cart + [CartItem(p.id, p.name, p.price, p.category, p.image, 1)]
  {
  }

  lemma AddToCartPreservesWellFormed(cart: seq<CartItem>, p: Product)
    requires WellFormed(cart)
    ensures WellFormed(AddToCart(cart, p))
  {
  }

  /** Removing a line outright: keep every line whose id differs. */
  function RemoveFromCart(cart: seq<CartItem>, id: string): (r: seq<CartItem>)
    ensures !HasId(r, id)
    ensures forall k :: 0 <= k < |cart| && cart[k].id != id ==> cart[k] in r
    ensures forall k :: 0 <= k < |r| ==> r[k] in cart
  {
    RemoveKey(cart, LineId, id)
  }

  lemma RemoveAbsent(cart: seq<CartItem>, id: string)
    requires !HasId(cart, id)
    ensures RemoveFromCart(cart, id) == cart
  {
    RemoveKeyAbsent(cart, LineId, id);
  }

  lemma RemoveIdempotent(cart: seq<CartItem>, id: string)
    ensures RemoveFromCart(RemoveFromCart(cart, id), id) == RemoveFromCart(cart, id)
  {
    RemoveKeyIdempotent(cart, LineId, id);
  }

  lemma RemoveKeepsOrder(a: seq<CartItem>, b: seq<CartItem>, id: string)
    ensures RemoveFromCart(a + b, id) == RemoveFromCart(a, id) + RemoveFromCart(b, id)
  {
    RemoveKeyConcat(a, b, LineId, id);
  }

  lemma RemovePreservesWellFormed(cart: seq<CartItem>, id: string)
    requires WellFormed(cart)
    ensures WellFormed(RemoveFromCart(cart, id))
  {
    RemoveKeyUnique(cart, LineId, id);
  }

  /** Removing the line of a product just added to a cart without it restores the cart. */
  lemma RemoveUndoesAdd(cart: seq<CartItem>, p: Product)
    requires !HasId(cart, p.id)
    ensures RemoveFromCart(AddToCart(cart, p), p.id) == cart
  {
    RemoveKeyUndoesAppend(cart, NewLine(p), LineId);
  }

  /** The `map` step of a quantity change: a positive new quantity replaces the old one. */
  function Adjust(id: string, delta: int): CartItem -> CartItem {
    (item: CartItem) =>
      if item.id == id then
        var newQuantity := item.quantity + delta;
        if newQuantity > 0 then item.(quantity := newQuantity) else item
      else item
  }

  function InStock(item: CartItem): bool {
    item.quantity > 0
  }

  /** Changing a quantity by `delta`, then dropping every line whose quantity is not positive. */
  function UpdateQuantity(cart: seq<CartItem>, id: string, delta: int): (r: seq<CartItem>)
    ensures AllPositive(r)
    ensures |r| <= |cart|
  {
    Filter(Map(cart, Adjust(id, delta)), InStock)
  }

  /** The lines a quantity change keeps: those already positive, or the targeted ones it makes positive. */
  function Survives(id: string, delta: int): CartItem -> bool {
    (item: CartItem) => item.quantity > 0 || (item.id == id && item.quantity + delta > 0)
  }

  /**
   * The trailing filter only drops lines whose stored quantity is already not positive
   * (and that the change does not lift): the result is the survivors, adjusted, in order.
   */
  lemma {:induction false} UpdateQuantityDrops(cart: seq<CartItem>, id: string, delta: int)
    ensures UpdateQuantity(cart, id, delta) == Map(Filter(cart, Survives(id, delta)), Adjust(id, delta))
  {
    if cart != [] {
      var m := Map(cart, Adjust(id, delta));
      assert m[1..] == Map(cart[1..], Adjust(id, delta));
      assert m == [m[0]] + m[1..];
      FilterConcat([m[0]], m[1..], InStock);
      UpdateQuantityDrops(cart[1..], id, delta);
      var rest := Filter(cart[1..], Survives(id, delta));
      if Survives(id, delta)(cart[0]) {
        assert Filter(cart, Survives(id, delta)) == [cart[0]] + rest;
        assert Map([cart[0]] + rest, Adjust(id, delta))[1..] == Map(rest, Adjust(id, delta));
      }
    }
  }

  /** On a cart of positive lines nothing is dropped: each line is only adjusted in place. */
  lemma UpdateQuantityOnPositive(cart: seq<CartItem>, id: string, delta: int)
    requires AllPositive(cart)
    ensures UpdateQuantity(cart, id, delta) == Map(cart, Adjust(id, delta))
  {
    FilterKeepsAll(Map(cart, Adjust(id, delta)), InStock);
  }

  /** A change that keeps the targeted line positive sets exactly that line's quantity. */
  lemma UpdateQuantitySets(cart: seq<CartItem>, id: string, delta: int, k: nat)
    requires WellFormed(cart)
    requires k < |cart| && cart[k].id == id && cart[k].quantity + delta > 0
    ensures UpdateQuantity(cart, id, delta) == cart[k := cart[k].(quantity := cart[k].quantity + delta)]
  {
    UpdateQuantityOnPositive(cart, id, delta);
    forall j | 0 <= j < |cart| && j != k
      ensures cart[j].id != id
    {
      assert LineId(cart[j]) != LineId(cart[k]) by {
        if j < k {} else {}
      }
    }
  }

  /**
   * A change that would bring the targeted line to zero or below leaves the whole cart
   * as it was: the line is not removed (pressing "minus" at quantity 1 does nothing).
   */
  lemma UpdateQuantityAtFloor(cart: seq<CartItem>, id: string, delta: int, k: nat)
    requires WellFormed(cart)
    requires k < |cart| && cart[k].id == id && cart[k].quantity + delta <= 0
    ensures UpdateQuantity(cart, id, delta) == cart
    ensures HasId(UpdateQuantity(cart, id, delta), id)
  {
    UpdateQuantityOnPositive(cart, id, delta);
    var r := UpdateQuantity(cart, id, delta);
    forall j | 0 <= j < |cart|
      ensures r[j] == cart[j]
    {
      if j != k {
        assert LineId(cart[j]) != LineId(cart[k]) by {
          if j < k {} else {}
        }
      }
    }
  }

  /** A change for an id not in the cart only drops the lines that were already not positive. */
  lemma UpdateQuantityAbsent(cart: seq<CartItem>, id: string, delta: int)
    requires !HasId(cart, id)
    ensures UpdateQuantity(cart, id, delta) == Filter(cart, InStock)
  {
    assert Map(cart, Adjust(id, delta)) == cart;
  }

  lemma UpdateQuantityPreservesWellFormed(cart: seq<CartItem>, id: string, delta: int)
    requires UniqueIds(cart)
    ensures WellFormed(UpdateQuantity(cart, id, delta))
  {
    MapUnique(cart, Adjust(id, delta), LineId);
    FilterUnique(Map(cart, Adjust(id, delta)), InStock, LineId);
  }

  function LineTotal(item: CartItem): int {
    item.price * item.quantity
  }

  /** `cart.reduce((sum, item) => sum + item.price * item.quantity, sum)`, a left fold. */
  function Reduce(cart: seq<CartItem>, sum: int): int {
    if cart == [] then sum else Reduce(cart[1..], sum + LineTotal(cart[0]))
  }

  function TotalPrice(cart: seq<CartItem>): (r: int)
    ensures cart == [] ==> r == 0
  {
    Reduce(cart, 0)
  }

  /** Reference definition: the sum of price times quantity over the lines. */
  function Sum(cart: seq<CartItem>): int {
    if cart == [] then 0 else Sum(cart[..|cart| - 1]) + LineTotal(cart[|cart| - 1])
  }

  lemma {:induction false} SumConcat(a: seq<CartItem>, b: seq<CartItem>)
    ensures Sum(a + b) == Sum(a) + Sum(b)
  {
    if b == [] {
      assert a + b == a;
    } else {
      assert (a + b)[..|a + b| - 1] == a + b[..|b| - 1];
      SumConcat(a, b[..|b| - 1]);
    }
  }

  lemma {:induction false} ReduceIsSum(cart: seq<CartItem>, sum: int)
    ensures Reduce(cart, sum) == sum + Sum(cart)
  {
    if cart != [] {
      ReduceIsSum(cart[1..], sum + LineTotal(cart[0]));
      assert cart == [cart[0]] + cart[1..];
      SumConcat([cart[0]], cart[1..]);
      assert [cart[0]][..0] == [];
    }
  }

  /** The fold computes the sum of price times quantity. */
  lemma TotalPriceIsSum(cart: seq<CartItem>)
    ensures TotalPrice(cart) == Sum(cart)
  {
    ReduceIsSum(cart, 0);
  }

  /** The total of two carts side by side is the sum of their totals. */
  lemma TotalPriceConcat(a: seq<CartItem>, b: seq<CartItem>)
    ensures TotalPrice(a + b) == TotalPrice(a) + TotalPrice(b)
  {
    TotalPriceIsSum(a + b);
    TotalPriceIsSum(a);
    TotalPriceIsSum(b);
    SumConcat(a, b);
  }

  /** Two lines at 1000 x 2 and 500 x 1 come to 2500. */
  lemma TotalPriceExample(x: CartItem, y: CartItem)
    requires x.price == 1000 && x.quantity == 2
    requires y.price == 500 && y.quantity == 1
    ensures TotalPrice([x, y]) == 2500
  {
    assert [x, y][1..] == [y];
    assert TotalPrice([x, y]) == Reduce([y], 2000);
    assert [y][1..] == [];
    assert Reduce([y], 2000) == Reduce([], 2500);
  }

  /** With non-negative prices and positive quantities the total is not negative. */
  lemma {:induction false} TotalPriceNonNegative(cart: seq<CartItem>)
    requires AllPositive(cart)
    requires forall k :: 0 <= k < |cart| ==> cart[k].price >= 0
    ensures TotalPrice(cart) >= 0
  {
    TotalPriceIsSum(cart);
    SumNonNegative(cart);
  }

  lemma {:induction false} SumNonNegative(cart: seq<CartItem>)
    requires AllPositive(cart)
    requires forall k :: 0 <= k < |cart| ==> cart[k].price >= 0
    ensures Sum(cart) >= 0
  {
    if cart != [] {
      SumNonNegative(cart[..|cart| - 1]);
    }
  }

  lemma SumUpdate(s: seq<CartItem>, k: nat, x: CartItem)
    requires k < |s|
    ensures Sum(s[k := x]) == Sum(s) - LineTotal(s[k]) + LineTotal(x)
  {
    assert s == s[..k] + [s[k]] + s[k + 1..];
    assert s[k := x] == s[..k] + [x] + s[k + 1..];
    SumConcat(s[..k] + [s[k]], s[k + 1..]);
    SumConcat(s[..k], [s[k]]);
    SumConcat(s[..k] + [x], s[k + 1..]);
    SumConcat(s[..k], [x]);
  }

  /** One more unit on line `k` adds that line's price to the sum. */
  lemma SumOneMore(cart: seq<CartItem>, k: nat)
    requires k < |cart|
    ensures Sum(cart[k := cart[k].(quantity := cart[k].quantity + 1)]) == Sum(cart) + cart[k].price
  {
    SumUpdate(cart, k, cart[k].(quantity := cart[k].quantity + 1));
    OneMoreUnit(cart[k]);
  }

  lemma OneMoreUnit(item: CartItem)
    ensures LineTotal(item.(quantity := item.quantity + 1)) == LineTotal(item) + item.price
  {
  }

  lemma TotalAfterAddNew(cart: seq<CartItem>, p: Product)
    requires !HasId(cart, p.id)
    ensures Sum(AddToCart(cart, p)) == Sum(cart) + p.price
  {
    SumConcat(cart, [NewLine(p)]);
    assert [NewLine(p)][..0] == [];
  }

  /**
   * Adding a product raises the total by one unit price: the price stored in its
   * existing line when there is one (not the argument's), the argument's otherwise.
   */
  lemma TotalAfterAdd(cart: seq<CartItem>, p: Product)
    requires UniqueIds(cart)
    ensures TotalPrice(AddToCart(cart, p)) ==
            TotalPrice(cart) + (match Find(cart, p.id) case Some(item) => item.price case None => p.price)
  {
    TotalPriceIsSum(cart);
    TotalPriceIsSum(AddToCart(cart, p));
    if HasId(cart, p.id) {
      var k :| 0 <= k < |cart| && cart[k].id == p.id;
      FindUnique(cart, p.id, k);
      AddToCartExisting(cart, p, k);
      SumOneMore(cart, k);
    } else {
      TotalAfterAddNew(cart, p);
    }
  }
}
