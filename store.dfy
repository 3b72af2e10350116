/**
 * The storefront page's state: the catalog and the cart, each mirrored into local
 * storage on every change. Storage is modelled by two ghost fields: `None` is an
 * absent key, `Some(s)` the collection last written under it.
 */
module Store {
  import opened Types
  import Catalog
  import Cart

  class Store {
    var products: seq<Product>
    var cart: seq<CartItem>
    ghost var storedProducts: Option<seq<Product>>
    ghost var storedCart: Option<seq<CartItem>>

    /**
     * Storage agrees with the state: the catalog is always written, and the cart is
     * written unless it was never saved, in which case it is still empty.
     */
    ghost predicate Persisted()
      reads this
    {
      storedProducts == Some(products) &&
      (storedCart == Some(cart) || (storedCart == None && cart == []))
    }

    /**
     * The load on first render. A stored catalog is taken as is (even an empty one);
     * otherwise the seed is installed and written. A stored cart is taken as is;
     * otherwise the cart stays empty and nothing is written.
     */
    constructor Load(savedProducts: Option<seq<Product>>, savedCart: Option<seq<CartItem>>)
      ensures products == (match savedProducts case Some(s) => s case None => Catalog.Seed)
      ensures cart == (match savedCart case Some(s) => s case None => [])
      ensures storedProducts == Some(products) && storedCart == savedCart
      ensures Persisted()
    {
      match savedProducts {
        case Some(s) =>
          products := s;
        case None =>
          products := Catalog.Seed;
      }
      match savedCart {
        case Some(s) =>
          cart := s;
        case None =>
          cart := [];
      }
      storedProducts := Some(products);
      storedCart := savedCart;
    }

    /** Replace the catalog and write it to storage. */
    method SaveProducts(updated: seq<Product>)
      requires Persisted()
      modifies this
      ensures products == updated && storedProducts == Some(updated)
      ensures cart == old(cart) && storedCart == old(storedCart)
      ensures Persisted()
    {
      products := updated;
      storedProducts := Some(updated);
    }

    /** Replace the cart and write it to storage. */
    method SaveCart(updated: seq<CartItem>)
      requires Persisted()
      modifies this
      ensures cart == updated && storedCart == Some(updated)
      ensures products == old(products) && storedProducts == old(storedProducts)
      ensures Persisted()
    {
      cart := updated;
      storedCart := Some(updated);
    }

    /**
     * The add-product form's submit. `added` is false (the validation message) when a
     * required field is empty, and then nothing changes. `id` and `price` stand for
     * the timestamp id and the parsed price text.
     */
    method HandleAddProduct(d: Catalog.Draft, id: string, price: int) returns (added: bool)
      requires Persisted()
      modifies this
      ensures added == Catalog.Complete(d)
      ensures products == Catalog.AddProduct(old(products), d, id, price)
      ensures !added ==> storedProducts == old(storedProducts)
      ensures cart == old(cart) && storedCart == old(storedCart)
      ensures Persisted()
      ensures Catalog.UniqueIds(old(products)) && !Catalog.HasId(old(products), id) ==>
                Catalog.UniqueIds(products)
    {
      if !Catalog.Complete(d) {
        return false;
      }
      if Catalog.UniqueIds(products) && !Catalog.HasId(products, id) {
        Catalog.AddPreservesUnique(products, d, id, price);
      }
      SaveProducts(Catalog.AddProduct(products, d, id, price));
      added := true;
    }

    method HandleDeleteProduct(id: string)
      requires Persisted()
      modifies this
      ensures products == Catalog.DeleteProduct(old(products), id)
      ensures cart == old(cart) && storedCart == old(storedCart)
      ensures Persisted()
      ensures Catalog.UniqueIds(old(products)) ==> Catalog.UniqueIds(products)
    {
      if Catalog.UniqueIds(products) {
        Catalog.DeletePreservesUnique(products, id);
      }
      SaveProducts(Catalog.DeleteProduct(products, id));
    }

    method AddToCart(product: Product)
      requires Persisted()
      modifies this
      ensures cart == Cart.AddToCart(old(cart), product)
      ensures products == old(products) && storedProducts == old(storedProducts)
      ensures storedCart == Some(cart)
      ensures Persisted()
      ensures Cart.WellFormed(old(cart)) ==> Cart.WellFormed(cart)
    {
      if Cart.WellFormed(cart) {
        Cart.AddToCartPreservesWellFormed(cart, product);
      }
      SaveCart(Cart.AddToCart(cart, product));
    }

    method RemoveFromCart(id: string)
      requires Persisted()
      modifies this
      ensures cart == Cart.RemoveFromCart(old(cart), id)
      ensures products == old(products) && storedProducts == old(storedProducts)
      ensures storedCart == Some(cart)
      ensures Persisted()
      ensures Cart.WellFormed(old(cart)) ==> Cart.WellFormed(cart)
    {
      if Cart.WellFormed(cart) {
        Cart.RemovePreservesWellFormed(cart, id);
      }
      SaveCart(Cart.RemoveFromCart(cart, id));
    }

    method UpdateQuantity(id: string, delta: int)
      requires Persisted()
      modifies this
      ensures cart == Cart.UpdateQuantity(old(cart), id, delta)
      ensures products == old(products) && storedProducts == old(storedProducts)
      ensures storedCart == Some(cart)
      ensures Persisted()
      ensures Cart.AllPositive(cart)
      ensures Cart.UniqueIds(old(cart)) ==> Cart.WellFormed(cart)
    {
      if Cart.UniqueIds(cart) {
        Cart.UpdateQuantityPreservesWellFormed(cart, id, delta);
      }
      SaveCart(Cart.UpdateQuantity(cart, id, delta));
    }

    /** The cart total shown beside the checkout button. */
    function TotalPrice(): (total: int)
      reads this
      ensures total == Cart.Sum(cart)
    {
      Cart.TotalPriceIsSum(cart);
      Cart.TotalPrice(cart)
    }
  }
}
