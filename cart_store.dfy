/**
 * The cart store of the storefront page: the catalog, the live cart, and
 * the copy of the cart kept in the browser's local storage. Every
 * mutation that completes overwrites the stored copy with the live cart.
 */
module CartStore {
  import opened CartItems

  class Store {
    /** The catalog, once fetched. */
    var products: seq<Product>
    /** The live cart, in display order. */
    var cart: seq<Item>
    /** The value under the "cart" key of local storage; None while the key is absent. */
    var stored: Option<seq<Item>>

    /** The stored copy equals the live cart. */
    ghost predicate Synced()
      reads this
    {
      stored == Some(cart)
    }

    /** Script start: empty catalog, empty cart, storage as the browser left it. */
    constructor (persisted: Option<seq<Item>>)
      ensures products == [] && cart == [] && stored == persisted
    {
      products := [];
      cart := [];
      stored := persisted;
    }

    /** A successful fetch replaces the catalog. */
    method CatalogLoaded(fetched: seq<Product>)
      modifies this`products
      ensures products == fetched
    {
      products := fetched;
    }

    /** saveCart: overwrite the stored copy with the live cart. */
    method SaveCart()
      modifies this`stored
      ensures Synced()
    {
      stored := Some(cart);
    }

    /** loadCartFromStorage: the stored copy, or the empty cart when the key is absent. */
    method LoadCartFromStorage()
      modifies this`cart
      ensures old(stored).None? ==> cart == []
      ensures old(stored).Some? ==> cart == old(stored).value
      ensures old(Synced()) ==> cart == old(cart)
    {
      cart := match stored
        case Some(saved) => saved
        case None => [];
    }

    /** addToCart */
    method AddToCart(id: int)
      modifies this`cart, this`stored
      ensures Added(old(cart), products, id).None? ==> cart == old(cart) && stored == old(stored)
      ensures Added(old(cart), products, id).Some? ==>
        cart == Added(old(cart), products, id).value && Synced()
      ensures WellFormed(old(cart)) ==> WellFormed(cart)
    {
      if WellFormed(cart) {
        AddKeepsWellFormed(cart, products, id);
      }
      var existing := Find(cart, HasId(id));
      if existing.Some? {
        var k := existing.value;
        cart := cart[k := cart[k].(quantity := cart[k].quantity + 1)];
      } else {
        var product := Find(products, IsProduct(id));
        if product.None? {
          return;
        }
        cart := cart + [NewLine(products[product.value])];
      }
      SaveCart();
    }

    /** updateQuantity: add delta to the line at index; drop the line if it reaches 0 or below. */
    method UpdateQuantity(index: int, delta: int)
      modifies this`cart, this`stored
      ensures QuantityUpdated(old(cart), index, delta).None? ==>
        cart == old(cart) && stored == old(stored)
      ensures QuantityUpdated(old(cart), index, delta).Some? ==>
        cart == QuantityUpdated(old(cart), index, delta).value && Synced()
      ensures WellFormed(old(cart)) ==> WellFormed(cart)
    {
      if WellFormed(cart) {
        UpdateKeepsWellFormed(cart, index, delta);
      }
      if index < 0 || index >= |cart| {
        return;
      }
      cart := cart[index := cart[index].(quantity := cart[index].quantity + delta)];
      if cart[index].quantity <= 0 {
        cart := RemoveAt(cart, index);
      }
      SaveCart();
    }

    /** removeItem: `cart.splice(index, 1)`, then save. */
    method RemoveItem(index: int)
      modifies this`cart, this`stored
      ensures cart == Spliced(old(cart), index)
      ensures Synced()
      ensures WellFormed(old(cart)) ==> WellFormed(cart)
    {
      if WellFormed(cart) {
        SpliceKeepsWellFormed(cart, index);
      }
      var start := SpliceStart(|cart|, index);
      if start < |cart| {
        cart := RemoveAt(cart, start);
      }
      SaveCart();
    }

    /** emptyCart */
    method EmptyCart()
      modifies this`cart, this`stored
      ensures cart == [] && Synced()
    {
      cart := [];
      SaveCart();
    }

    /** The accumulation loop of renderCart: total price and item count of the cart. */
    method Totals() returns (total: int, count: int)
      ensures total == Total(cart) && count == Count(cart)
    {
      total, count := 0, 0;
      for i := 0 to |cart|
        invariant total == Total(cart[..i])
        invariant count == Count(cart[..i])
      {
        assert cart[..i + 1][..i] == cart[..i];
        total := total + cart[i].price * cart[i].quantity;
        count := count + cart[i].quantity;
      }
      assert cart[..|cart|] == cart;
    }
  }

  /** Page load: a fresh store restores the cart from storage. */
  method OpenPage(persisted: Option<seq<Item>>) returns (s: Store)
    ensures fresh(s)
    ensures s.products == [] && s.stored == persisted
    ensures persisted.None? ==> s.cart == []
    ensures persisted.Some? ==> s.cart == persisted.value
  {
    s := new Store(persisted);
    s.LoadCartFromStorage();
  }

  /** Reloading the page after any completed mutation brings back the same cart. */
  method Reload(s: Store) returns (page: Store)
    requires s.Synced()
    ensures fresh(page) && page.cart == s.cart && page.stored == s.stored
  {
    page := OpenPage(s.stored);
  }
}
