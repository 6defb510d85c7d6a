/**
 * Values of the cart store: catalog products, cart lines, the pure
 * specification of every cart mutation, and the two sums the cart panel
 * shows (total price and item count).
 */
module CartItems {

  datatype Option<+T> = None | Some(value: T)

  /** A catalog entry (the description is only shown, never used by the cart). */
  datatype Product = Product(id: int, title: string, price: int)

  /** A cart line: a copy of a product's id, title and price, and a quantity. */
  datatype Item = Item(id: int, title: string, price: int, quantity: int)

  /** The line a product becomes when it enters the cart. */
  function NewLine(p: Product): (it: Item)
  {
    Item(p.id, p.title, p.price, 1)
  }

  // ---------------------------------------------------------------------
  // Lookup (Array.prototype.find, giving the position of the match)
  // ---------------------------------------------------------------------

  /** The position of the first element that satisfies `p`, if any. */
  function Find<T>(s: seq<T>, p: T -> bool): (r: Option<nat>)
    ensures r.Some? ==> r.value < |s| && p(s[r.value])
    ensures r.Some? ==> forall j :: 0 <= j < r.value ==> !p(s[j])
    ensures r.None? <==> forall j :: 0 <= j < |s| ==> !p(s[j])
  {
    if s == [] then None
    else if p(s[0]) then Some(0)
    else match Find(s[1..], p)
      case None => None
      case Some(k) => Some(k + 1)
  }

  /** Find returns the first position whose element satisfies `p`. */
  lemma {:induction false} FindFirst<T>(s: seq<T>, p: T -> bool, k: nat)
    requires k < |s| && p(s[k])
    requires forall j :: 0 <= j < k ==> !p(s[j])
    ensures Find(s, p) == Some(k)
  {
  }

  function HasId(id: int): (p: Item -> bool)
  {
    (it: Item) => it.id == id
  }

  function IsProduct(id: int): (p: Product -> bool)
  {
    (p: Product) => p.id == id
  }

  // ---------------------------------------------------------------------
  // Cart invariants
  // ---------------------------------------------------------------------

  /** No two lines carry the same product id. */
  predicate UniqueIds(cart: seq<Item>)
  {
    forall i, j :: 0 <= i < j < |cart| ==> cart[i].id != cart[j].id
  }

  /** No line is kept at quantity zero or below. */
  predicate PositiveQuantities(cart: seq<Item>)
  {
    forall i :: 0 <= i < |cart| ==> cart[i].quantity >= 1
  }

  predicate WellFormed(cart: seq<Item>)
  {
    UniqueIds(cart) && PositiveQuantities(cart)
  }

  // ---------------------------------------------------------------------
  // The mutations, as functions of the old cart. `None` means the script
  // returns early, before the cart is saved.
  // ---------------------------------------------------------------------

  /** addToCart: bump an existing line, or append the catalog product, or nothing. */
  function Added(cart: seq<Item>, catalog: seq<Product>, id: int): (r: Option<seq<Item>>)
  {
    match Find(cart, HasId(id))
    case Some(k) => Some(cart[k := cart[k].(quantity := cart[k].quantity + 1)])
    case None =>
      match Find(catalog, IsProduct(id))
      case None => None
      case Some(j) => Some(cart + [NewLine(catalog[j])])
  }

  /** The cart without its line at position i, the others kept in order. */
  function RemoveAt(cart: seq<Item>, i: nat): (r: seq<Item>)
    requires i < |cart|
    ensures |r| == |cart| - 1
    ensures forall j :: 0 <= j < i ==> r[j] == cart[j]
    ensures forall j :: i <= j < |r| ==> r[j] == cart[j + 1]
  {
    cart[..i] + cart[i + 1..]
  }

  /** updateQuantity: a position with no line is ignored; a line driven to 0 or below is dropped. */
  function QuantityUpdated(cart: seq<Item>, index: int, delta: int): (r: Option<seq<Item>>)
  {
    if index < 0 || index >= |cart| then None
    else
      var q := cart[index].quantity + delta;
      if q <= 0 then Some(RemoveAt(cart, index))
      else Some(cart[index := cart[index].(quantity := q)])
  }

  /**
   * The position `splice(start, 1)` acts on: a negative start counts from
   * the end (and stops at 0), a start past the end is clamped to the length.
   */
  function SpliceStart(len: nat, start: int): (k: nat)
  {
    if start < 0 then (if len + start < 0 then 0 else len + start)
    else if start > len then len
    else start
  }

  /** removeItem: `cart.splice(index, 1)`. */
  function Spliced(cart: seq<Item>, index: int): (r: seq<Item>)
  {
    var k := SpliceStart(|cart|, index);
    if k < |cart| then RemoveAt(cart, k) else cart
  }

  // ---------------------------------------------------------------------
  // Totals shown by the cart panel
  // ---------------------------------------------------------------------

  function Subtotal(it: Item): (sub: int)
  {
    it.price * it.quantity
  }

  /** Sum of price times quantity over the lines (accumulated front to back). */
  function Total(cart: seq<Item>): (total: int)
  {
    if cart == [] then 0 else Total(cart[..|cart| - 1]) + Subtotal(cart[|cart| - 1])
  }

  /** Sum of the quantities over the lines. */
  function Count(cart: seq<Item>): (count: int)
  {
    if cart == [] then 0 else Count(cart[..|cart| - 1]) + cart[|cart| - 1].quantity
  }

  lemma {:induction false} SumsAppend(cart: seq<Item>, it: Item)
    ensures Total(cart + [it]) == Total(cart) + Subtotal(it)
    ensures Count(cart + [it]) == Count(cart) + it.quantity
  {
  }

  /** Replacing one line changes each sum by the difference of that line alone. */
  lemma {:induction false} SumsReplace(cart: seq<Item>, k: nat, it: Item)
    requires k < |cart|
    ensures Total(cart[k := it]) == Total(cart) - Subtotal(cart[k]) + Subtotal(it)
    ensures Count(cart[k := it]) == Count(cart) - cart[k].quantity + it.quantity
  {
    var n := |cart| - 1;
    var c := cart[k := it];
    if k == n {
      assert c[..n] == cart[..n];
    } else {
      SumsReplace(cart[..n], k, it);
      assert c[..n] == cart[..n][k := it];
    }
  }

  /** Dropping one line takes exactly that line out of each sum. */
  lemma {:induction false} SumsRemove(cart: seq<Item>, k: nat)
    requires k < |cart|
    ensures Total(RemoveAt(cart, k)) == Total(cart) - Subtotal(cart[k])
    ensures Count(RemoveAt(cart, k)) == Count(cart) - cart[k].quantity
  {
    var n := |cart| - 1;
    var r := RemoveAt(cart, k);
    if k == n {
      assert r == cart[..n];
    } else {
      SumsRemove(cart[..n], k);
      assert r[..|r| - 1] == RemoveAt(cart[..n], k);
      assert r[|r| - 1] == cart[n];
    }
  }

  // ---------------------------------------------------------------------
  // addToCart
  // ---------------------------------------------------------------------

  /** A product already in the cart: its line goes up by one, nothing else moves. */
  lemma {:induction false} AddToExistingLine(cart: seq<Item>, catalog: seq<Product>, id: int, k: nat)
    requires k < |cart| && cart[k].id == id
    requires forall j :: 0 <= j < k ==> cart[j].id != id
    ensures Added(cart, catalog, id).Some?
    ensures var c := Added(cart, catalog, id).value;
      && |c| == |cart|
      && c[k] == cart[k].(quantity := cart[k].quantity + 1)
      && (forall j :: 0 <= j < |cart| && j != k ==> c[j] == cart[j])
      && Count(c) == Count(cart) + 1
      && Total(c) == Total(cart) + cart[k].price
  {
    forall j | 0 <= j < k ensures !HasId(id)(cart[j]) {}
    FindFirst(cart, HasId(id), k);
    SumsReplace(cart, k, cart[k].(quantity := cart[k].quantity + 1));
  }

  /** A catalog product not yet in the cart: one line is appended with quantity 1. */
  lemma {:induction false} AddNewLine(cart: seq<Item>, catalog: seq<Product>, id: int, j: nat)
    requires forall i :: 0 <= i < |cart| ==> cart[i].id != id
    requires j < |catalog| && catalog[j].id == id
    requires forall i :: 0 <= i < j ==> catalog[i].id != id
    ensures Added(cart, catalog, id) == Some(cart + [Item(id, catalog[j].title, catalog[j].price, 1)])
    ensures Count(Added(cart, catalog, id).value) == Count(cart) + 1
    ensures Total(Added(cart, catalog, id).value) == Total(cart) + catalog[j].price
  {
  }

  /** An id found neither in the cart nor in the catalog: addToCart returns early. */
  lemma {:induction false} AddUnknown(cart: seq<Item>, catalog: seq<Product>, id: int)
    ensures Added(cart, catalog, id).None? <==>
      (forall i :: 0 <= i < |cart| ==> cart[i].id != id) &&
      (forall j :: 0 <= j < |catalog| ==> catalog[j].id != id)
  {
  }

  /** addToCart keeps ids unique and quantities positive. */
  lemma {:induction false} AddKeepsWellFormed(cart: seq<Item>, catalog: seq<Product>, id: int)
    requires WellFormed(cart)
    ensures Added(cart, catalog, id).Some? ==> WellFormed(Added(cart, catalog, id).value)
  {
  }

  /** Adding the same catalog product twice to a cart without it gives one line of quantity 2. */
  lemma {:induction false} AddTwice(cart: seq<Item>, catalog: seq<Product>, id: int, j: nat)
    requires forall i :: 0 <= i < |cart| ==> cart[i].id != id
    requires j < |catalog| && catalog[j].id == id
    requires forall i :: 0 <= i < j ==> catalog[i].id != id
    ensures Added(cart, catalog, id).Some?
    ensures Added(Added(cart, catalog, id).value, catalog, id) ==
      Some(cart + [Item(id, catalog[j].title, catalog[j].price, 2)])
  {
    AddNewLine(cart, catalog, id, j);
    var once := cart + [Item(id, catalog[j].title, catalog[j].price, 1)];
    AddToExistingLine(once, catalog, id, |cart|);
    assert Added(once, catalog, id).value == cart + [Item(id, catalog[j].title, catalog[j].price, 2)];
  }

  /** One product of price 1000 added twice to an empty cart: one line of quantity 2, total 2000. */
  lemma {:induction false} AddTwiceScenario()
    ensures Added([], [Product(1, "A", 1000)], 1).Some?
    ensures var twice := Added(Added([], [Product(1, "A", 1000)], 1).value, [Product(1, "A", 1000)], 1);
      twice == Some([Item(1, "A", 1000, 2)]) && Total(twice.value) == 2000 && Count(twice.value) == 2
  {
    AddTwice([], [Product(1, "A", 1000)], 1, 0);
    SumsAppend([], Item(1, "A", 1000, 2));
  }

  // ---------------------------------------------------------------------
  // updateQuantity
  // ---------------------------------------------------------------------

  /** A position with no line leaves the cart alone (and nothing is saved). */
  lemma {:induction false} UpdateOutOfRange(cart: seq<Item>, index: int, delta: int)
    ensures QuantityUpdated(cart, index, delta).None? <==> index < 0 || index >= |cart|
  {
  }

  /** A quantity that stays positive: only that line changes, and the count moves by delta. */
  lemma {:induction false} UpdateKeepsLine(cart: seq<Item>, index: nat, delta: int)
    requires index < |cart| && cart[index].quantity + delta > 0
    ensures QuantityUpdated(cart, index, delta).Some?
    ensures var c := QuantityUpdated(cart, index, delta).value;
      && |c| == |cart|
      && c[index] == cart[index].(quantity := cart[index].quantity + delta)
      && (forall j :: 0 <= j < |cart| && j != index ==> c[j] == cart[j])
      && Count(c) == Count(cart) + delta
      && Total(c) == Total(cart) + cart[index].price * delta
  {
    SumsReplace(cart, index, cart[index].(quantity := cart[index].quantity + delta));
  }

  /** A quantity driven to 0 or below: exactly that line disappears, the rest keep their order. */
  lemma {:induction false} UpdateDropsLine(cart: seq<Item>, index: nat, delta: int)
    requires index < |cart| && cart[index].quantity + delta <= 0
    ensures QuantityUpdated(cart, index, delta).Some?
    ensures var c := QuantityUpdated(cart, index, delta).value;
      && |c| == |cart| - 1
      && (forall j :: 0 <= j < index ==> c[j] == cart[j])
      && (forall j :: index <= j < |c| ==> c[j] == cart[j + 1])
      && Count(c) == Count(cart) - cart[index].quantity
      && Total(c) == Total(cart) - Subtotal(cart[index])
  {
    SumsRemove(cart, index);
  }

  /** Dropping a line keeps a well-formed cart well-formed. */
  lemma {:induction false} RemoveAtKeepsWellFormed(cart: seq<Item>, i: nat)
    requires i < |cart| && WellFormed(cart)
    ensures WellFormed(RemoveAt(cart, i))
  {
  }

  /** updateQuantity never leaves a line at zero or below, and keeps ids unique. */
  lemma {:induction false} UpdateKeepsWellFormed(cart: seq<Item>, index: int, delta: int)
    requires WellFormed(cart)
    ensures QuantityUpdated(cart, index, delta).Some? ==>
      WellFormed(QuantityUpdated(cart, index, delta).value)
  {
    if 0 <= index < |cart| && cart[index].quantity + delta <= 0 {
      RemoveAtKeepsWellFormed(cart, index);
    }
  }

  // ---------------------------------------------------------------------
  // removeItem
  // ---------------------------------------------------------------------

  /** splice(i, 1) for a position in range removes exactly that line. */
  lemma {:induction false} SpliceInRange(cart: seq<Item>, i: nat)
    requires i < |cart|
    ensures var c := Spliced(cart, i);
      && |c| == |cart| - 1
      && (forall j :: 0 <= j < i ==> c[j] == cart[j])
      && (forall j :: i <= j < |c| ==> c[j] == cart[j + 1])
      && Count(c) == Count(cart) - cart[i].quantity
      && Total(c) == Total(cart) - Subtotal(cart[i])
  {
    SumsRemove(cart, i);
  }

  /** splice(i, 1) at or past the end, or on an empty cart, changes nothing. */
  lemma {:induction false} SplicePastEnd(cart: seq<Item>, i: int)
    requires i >= |cart| || cart == []
    ensures Spliced(cart, i) == cart
  {
  }

  /** splice(i, 1) for a negative position within the length removes the line that far from the end. */
  lemma {:induction false} SpliceFromEnd(cart: seq<Item>, index: int)
    requires -|cart| <= index < 0
    ensures Spliced(cart, index) == RemoveAt(cart, |cart| + index)
  {
  }

  /** splice(i, 1) for a negative position beyond the length removes the first line. */
  lemma {:induction false} SpliceBeforeStart(cart: seq<Item>, index: int)
    requires cart != [] && index < -|cart|
    ensures Spliced(cart, index) == cart[1..]
  {
  }

  /** removeItem keeps a well-formed cart well-formed, whatever the index. */
  lemma {:induction false} SpliceKeepsWellFormed(cart: seq<Item>, index: int)
    requires WellFormed(cart)
    ensures WellFormed(Spliced(cart, index))
  {
    var k := SpliceStart(|cart|, index);
    if k < |cart| {
      RemoveAtKeepsWellFormed(cart, k);
    }
  }
}
