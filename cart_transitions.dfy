/**
 * The three cart transitions of src/hooks/cart.tsx as pure functions over a
 * cart snapshot: each takes the current list of products and builds the next
 * list, never touching the old one.
 */
module CartTransitions {
  import opened Wrappers

  /** One cart line. `price` is carried along but never read by the cart. */
  datatype Product = Product(id: string, title: string, imageUrl: string, price: real, quantity: int)

  /** The argument of `addToCart`: a product without its quantity. */
  datatype Candidate = Candidate(id: string, title: string, imageUrl: string, price: real)

  /** The line `addToCart` appends for a candidate not yet in the cart. */
  function NewLine(c: Candidate): Product
  {
    Product(c.id, c.title, c.imageUrl, c.price, 1)
  }

  // ---------------------------------------------------------------------------
  // Views of a cart used by the specifications

  ghost predicate HasId(products: seq<Product>, id: string)
  {
    exists i :: 0 <= i < |products| && products[i].id == id
  }

  /** The cart invariant of the data model: at most one line per id. */
  ghost predicate UniqueIds(products: seq<Product>)
  {
    forall i, j :: 0 <= i < j < |products| ==> products[i].id != products[j].id
  }

  ghost predicate NonNegative(products: seq<Product>)
  {
    forall i :: 0 <= i < |products| ==> products[i].quantity >= 0
  }

  /** The ids of the lines, in cart order. */
  ghost function Ids(products: seq<Product>): seq<string>
  {
    seq(|products|, i requires 0 <= i < |products| => products[i].id)
  }

  /** The number of items in the cart, counting each line by its quantity. */
  ghost function TotalQuantity(products: seq<Product>): int
  {
    if products == [] then 0 else products[0].quantity + TotalQuantity(products[1..])
  }

  /** `products.find(p => p.id === id)`: the first line carrying `id`, if any. */
  function Find(products: seq<Product>, id: string): (r: Option<Product>)
    ensures r.None? <==> !HasId(products, id)
    ensures r.Some? ==> r.value.id == id
    ensures r.Some? ==> exists k :: 0 <= k < |products| && products[k] == r.value &&
                                    !HasId(products[..k], id)
  {
    if products == [] then None
    else if products[0].id == id then
      assert !HasId(products[..0], id);
      Some(products[0])
    else
      var r := Find(products[1..], id);
      assert r.Some? ==> exists k :: 0 <= k < |products| && products[k] == r.value &&
                                     !HasId(products[..k], id) by {
        if r.Some? {
          var k :| 0 <= k < |products[1..]| && products[1..][k] == r.value && !HasId(products[1..][..k], id);
          assert products[..k + 1] == [products[0]] + products[1..][..k];
          assert products[k + 1] == r.value;
        }
      }
      r
  }

  // ---------------------------------------------------------------------------
  // increment (cart.tsx:66-72)

  /** The callback `increment` maps over the cart: a copy, one more if the id matches. */
  function IncrementLine(p: Product, id: string): Product
  {
    if p.id == id then p.(quantity := p.quantity + 1) else p
  }

  /** The next snapshot after `increment(id)`. */
  function Increment(products: seq<Product>, id: string): (r: seq<Product>)
    ensures |r| == |products|
  {
    if products == [] then []
    else [IncrementLine(products[0], id)] + Increment(products[1..], id)
  }

  /** Every line keeps all of its fields but the quantity, which goes up by one exactly where the id matches. */
  lemma {:induction false} IncrementAt(products: seq<Product>, id: string)
    ensures |Increment(products, id)| == |products|
    ensures forall i :: 0 <= i < |products| ==>
      Increment(products, id)[i] ==
      products[i].(quantity := products[i].quantity + if products[i].id == id then 1 else 0)
  {
    if products != [] {
      IncrementAt(products[1..], id);
      forall i | 1 <= i < |products|
        ensures Increment(products, id)[i] == Increment(products[1..], id)[i - 1]
      {
      }
    }
  }

  /** With no line carrying `id`, `increment` returns an equal cart. */
  lemma {:induction false} IncrementAbsent(products: seq<Product>, id: string)
    requires !HasId(products, id)
    ensures Increment(products, id) == products
  {
    IncrementAt(products, id);
  }

  /** In a cart with unique ids, `increment` replaces exactly the matching line by its copy with one more. */
  lemma IncrementPresent(products: seq<Product>, id: string, k: nat)
    requires UniqueIds(products)
    requires k < |products| && products[k].id == id
    ensures Increment(products, id) == products[k := products[k].(quantity := products[k].quantity + 1)]
  {
    IncrementAt(products, id);
  }

  /** `increment` keeps the order of ids (so their uniqueness) and never makes a quantity negative. */
  lemma IncrementKeepsInvariants(products: seq<Product>, id: string)
    ensures Ids(Increment(products, id)) == Ids(products)
    ensures UniqueIds(products) ==> UniqueIds(Increment(products, id))
    ensures NonNegative(products) ==> NonNegative(Increment(products, id))
  {
    IncrementAt(products, id);
  }

  /** In a cart with unique ids, `increment` adds one item when the id is present, none otherwise. */
  lemma {:induction false} IncrementTotal(products: seq<Product>, id: string)
    requires UniqueIds(products)
    ensures TotalQuantity(Increment(products, id)) ==
            TotalQuantity(products) + if HasId(products, id) then 1 else 0
  {
    if HasId(products, id) {
      var k :| 0 <= k < |products| && products[k].id == id;
      IncrementPresent(products, id, k);
      TotalQuantityUpdate(products, k, products[k].quantity + 1);
    } else {
      IncrementAbsent(products, id);
    }
  }

  // ---------------------------------------------------------------------------
  // decrement (cart.tsx:82-88)

  /** The callback `decrement` maps over the cart: a copy, one less if the id matches and the quantity is positive. */
  function DecrementLine(p: Product, id: string): Product
  {
    if p.id == id && p.quantity > 0 then p.(quantity := p.quantity - 1) else p
  }

  /** The next snapshot after `decrement(id)`. */
  function Decrement(products: seq<Product>, id: string): (r: seq<Product>)
    ensures |r| == |products|
  {
    if products == [] then []
    else [DecrementLine(products[0], id)] + Decrement(products[1..], id)
  }

  /** Every line keeps all of its fields but the quantity, which goes down by one exactly where the id matches and it was positive. */
  lemma {:induction false} DecrementAt(products: seq<Product>, id: string)
    ensures |Decrement(products, id)| == |products|
    ensures forall i :: 0 <= i < |products| ==>
      Decrement(products, id)[i] ==
      products[i].(quantity := products[i].quantity - if products[i].id == id && products[i].quantity > 0 then 1 else 0)
  {
    if products != [] {
      DecrementAt(products[1..], id);
      forall i | 1 <= i < |products|
        ensures Decrement(products, id)[i] == Decrement(products[1..], id)[i - 1]
      {
      }
    }
  }

  /** With no line carrying `id`, `decrement` returns an equal cart. */
  lemma {:induction false} DecrementAbsent(products: seq<Product>, id: string)
    requires !HasId(products, id)
    ensures Decrement(products, id) == products
  {
    DecrementAt(products, id);
  }

  /** In a cart with unique ids, `decrement` lowers the matching line by one if it is positive and leaves it at its value otherwise; nothing else changes. */
  lemma DecrementPresent(products: seq<Product>, id: string, k: nat)
    requires UniqueIds(products)
    requires k < |products| && products[k].id == id
    ensures products[k].quantity > 0 ==>
      Decrement(products, id) == products[k := products[k].(quantity := products[k].quantity - 1)]
    ensures products[k].quantity <= 0 ==> Decrement(products, id) == products
  {
    DecrementAt(products, id);
  }

  /** `decrement` never removes a line: length and ids stay; no quantity becomes negative. */
  lemma DecrementKeepsInvariants(products: seq<Product>, id: string)
    ensures Ids(Decrement(products, id)) == Ids(products)
    ensures UniqueIds(products) ==> UniqueIds(Decrement(products, id))
    ensures NonNegative(products) ==> NonNegative(Decrement(products, id))
  {
    DecrementAt(products, id);
  }

  /** In a cart with unique ids, `decrement` removes one item exactly when the matching line's quantity is positive. */
  lemma {:induction false} DecrementTotal(products: seq<Product>, id: string)
    requires UniqueIds(products)
    ensures TotalQuantity(Decrement(products, id)) == TotalQuantity(products) -
      if exists k :: 0 <= k < |products| && products[k].id == id && products[k].quantity > 0 then 1 else 0
  {
    if k :| 0 <= k < |products| && products[k].id == id {
      DecrementPresent(products, id, k);
      if products[k].quantity > 0 {
        TotalQuantityUpdate(products, k, products[k].quantity - 1);
      }
    } else {
      DecrementAbsent(products, id);
    }
  }

  // ---------------------------------------------------------------------------
  // addToCart (cart.tsx:44-56)

  /**
   * The next snapshot after `addToCart(c)`: append a new line with quantity 1,
   * or, when a line with the id is found, map the same callback `increment` uses.
   */
  function AddToCart(products: seq<Product>, c: Candidate): (r: seq<Product>)
    ensures HasId(r, c.id)
  {
    match Find(products, c.id)
    case None =>
      assert (products + [NewLine(c)])[|products|].id == c.id;
      products + [NewLine(c)]
    case Some(_) =>
      IncrementKeepsInvariants(products, c.id);
      assert Ids(Increment(products, c.id)) == Ids(products);
      var k :| 0 <= k < |products| && products[k].id == c.id;
      assert Ids(products)[k] == c.id;
      Increment(products, c.id)
  }

  /** Both branches of `addToCart`, stated by what the result is. */
  lemma AddToCartCases(products: seq<Product>, c: Candidate)
    ensures !HasId(products, c.id) ==>
      AddToCart(products, c) == products + [Product(c.id, c.title, c.imageUrl, c.price, 1)]
    ensures HasId(products, c.id) ==>
      |AddToCart(products, c)| == |products| &&
      forall i :: 0 <= i < |products| ==>
        AddToCart(products, c)[i] ==
        products[i].(quantity := products[i].quantity + if products[i].id == c.id then 1 else 0)
  {
    IncrementAt(products, c.id);
  }

  /** In a cart with unique ids, `addToCart` grows the cart by 0 or 1 lines, adds exactly one item and keeps ids unique and quantities non-negative. */
  lemma AddToCartKeepsInvariants(products: seq<Product>, c: Candidate)
    requires UniqueIds(products)
    ensures |AddToCart(products, c)| == |products| + if HasId(products, c.id) then 0 else 1
    ensures TotalQuantity(AddToCart(products, c)) == TotalQuantity(products) + 1
    ensures UniqueIds(AddToCart(products, c))
    ensures NonNegative(products) ==> NonNegative(AddToCart(products, c))
  {
    var r := AddToCart(products, c);
    if HasId(products, c.id) {
      IncrementKeepsInvariants(products, c.id);
      IncrementTotal(products, c.id);
    } else {
      TotalQuantityAppend(products, NewLine(c));
    }
  }

  // ---------------------------------------------------------------------------
  // Arithmetic of TotalQuantity

  /** Changing one line's quantity changes the total by the difference. */
  lemma {:induction false} TotalQuantityUpdate(products: seq<Product>, k: nat, q: int)
    requires k < |products|
    ensures TotalQuantity(products[k := products[k].(quantity := q)]) ==
            TotalQuantity(products) - products[k].quantity + q
  {
    var updated := products[k := products[k].(quantity := q)];
    if k > 0 {
      TotalQuantityUpdate(products[1..], k - 1, q);
      assert updated[1..] == products[1..][k - 1 := products[k].(quantity := q)];
    } else {
      assert updated[1..] == products[1..];
    }
  }

  /** Appending a line adds its quantity to the total. */
  lemma {:induction false} TotalQuantityAppend(products: seq<Product>, p: Product)
    ensures TotalQuantity(products + [p]) == TotalQuantity(products) + p.quantity
  {
    if products != [] {
      TotalQuantityAppend(products[1..], p);
      assert (products + [p])[1..] == products[1..] + [p];
    }
  }
}
