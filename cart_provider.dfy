/**
 * The state `CartProvider` keeps (src/hooks/cart.tsx:28-94): the published
 * `products` cell and the persisted store. Every operation computes the next
 * snapshot with the pure transitions, publishes it and then overwrites the
 * store's single key with the same list.
 */
module CartProvider {
  import opened CartTransitions

  /** The one key the cart is persisted under. */
  const StorageKey: string := "@GoMarket"

  class Cart {
    /** The published snapshot (the `products` state cell). */
    var products: seq<Product>
    /** The key-value store, holding already-deserialised lists. */
    var store: map<string, seq<Product>>

    /** The published snapshot is exactly what the store holds under the cart's key. */
    ghost predicate Persisted()
      reads this
    {
      StorageKey in store && store[StorageKey] == products
    }

    /** The data-model invariant: at most one line per id, no negative quantity. */
    ghost predicate Valid()
      reads this
    {
      UniqueIds(products) && NonNegative(products)
    }

    /** The provider mounts with an empty cart over a store that outlives it. */
    constructor (initialStore: map<string, seq<Product>>)
      ensures products == [] && store == initialStore
      ensures Valid()
    {
      products := [];
      store := initialStore;
    }

    /** `loadProducts`: seed the cart from the store when a value is stored under the key. */
    method Load()
      modifies this
      ensures store == old(store)
      ensures StorageKey in store ==> products == store[StorageKey] && Persisted()
      ensures StorageKey !in store ==> products == old(products)
    {
      if StorageKey in store {
        products := store[StorageKey];
      }
    }

    /** `addToCart`: publish and persist the next snapshot. */
    method AddToCart(item: Candidate)
      modifies this
      ensures products == CartTransitions.AddToCart(old(products), item)
      ensures store == old(store)[StorageKey := products] && Persisted()
      ensures old(Valid()) ==> Valid() && TotalQuantity(products) == TotalQuantity(old(products)) + 1
    {
      var next := CartTransitions.AddToCart(products, item);
      if Valid() {
        AddToCartKeepsInvariants(products, item);
      }
      products := next;
      store := store[StorageKey := next];
    }

    /** `increment`: publish and persist the next snapshot, even when no line matches. */
    method Increment(id: string)
      modifies this
      ensures products == CartTransitions.Increment(old(products), id)
      ensures store == old(store)[StorageKey := products] && Persisted()
      ensures !HasId(old(products), id) ==> products == old(products)
      ensures old(Valid()) ==> Valid()
      ensures old(Valid()) ==>
        TotalQuantity(products) == TotalQuantity(old(products)) + if HasId(old(products), id) then 1 else 0
    {
      var next := CartTransitions.Increment(products, id);
      IncrementKeepsInvariants(products, id);
      if Valid() {
        IncrementTotal(products, id);
      }
      if !HasId(products, id) {
        IncrementAbsent(products, id);
      }
      products := next;
      store := store[StorageKey := next];
    }

    /** `decrement`: publish and persist the next snapshot, even when nothing changed. */
    method Decrement(id: string)
      modifies this
      ensures products == CartTransitions.Decrement(old(products), id)
      ensures store == old(store)[StorageKey := products] && Persisted()
      ensures Ids(products) == Ids(old(products))
      ensures !HasId(old(products), id) ==> products == old(products)
      ensures old(Valid()) ==> Valid()
    {
      var next := CartTransitions.Decrement(products, id);
      DecrementKeepsInvariants(products, id);
      if !HasId(products, id) {
        DecrementAbsent(products, id);
      }
      products := next;
      store := store[StorageKey := next];
    }
  }

  /**
   * A session over an empty store: add "p1" twice, then decrement it three
   * times. The quantity goes 1, 2, 1, 0 and stays 0; the line is never removed,
   * the store always holds what is published, and loading again changes nothing.
   */
  method Session() returns (published: seq<Product>, persisted: seq<Product>, reloaded: seq<Product>)
    ensures published == [Product("p1", "A", "u", 10.0, 0)]
    ensures persisted == published && reloaded == published
  {
    var cart := new Cart(map[]);
    cart.Load();
    assert cart.products == [];
    var p1 := Candidate("p1", "A", "u", 10.0);
    cart.AddToCart(p1);
    assert cart.products == [Product("p1", "A", "u", 10.0, 1)];
    cart.AddToCart(p1);
    assert cart.products == [Product("p1", "A", "u", 10.0, 2)];
    cart.Decrement("p1");
    assert cart.products == [Product("p1", "A", "u", 10.0, 1)];
    cart.Decrement("p1");
    cart.Decrement("p1");
    published := cart.products;
    persisted := cart.store[StorageKey];
    cart.Load();
    reloaded := cart.products;
  }
}
