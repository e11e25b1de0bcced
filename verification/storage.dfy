/** The in-memory catalogue: a table from integer id to `Product` and the counter
    that gives the next id, starting at 1.

    `Catalogue` is the table as a value, and `Create`, `Lookup` and `CreateAll` say what
    the operations do to it; the lemmas below prove what the store promises (ids are
    unique, the k-th create gets id k, a created product can be looked up, an id never
    handed out is absent). `InMemoryStorage` is the object the application holds: it
    updates its fields in place and each of its methods is proved against the value
    functions. */
module Storage {
  import opened Wrappers
  import opened Models

  /** The store's state: the products by id and the id the next create will use. */
  datatype Catalogue = Catalogue(products: map<int, Product>, nextId: int)

  /** The store's invariant: every key lies in [1, nextId), names the product stored
      under it, and every stored product satisfies the field constraints. */
  predicate Inv(c: Catalogue)
  {
    && c.nextId >= 1
    && forall k :: k in c.products ==>
         1 <= k < c.nextId && c.products[k].id == k && ValidProduct(c.products[k])
  }

  /** What a successful create yields: the new state and the product it stored. */
  datatype Created = Created(store: Catalogue, product: Product)

  /** The state of a store that has just been constructed. */
  function Empty(): (c: Catalogue)
    ensures Inv(c)
    ensures forall id :: Lookup(c, id) == None
    ensures c.nextId == 1
  {
    Catalogue(map[], 1)
  }

  /** Looking up an id: the product stored under it, or `None` when there is none. */
  function Lookup(c: Catalogue, id: int): (r: Option<Product>)
    ensures r.Some? <==> id in c.products
    ensures r.Some? ==> r.value == c.products[id]
    ensures Inv(c) && r.Some? ==> r.value.id == id && 1 <= id < c.nextId && ValidProduct(r.value)
  {
    if id in c.products then Some(c.products[id]) else None
  }

  /** Creating a product: it is built with the current counter as its id (building it
      re-validates the fields), stored under that id, and the counter moves on by one.
      When the fields do not validate, the report is returned and there is no new state. */
  function Create(c: Catalogue, data: ProductCreate, now: Timestamp): (r: Result<Created, seq<FieldError>>)
    requires Inv(c)
    ensures r.Success? <==> ValidCreate(data)
    ensures r.Success? ==>
              && r.value.product == Product(c.nextId, data.name, data.price, now)
              && r.value.store.nextId == c.nextId + 1
              && c.nextId !in c.products
              && r.value.store.products == c.products[c.nextId := r.value.product]
              && Inv(r.value.store)
    ensures r.Failure? ==> r.error == FieldErrors(data.name, data.price) && r.error != []
  {
    match NewProduct(Some(c.nextId), data.name, data.price, now)
    case Failure(errs) => Failure(errs)
    case Success(p) => Success(Created(Catalogue(c.products[c.nextId := p], c.nextId + 1), p))
  }

  /** Data that satisfies the field constraints is always stored: creating cannot fail
      on valid input. */
  lemma CreateValidSucceeds(c: Catalogue, data: ProductCreate, now: Timestamp)
    requires Inv(c)
    requires NewProductCreate(data.name, data.price).Success?
    ensures Create(c, data, now).Success?
    ensures Create(c, data, now).value.product.id == c.nextId
  {
  }

  /** Round trip: the product a create returns is what a lookup of its id then finds,
      and every other id looks up exactly as it did before. */
  lemma CreateThenLookup(c: Catalogue, data: ProductCreate, now: Timestamp, other: int)
    requires Inv(c)
    requires Create(c, data, now).Success?
    ensures var cr := Create(c, data, now).value;
            Lookup(cr.store, cr.product.id) == Some(cr.product)
    ensures var cr := Create(c, data, now).value;
            other != cr.product.id ==> Lookup(cr.store, other) == Lookup(c, other)
  {
  }

  /** An id the counter has not reached, or one below 1, was never handed out and is
      absent. */
  lemma UnassignedIsAbsent(c: Catalogue, id: int)
    requires Inv(c)
    requires id < 1 || id >= c.nextId
    ensures Lookup(c, id) == None
  {
  }

  /** Ids are unique: two stored products with the same id are stored under the same key. */
  lemma IdsUnique(c: Catalogue, k1: int, k2: int)
    requires Inv(c)
    requires k1 in c.products && k2 in c.products
    requires c.products[k1].id == c.products[k2].id
    ensures k1 == k2
  {
  }

  /** The number of requests that pass validation. */
  function ValidCount(reqs: seq<ProductCreate>): (n: nat)
    ensures n <= |reqs|
    ensures (forall i :: 0 <= i < |reqs| ==> ValidCreate(reqs[i])) ==> n == |reqs|
  {
    if reqs == [] then 0 else (if ValidCreate(reqs[0]) then 1 else 0) + ValidCount(reqs[1..])
  }

  /** A run of creates, one per request, the i-th reading the clock as `clock[i]`. It
      yields the final state and the products that were stored, in order. A single
      create refuses a request whose fields do not validate (building the product
      raises); the run stands for a caller that catches that refusal and goes on with
      the next request, so an invalid request stores nothing and uses no id. The
      products get consecutive ids starting at the counter's value, one per valid
      request, and the counter ends just past the last. */
  function CreateAll(c: Catalogue, reqs: seq<ProductCreate>, clock: seq<Timestamp>): (r: (Catalogue, seq<Product>))
    requires Inv(c)
    requires |clock| == |reqs|
    ensures Inv(r.0)
    ensures |r.1| == ValidCount(reqs)
    ensures r.0.nextId == c.nextId + |r.1|
    ensures forall i :: 0 <= i < |r.1| ==> r.1[i].id == c.nextId + i
    decreases |reqs|
  {
    if reqs == [] then (c, [])
    else
      var first := Create(c, reqs[0], clock[0]);
      if first.Failure? then CreateAll(c, reqs[1..], clock[1..])
      else
        var tail := CreateAll(first.value.store, reqs[1..], clock[1..]);
        var ps := [first.value.product] + tail.1;
        assert forall i :: 0 < i < |ps| ==> ps[i] == tail.1[i - 1];
        (tail.0, ps)
  }

  /** A run of creates stores under exactly the old keys plus the ids it handed out. */
  lemma {:induction false} CreateAllKeys(c: Catalogue, reqs: seq<ProductCreate>, clock: seq<Timestamp>)
    requires Inv(c)
    requires |clock| == |reqs|
    ensures var last := CreateAll(c, reqs, clock).0;
            forall k :: k in last.products <==> k in c.products || c.nextId <= k < last.nextId
    decreases |reqs|
  {
    if reqs != [] {
      var first := Create(c, reqs[0], clock[0]);
      if first.Failure? {
        CreateAllKeys(c, reqs[1..], clock[1..]);
        assert CreateAll(c, reqs, clock) == CreateAll(c, reqs[1..], clock[1..]);
      } else {
        var st := first.value.store;
        CreateAllKeys(st, reqs[1..], clock[1..]);
        assert CreateAll(c, reqs, clock).0 == CreateAll(st, reqs[1..], clock[1..]).0;
        assert forall k :: k in st.products <==> k in c.products || k == c.nextId;
      }
    }
  }

  /** A run of creates leaves every product stored before it untouched. */
  lemma {:induction false} CreateAllKeepsStored(c: Catalogue, reqs: seq<ProductCreate>, clock: seq<Timestamp>)
    requires Inv(c)
    requires |clock| == |reqs|
    ensures var last := CreateAll(c, reqs, clock).0;
            forall k :: k in c.products ==> k in last.products && last.products[k] == c.products[k]
    decreases |reqs|
  {
    if reqs != [] {
      var first := Create(c, reqs[0], clock[0]);
      if first.Failure? {
        CreateAllKeepsStored(c, reqs[1..], clock[1..]);
      } else {
        CreateAllKeepsStored(first.value.store, reqs[1..], clock[1..]);
      }
    }
  }

  /** After a run of creates, every product it returned can be looked up by its id. */
  lemma {:induction false} CreateAllStoresEach(c: Catalogue, reqs: seq<ProductCreate>, clock: seq<Timestamp>)
    requires Inv(c)
    requires |clock| == |reqs|
    ensures var r := CreateAll(c, reqs, clock);
            forall i :: 0 <= i < |r.1| ==> Lookup(r.0, r.1[i].id) == Some(r.1[i])
    decreases |reqs|
  {
    if reqs != [] {
      var r := CreateAll(c, reqs, clock);
      match Create(c, reqs[0], clock[0])
      case Failure(_) =>
        CreateAllStoresEach(c, reqs[1..], clock[1..]);
        assert r == CreateAll(c, reqs[1..], clock[1..]);
      case Success(cr) =>
        CreateAllStoresEach(cr.store, reqs[1..], clock[1..]);
        CreateAllKeepsStored(cr.store, reqs[1..], clock[1..]);
        var tail := CreateAll(cr.store, reqs[1..], clock[1..]);
        assert r == (tail.0, [cr.product] + tail.1);
        forall i | 0 <= i < |r.1|
          ensures Lookup(r.0, r.1[i].id) == Some(r.1[i])
        {
          if i > 0 { assert r.1[i] == tail.1[i - 1]; }
        }
    }
  }

  /** Monotonic assignment from a fresh store: when every request is valid, the N
      creates return the requests' names and prices with ids 1, 2, ..., N in order,
      each one can be looked up by its id, and the stored ids are exactly 1..N. */
  lemma FromEmptyIdsAreOneToN(reqs: seq<ProductCreate>, clock: seq<Timestamp>)
    requires |clock| == |reqs|
    requires forall i :: 0 <= i < |reqs| ==> ValidCreate(reqs[i])
    ensures var (last, ps) := CreateAll(Empty(), reqs, clock);
            && |ps| == |reqs|
            && (forall i :: 0 <= i < |ps| ==>
                  && ps[i].id == i + 1
                  && ps[i].name == reqs[i].name && ps[i].price == reqs[i].price
                  && Lookup(last, i + 1) == Some(ps[i]))
            && (forall k :: k in last.products <==> 1 <= k <= |reqs|)
            && last.nextId == |reqs| + 1
  {
    CreateAllKeys(Empty(), reqs, clock);
    CreateAllStoresEach(Empty(), reqs, clock);
    CreateAllKeepsFields(Empty(), reqs, clock);
  }

  /** A run of creates stores each valid request's own fields, in the order given. */
  lemma {:induction false} CreateAllKeepsFields(c: Catalogue, reqs: seq<ProductCreate>, clock: seq<Timestamp>)
    requires Inv(c)
    requires |clock| == |reqs|
    requires forall i :: 0 <= i < |reqs| ==> ValidCreate(reqs[i])
    ensures var ps := CreateAll(c, reqs, clock).1;
            forall i :: 0 <= i < |ps| ==>
              ps[i] == Product(c.nextId + i, reqs[i].name, reqs[i].price, clock[i])
    decreases |reqs|
  {
    if reqs != [] {
      var cr := Create(c, reqs[0], clock[0]).value;
      CreateAllKeepsFields(cr.store, reqs[1..], clock[1..]);
      var rest := CreateAll(cr.store, reqs[1..], clock[1..]).1;
      var ps := CreateAll(c, reqs, clock).1;
      assert ps == [cr.product] + rest;
      forall i | 0 <= i < |ps|
        ensures ps[i] == Product(c.nextId + i, reqs[i].name, reqs[i].price, clock[i])
      {
        if i > 0 {
          assert ps[i] == rest[i - 1];
          assert reqs[i] == reqs[1..][i - 1] && clock[i] == clock[1..][i - 1];
        }
      }
    }
  }

  /** On a fresh store the first create gets id 1 and can be looked up under 1, while an
      id nobody was given, such as 999, is absent. */
  lemma FreshStoreScenario(now: Timestamp)
    ensures var r := Create(Empty(), ProductCreate("テスト商品", 100.0), now);
            && r.Success?
            && r.value.product.id == 1
            && r.value.product.name == "テスト商品"
            && Lookup(r.value.store, 1) == Some(r.value.product)
    ensures Lookup(Empty(), 999) == None
  {
  }

  /** The catalogue object. Its fields are updated in place by `CreateProduct`;
      `Model` is their value as a `Catalogue`. */
  class InMemoryStorage {
    var products: map<int, Product>
    var nextId: int

    function Model(): Catalogue
      reads this
    {
      Catalogue(products, nextId)
    }

    ghost predicate Valid()
      reads this
    {
      Inv(Model())
    }

    /** A new store is empty and its next id is 1. */
    constructor ()
      ensures Valid()
      ensures products == map[] && nextId == 1
      ensures Model() == Empty()
    {
      products := map[];
      nextId := 1;
    }

    /** Builds a product with the current counter as its id, stores it under that id
        and advances the counter. Only the new key is written; if the fields do not
        validate, the error report is returned and nothing changes. */
    method CreateProduct(data: ProductCreate, now: Timestamp) returns (r: Result<Product, seq<FieldError>>)
      requires Valid()
      modifies this
      ensures Valid()
      ensures match Create(old(Model()), data, now)
              case Success(cr) => r == Success(cr.product) && Model() == cr.store
              case Failure(errs) => r == Failure(errs) && Model() == old(Model())
      ensures r.Success? ==>
                && r.value == Product(old(nextId), data.name, data.price, now)
                && nextId == old(nextId) + 1
                && old(nextId) !in old(products)
                && products == old(products)[old(nextId) := r.value]
    {
      var built := NewProduct(Some(nextId), data.name, data.price, now);
      if built.Failure? {
        return Failure(built.error);
      }
      var product := built.value;
      products := products[nextId := product];
      nextId := nextId + 1;
      r := Success(product);
    }

    /** Looks an id up without changing the store: the stored product, or `None`. */
    method GetProduct(productId: int) returns (r: Option<Product>)
      requires Valid()
      ensures r == Lookup(Model(), productId)
      ensures r.Some? ==> r.value.id == productId && ValidProduct(r.value)
      ensures productId < 1 || productId >= nextId ==> r == None
    {
      if productId in products {
        r := Some(products[productId]);
      } else {
        r := None;
      }
    }
  }

  /** The store as its unit tests drive it: on a new store, creating a product named
      "テスト商品" priced 100 returns it with id 1, a lookup of 1 returns that same
      product, and a lookup of 999 finds nothing. */
  method CreateThenGetScenario(now: Timestamp) returns (created: Result<Product, seq<FieldError>>, found: Option<Product>, missing: Option<Product>)
    ensures created.Success?
    ensures created.value.id == 1 && created.value.name == "テスト商品" && created.value.price == 100.0
    ensures found == Some(created.value)
    ensures missing == None
  {
    var storage := new InMemoryStorage();
    created := storage.CreateProduct(ProductCreate("テスト商品", 100.0), now);
    found := storage.GetProduct(1);
    missing := storage.GetProduct(999);
  }
}
