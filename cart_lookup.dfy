/**
 * The pure parts of the cart operations: the `find` lookups on the stock
 * table, the cart and the catalog, the two `map` passes over the cart (with
 * the out-of-stock messages they raise) and the `filter` that removes a
 * product.
 */
module CartLookup {
  import opened Types

  /** A stock record that `stock.find` accepts for this id. */
  predicate Available(s: Stock, id: int) {
    s.id == id && s.amount > 0
  }

  /** The first stock record of this id with a positive amount, if any. */
  function FindStock(stock: seq<Stock>, id: int): (r: Option<Stock>)
    ensures r.None? <==> forall i :: 0 <= i < |stock| ==> !Available(stock[i], id)
    ensures r.Some? ==> Available(r.value, id)
    ensures r.Some? ==> exists i :: 0 <= i < |stock| && stock[i] == r.value &&
                          forall j :: 0 <= j < i ==> !Available(stock[j], id)
  {
    if stock == [] then None
    else if Available(stock[0], id) then Some(stock[0])
    else
      var r := FindStock(stock[1..], id);
      assert forall j :: 1 <= j < |stock| ==> stock[j] == stock[1..][j - 1];
      r
  }

  /** The first product of this id in a cart or in the catalog, if any. */
  function Find(entries: seq<Product>, id: int): (r: Option<Product>)
    ensures r.None? <==> !HasId(entries, id)
    ensures r.Some? ==> r.value.id == id
    ensures r.Some? ==> exists i :: 0 <= i < |entries| && entries[i] == r.value &&
                          forall j :: 0 <= j < i ==> entries[j].id != id
  {
    if entries == [] then None
    else if entries[0].id == id then Some(entries[0])
    else
      var r := Find(entries[1..], id);
      assert forall j :: 1 <= j < |entries| ==> entries[j] == entries[1..][j - 1];
      r
  }

  /** In a cart without duplicate ids, `find` returns the one entry of that id. */
  lemma FindInUniqueCart(cart: seq<Product>, k: int)
    requires UniqueIds(cart) && 0 <= k < |cart|
    ensures Find(cart, cart[k].id) == Some(cart[k])
  {
    var r := Find(cart, cart[k].id);
    assert HasId(cart, cart[k].id);
    var i :| 0 <= i < |cart| && cart[i] == r.value &&
             forall j :: 0 <= j < i ==> cart[j].id != cart[k].id;
    assert i == k;
  }

  /**
   * The `map` of `addProduct`: every entry of this id whose amount is below
   * the stock limit gets one more; every other entry stays as it is.
   */
  function IncrementAll(cart: seq<Product>, id: int, limit: int): (r: seq<Product>)
    ensures |r| == |cart|
    ensures forall i :: 0 <= i < |cart| ==>
              r[i] == if cart[i].id == id && cart[i].amount < limit
                      then cart[i].(amount := cart[i].amount + 1) else cart[i]
  {
    if cart == [] then []
    else
      var last := cart[|cart| - 1];
      IncrementAll(cart[..|cart| - 1], id, limit)
        + [if last.id == id && last.amount < limit then last.(amount := last.amount + 1) else last]
  }

  /**
   * The messages `addProduct`'s `map` raises, one for each entry of this id
   * already at the limit.  The contract says when there are none; the exact
   * count is proved for carts with distinct ids, in
   * IncrementRefusalsOfUniqueEntry.
   */
  function IncrementRefusals(cart: seq<Product>, id: int, limit: int): (r: seq<string>)
    ensures forall k :: 0 <= k < |r| ==> r[k] == OutOfStock
    ensures |r| <= |cart|
    ensures r == [] <==> forall i :: 0 <= i < |cart| && cart[i].id == id ==> cart[i].amount < limit
  {
    if cart == [] then []
    else
      var last := cart[|cart| - 1];
      var front := cart[..|cart| - 1];
      assert forall i :: 0 <= i < |front| ==> front[i] == cart[i];
      IncrementRefusals(front, id, limit)
        + (if last.id == id && !(last.amount < limit) then [OutOfStock] else [])
  }

  /**
   * The `map` of `updateProductAmount`: when the requested amount is within
   * the limit, every entry of this id takes that amount; otherwise nothing
   * changes.
   */
  function AssignAll(cart: seq<Product>, id: int, amount: int, limit: int): (r: seq<Product>)
    ensures |r| == |cart|
    ensures forall i :: 0 <= i < |cart| ==>
              r[i] == if cart[i].id == id && amount <= limit
                      then cart[i].(amount := amount) else cart[i]
  {
    if cart == [] then []
    else
      var last := cart[|cart| - 1];
      AssignAll(cart[..|cart| - 1], id, amount, limit)
        + [if last.id == id && amount <= limit then last.(amount := amount) else last]
  }

  /**
   * The messages `updateProductAmount`'s `map` raises, one for each entry of
   * this id when the amount exceeds the limit.  The contract says when there
   * are none; the exact count is proved for carts with distinct ids, in
   * AssignRefusalsOfUniqueEntry.
   */
  function AssignRefusals(cart: seq<Product>, id: int, amount: int, limit: int): (r: seq<string>)
    ensures forall k :: 0 <= k < |r| ==> r[k] == OutOfStock
    ensures |r| <= |cart|
    ensures r == [] <==> amount <= limit || !HasId(cart, id)
  {
    if cart == [] then []
    else
      var last := cart[|cart| - 1];
      var front := cart[..|cart| - 1];
      assert forall i :: 0 <= i < |front| ==> front[i] == cart[i];
      AssignRefusals(front, id, amount, limit)
        + (if last.id == id && !(amount <= limit) then [OutOfStock] else [])
  }

  /** In a cart without duplicate ids, the `map` of `addProduct` raises at most the one message of that entry. */
  lemma {:induction false} IncrementRefusalsOfUniqueEntry(cart: seq<Product>, k: int, limit: int)
    requires UniqueIds(cart) && 0 <= k < |cart|
    ensures IncrementRefusals(cart, cart[k].id, limit) ==
            if cart[k].amount < limit then [] else [OutOfStock]
  {
    var n := |cart| - 1;
    var front := cart[..n];
    assert forall i :: 0 <= i < |front| ==> front[i] == cart[i];
    if k == n {
      assert IncrementRefusals(front, cart[k].id, limit) == [];
    } else {
      IncrementRefusalsOfUniqueEntry(front, k, limit);
    }
  }

  /** In a cart without duplicate ids, the `map` of `updateProductAmount` raises at most one message. */
  lemma {:induction false} AssignRefusalsOfUniqueEntry(cart: seq<Product>, k: int, amount: int, limit: int)
    requires UniqueIds(cart) && 0 <= k < |cart|
    ensures AssignRefusals(cart, cart[k].id, amount, limit) ==
            if amount <= limit then [] else [OutOfStock]
  {
    var n := |cart| - 1;
    var front := cart[..n];
    assert forall i :: 0 <= i < |front| ==> front[i] == cart[i];
    if k == n {
      assert !HasId(front, cart[k].id);
    } else {
      AssignRefusalsOfUniqueEntry(front, k, amount, limit);
    }
  }

  /** The `filter` of `removeProduct`: the cart without any entry of this id. */
  function Without(cart: seq<Product>, id: int): (r: seq<Product>)
    ensures forall e :: e in r <==> e in cart && e.id != id
    ensures !HasId(r, id)
    ensures !HasId(cart, id) ==> r == cart
    ensures |r| <= |cart|
  {
    if cart == [] then []
    else if cart[0].id == id then Without(cart[1..], id)
    else [cart[0]] + Without(cart[1..], id)
  }

  /** `filter` keeps the relative order: filtering a concatenation filters each part. */
  lemma {:induction false} WithoutAppend(a: seq<Product>, b: seq<Product>, id: int)
    ensures Without(a + b, id) == Without(a, id) + Without(b, id)
  {
    if a == [] {
      assert a + b == b;
    } else {
      assert (a + b)[1..] == a[1..] + b;
      WithoutAppend(a[1..], b, id);
    }
  }

  /** Dropping entries keeps the ids of the cart distinct. */
  lemma {:induction false} WithoutKeepsUnique(cart: seq<Product>, id: int)
    requires UniqueIds(cart)
    ensures UniqueIds(Without(cart, id))
  {
    if cart != [] {
      WithoutKeepsUnique(cart[1..], id);
      var rest := Without(cart[1..], id);
      forall e | e in rest ensures e.id != cart[0].id {
        var j :| 0 <= j < |cart[1..]| && cart[1..][j] == e;
        assert cart[j + 1] == e;
      }
    }
  }
}
