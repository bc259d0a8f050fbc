/**
 * The cart provider: the cart (the entries picked so far), the product
 * catalog, the stock table, the copy of the cart kept in the browser's
 * storage slot, and the messages shown to the user.  `addProduct` and
 * `updateProductAmount` check the request against the stock table;
 * `removeProduct` does not.  A branch that maps over the cart hands the mapped
 * cart to `setCart` and may also show an out-of-stock message for an entry
 * that fails the check; adding a product missing from the catalog does
 * neither.  Every call except an update with a non-positive amount then writes
 * the cart it captured at the start of the call to storage.
 *
 * The transitions are first given as functions on a `CartState` value, and
 * the properties of the operations are proved about those functions; the
 * class `CartProvider` then runs the operations step by step on its fields
 * and proves that each call performs exactly the transition.
 */
module UseCart {
  import opened Types
  import opened CartLookup

  /** All the state one cart provider holds. `stored` is None while nothing has been saved. */
  datatype CartState = CartState(
    cart: seq<Product>,
    products: seq<Product>,
    stock: seq<Stock>,
    stored: Option<seq<Product>>,
    log: seq<string>)

  /** Every entry has a positive-stock record and an amount between 1 and that stock. */
  predicate WithinStock(cart: seq<Product>, stock: seq<Stock>) {
    forall i :: 0 <= i < |cart| ==>
      FindStock(stock, cart[i].id).Some? &&
      1 <= cart[i].amount <= FindStock(stock, cart[i].id).value.amount
  }

  /** The invariant the three operations keep. */
  predicate Consistent(s: CartState) {
    UniqueIds(s.cart) && WithinStock(s.cart, s.stock)
  }

  /** No stock record of this id has a positive amount. */
  predicate SoldOut(stock: seq<Stock>, id: int) {
    forall i :: 0 <= i < |stock| && stock[i].id == id ==> stock[i].amount <= 0
  }

  // ---------------------------------------------------------------------
  // The three operations as transitions
  // ---------------------------------------------------------------------

  /** `addProduct(productId)`. */
  function Add(s: CartState, productId: int): (t: CartState)
    ensures t.products == s.products && t.stock == s.stock
    ensures t.stored.Some?
    ensures s.log <= t.log
  {
    match FindStock(s.stock, productId)
    case None =>
      s.(log := s.log + [OutOfStock], stored := Some(s.cart))
    case Some(inStock) =>
      if Find(s.cart, productId).Some? then
        // the entries are changed in place, so the captured array shows the new amounts
        var mapped := IncrementAll(s.cart, productId, inStock.amount);
        s.(cart := mapped, stored := Some(mapped),
           log := s.log + IncrementRefusals(s.cart, productId, inStock.amount))
      else
        match Find(s.products, productId)
        case Some(product) =>
          s.(cart := s.cart + [product.(amount := 1)], stored := Some(s.cart))
        case None =>
          s.(stored := Some(s.cart))
  }

  /** `removeProduct(productId)`. */
  function Remove(s: CartState, productId: int): (t: CartState)
    ensures t.products == s.products && t.stock == s.stock && t.log == s.log
    ensures |t.cart| <= |s.cart|
  {
    s.(cart := Without(s.cart, productId), stored := Some(s.cart))
  }

  /** `updateProductAmount({productId, amount})`. */
  function Update(s: CartState, productId: int, amount: int): (t: CartState)
    ensures t.products == s.products && t.stock == s.stock
    ensures |t.cart| == |s.cart|
    ensures s.log <= t.log
  {
    if amount <= 0 then s
    else
      match FindStock(s.stock, productId)
      case None =>
        s.(log := s.log + [OutOfStock], stored := Some(s.cart))
      case Some(inStock) =>
        // as in Add, the captured array shows the amounts written in place
        var updated := AssignAll(s.cart, productId, amount, inStock.amount);
        s.(cart := updated, stored := Some(updated),
           log := s.log + AssignRefusals(s.cart, productId, amount, inStock.amount))
  }

  // ---------------------------------------------------------------------
  // addProduct
  // ---------------------------------------------------------------------

  /** Without a positive stock record (amount 0 counts as none) the cart stays and one message is shown. */
  lemma AddSoldOut(s: CartState, productId: int)
    requires SoldOut(s.stock, productId)
    ensures Add(s, productId).cart == s.cart
    ensures Add(s, productId).log == s.log + [OutOfStock]
    ensures Add(s, productId).stored == Some(s.cart)
  {
  }

  /** An entry below its stock gains exactly one unit; nothing else changes, and no message is shown. */
  lemma AddIncrementsEntry(s: CartState, k: int)
    requires UniqueIds(s.cart) && 0 <= k < |s.cart|
    requires FindStock(s.stock, s.cart[k].id).Some?
    requires s.cart[k].amount < FindStock(s.stock, s.cart[k].id).value.amount
    ensures Add(s, s.cart[k].id).cart == s.cart[k := s.cart[k].(amount := s.cart[k].amount + 1)]
    ensures Add(s, s.cart[k].id).log == s.log
    ensures Add(s, s.cart[k].id).stored == Some(Add(s, s.cart[k].id).cart)
  {
    var id := s.cart[k].id;
    FindInUniqueCart(s.cart, k);
    IncrementRefusalsOfUniqueEntry(s.cart, k, FindStock(s.stock, id).value.amount);
  }

  /** An entry already at its stock stays, and one message is shown. */
  lemma AddAtLimit(s: CartState, k: int)
    requires UniqueIds(s.cart) && 0 <= k < |s.cart|
    requires FindStock(s.stock, s.cart[k].id).Some?
    requires s.cart[k].amount >= FindStock(s.stock, s.cart[k].id).value.amount
    ensures Add(s, s.cart[k].id).cart == s.cart
    ensures Add(s, s.cart[k].id).log == s.log + [OutOfStock]
    ensures Add(s, s.cart[k].id).stored == Some(s.cart)
  {
    var id := s.cart[k].id;
    var limit := FindStock(s.stock, id).value.amount;
    FindInUniqueCart(s.cart, k);
    IncrementRefusalsOfUniqueEntry(s.cart, k, limit);
    assert IncrementAll(s.cart, id, limit) == s.cart;
  }

  /** A product in stock, in the catalog and not yet in the cart is appended with amount 1. */
  lemma AddAppends(s: CartState, productId: int)
    requires FindStock(s.stock, productId).Some?
    requires !HasId(s.cart, productId) && HasId(s.products, productId)
    ensures Add(s, productId).cart ==
            s.cart + [Find(s.products, productId).value.(amount := 1)]
    ensures Add(s, productId).cart[|s.cart|].id == productId
    ensures Add(s, productId).cart[|s.cart|].amount == 1
    ensures Add(s, productId).log == s.log
    ensures Add(s, productId).stored == Some(s.cart)
  {
  }

  /**
   * A product in stock but absent from both the cart and the catalog: the cart
   * and the log stay as they were and no message is shown; storage receives the
   * cart captured at the start of the call.
   */
  lemma AddNotInCatalog(s: CartState, productId: int)
    requires FindStock(s.stock, productId).Some?
    requires !HasId(s.cart, productId) && !HasId(s.products, productId)
    ensures Add(s, productId) == s.(stored := Some(s.cart))
  {
  }

  /** A call to `addProduct` keeps the ids distinct and every amount within 1 and its stock. */
  lemma AddPreservesConsistent(s: CartState, productId: int)
    requires Consistent(s)
    ensures Consistent(Add(s, productId))
  {
    var t := Add(s, productId);
    if FindStock(s.stock, productId).Some? && !HasId(s.cart, productId) {
      if HasId(s.products, productId) {
        var p := Find(s.products, productId).value;
        assert t.cart == s.cart + [p.(amount := 1)];
        assert forall i :: 0 <= i < |s.cart| ==> s.cart[i].id != productId;
      }
    }
  }

  // ---------------------------------------------------------------------
  // removeProduct
  // ---------------------------------------------------------------------

  /** The new cart holds exactly the old entries of other ids; an absent id leaves it as it was. */
  lemma RemoveDropsEntries(s: CartState, productId: int)
    ensures forall e :: e in Remove(s, productId).cart <==> e in s.cart && e.id != productId
    ensures !HasId(Remove(s, productId).cart, productId)
    ensures !HasId(s.cart, productId) ==> Remove(s, productId).cart == s.cart
    ensures Remove(s, productId).stored == Some(s.cart)
  {
  }

  /** In a cart without duplicate ids, removing entry k closes the gap and keeps the order of the rest. */
  lemma RemoveUniqueEntry(s: CartState, k: int)
    requires UniqueIds(s.cart) && 0 <= k < |s.cart|
    ensures Remove(s, s.cart[k].id).cart == s.cart[..k] + s.cart[k + 1..]
  {
    var id := s.cart[k].id;
    var before, after := s.cart[..k], s.cart[k + 1..];
    assert s.cart == before + ([s.cart[k]] + after);
    WithoutAppend(before, [s.cart[k]] + after, id);
    WithoutAppend([s.cart[k]], after, id);
    assert !HasId(before, id) by {
      forall i | 0 <= i < |before| ensures before[i].id != id {
        assert before[i] == s.cart[i];
      }
    }
    assert !HasId(after, id) by {
      forall i | 0 <= i < |after| ensures after[i].id != id {
        assert after[i] == s.cart[k + 1 + i];
      }
    }
  }

  /** A call to `removeProduct` keeps the ids distinct and every amount within 1 and its stock. */
  lemma RemovePreservesConsistent(s: CartState, productId: int)
    requires Consistent(s)
    ensures Consistent(Remove(s, productId))
  {
    var r := Remove(s, productId).cart;
    WithoutKeepsUnique(s.cart, productId);
    forall i | 0 <= i < |r|
      ensures FindStock(s.stock, r[i].id).Some? &&
              1 <= r[i].amount <= FindStock(s.stock, r[i].id).value.amount
    {
      assert r[i] in s.cart;
    }
  }

  // ---------------------------------------------------------------------
  // updateProductAmount
  // ---------------------------------------------------------------------

  /** A requested amount of zero or less changes nothing: no message, no storage write. */
  lemma UpdateNonPositive(s: CartState, productId: int, amount: int)
    requires amount <= 0
    ensures Update(s, productId, amount) == s
  {
  }

  /** A positive amount within the stock replaces only that entry's amount, without a message. */
  lemma UpdateSetsAmount(s: CartState, k: int, amount: int)
    requires UniqueIds(s.cart) && 0 <= k < |s.cart| && 0 < amount
    requires FindStock(s.stock, s.cart[k].id).Some?
    requires amount <= FindStock(s.stock, s.cart[k].id).value.amount
    ensures Update(s, s.cart[k].id, amount).cart == s.cart[k := s.cart[k].(amount := amount)]
    ensures Update(s, s.cart[k].id, amount).log == s.log
    ensures Update(s, s.cart[k].id, amount).stored == Some(Update(s, s.cart[k].id, amount).cart)
  {
  }

  /** An amount above the stock of an entry in the cart leaves the cart as it was and shows one message. */
  lemma UpdateOverStock(s: CartState, k: int, amount: int)
    requires UniqueIds(s.cart) && 0 <= k < |s.cart| && 0 < amount
    requires FindStock(s.stock, s.cart[k].id).Some?
    requires amount > FindStock(s.stock, s.cart[k].id).value.amount
    ensures Update(s, s.cart[k].id, amount).cart == s.cart
    ensures Update(s, s.cart[k].id, amount).log == s.log + [OutOfStock]
    ensures Update(s, s.cart[k].id, amount).stored == Some(s.cart)
  {
    var id := s.cart[k].id;
    var limit := FindStock(s.stock, id).value.amount;
    AssignRefusalsOfUniqueEntry(s.cart, k, amount, limit);
    assert AssignAll(s.cart, id, amount, limit) == s.cart;
  }

  /** A positive amount for a product without a positive stock record leaves the cart as it was and shows one message. */
  lemma UpdateSoldOut(s: CartState, productId: int, amount: int)
    requires 0 < amount && SoldOut(s.stock, productId)
    ensures Update(s, productId, amount).cart == s.cart
    ensures Update(s, productId, amount).log == s.log + [OutOfStock]
    ensures Update(s, productId, amount).stored == Some(s.cart)
  {
  }

  /**
   * A product in stock but not in the cart, with a positive amount of any size:
   * the cart and the log stay as they were and no message is shown; storage
   * receives the cart captured at the start of the call.
   */
  lemma UpdateNotInCart(s: CartState, productId: int, amount: int)
    requires 0 < amount && FindStock(s.stock, productId).Some? && !HasId(s.cart, productId)
    ensures Update(s, productId, amount) == s.(stored := Some(s.cart))
  {
    assert AssignAll(s.cart, productId, amount, FindStock(s.stock, productId).value.amount) == s.cart;
  }

  /** A call to `updateProductAmount` keeps the ids distinct and every amount within 1 and its stock. */
  lemma UpdatePreservesConsistent(s: CartState, productId: int, amount: int)
    requires Consistent(s)
    ensures Consistent(Update(s, productId, amount))
  {
  }

  // ---------------------------------------------------------------------
  // The storage slot
  // ---------------------------------------------------------------------

  /**
   * `addProduct` stores the array it captured: it shows an amount changed in
   * place, but not an entry appended by the call.
   */
  lemma AddStoresCaptured(s: CartState, productId: int)
    ensures Add(s, productId).stored ==
            Some(if |Add(s, productId).cart| == |s.cart| then Add(s, productId).cart else s.cart)
  {
  }

  /** `removeProduct` stores the cart as it was before the removal. */
  lemma RemoveStoresCaptured(s: CartState, productId: int)
    ensures Remove(s, productId).stored == Some(s.cart)
  {
  }

  /** `updateProductAmount` with a positive amount stores the cart with the new amounts; otherwise it stores nothing. */
  lemma UpdateStoresCaptured(s: CartState, productId: int, amount: int)
    ensures Update(s, productId, amount).stored ==
            if amount <= 0 then s.stored else Some(Update(s, productId, amount).cart)
  {
  }

  /** One call of one of the three operations, with its arguments. */
  datatype Op = AddOp(productId: int) | RemoveOp(productId: int) | UpdateOp(productId: int, amount: int)

  /** The state after one call. */
  function Step(s: CartState, op: Op): CartState {
    match op
    case AddOp(id) => Add(s, id)
    case RemoveOp(id) => Remove(s, id)
    case UpdateOp(id, amount) => Update(s, id, amount)
  }

  /** The state after running the operations in order. */
  function Run(s: CartState, ops: seq<Op>): (t: CartState)
    ensures t.products == s.products && t.stock == s.stock
    decreases |ops|
  {
    if ops == [] then s else Run(Step(s, ops[0]), ops[1..])
  }

  /** Whichever operations run, the ids stay distinct and the amounts stay within 1 and their stock. */
  lemma {:induction false} RunPreservesConsistent(s: CartState, ops: seq<Op>)
    requires Consistent(s)
    ensures Consistent(Run(s, ops))
    decreases |ops|
  {
    if ops != [] {
      match ops[0] {
        case AddOp(id) => AddPreservesConsistent(s, id);
        case RemoveOp(id) => RemovePreservesConsistent(s, id);
        case UpdateOp(id, amount) => UpdatePreservesConsistent(s, id, amount);
      }
      RunPreservesConsistent(Step(s, ops[0]), ops[1..]);
    }
  }

  /** Adding a sold-out product n times leaves the cart as it was and shows n messages. */
  lemma {:induction false} AddSoldOutRepeatedly(s: CartState, productId: int, n: nat)
    requires SoldOut(s.stock, productId)
    ensures Run(s, seq(n, _ => AddOp(productId))).cart == s.cart
    ensures Run(s, seq(n, _ => AddOp(productId))).log == s.log + seq(n, _ => OutOfStock)
    decreases n
  {
    var ops := seq(n, _ => AddOp(productId));
    if n > 0 {
      var t := Add(s, productId);
      assert ops[1..] == seq(n - 1, _ => AddOp(productId));
      AddSoldOutRepeatedly(t, productId, n - 1);
      assert [OutOfStock] + seq(n - 1, _ => OutOfStock) == seq(n, _ => OutOfStock);
    }
  }

  /** Appending to an empty cart stores the empty cart captured at the start of the call: the slot lags one call behind. */
  lemma AppendNotStored(p: Product, stock: Stock)
    requires stock.id == p.id && stock.amount > 0
    ensures Add(CartState([], [p], [stock], None, []), p.id).cart == [p.(amount := 1)]
    ensures Add(CartState([], [p], [stock], None, []), p.id).stored == Some([])
  {
  }

  /** Removing from a two-entry cart leaves both entries in the stored copy. */
  lemma RemovalNotStored(a: Product, b: Product)
    requires a.id != b.id
    ensures Remove(CartState([a, b], [], [], None, []), b.id).cart == [a]
    ensures Remove(CartState([a, b], [], [], None, []), b.id).stored == Some([a, b])
  {
    assert [a, b][1..] == [b];
    assert Without([b], b.id) == Without([], b.id) == [];
  }

  // ---------------------------------------------------------------------
  // The provider object
  // ---------------------------------------------------------------------

  class CartProvider {
    var cart: seq<Product>
    var products: seq<Product>
    var stock: seq<Stock>
    var stored: Option<seq<Product>>
    var log: seq<string>

    function State(): CartState
      reads this
    {
      CartState(cart, products, stock, stored, log)
    }

    /** The cart starts as the stored copy, or empty when the slot holds nothing. */
    constructor (saved: Option<seq<Product>>, products: seq<Product>, stock: seq<Stock>)
      ensures State() == CartState(if saved.Some? then saved.value else [],
                                   products, stock, saved, [])
    {
      cart := if saved.Some? then saved.value else [];
      this.products := products;
      this.stock := stock;
      stored := saved;
      log := [];
    }

    method AddProduct(productId: int)
      modifies this`cart, this`stored, this`log
      ensures State() == Add(old(State()), productId)
      ensures old(Consistent(State())) ==> Consistent(State())
    {
      ghost var s := State();
      var captured := cart;      // the `cart` the closure sees
      var next := captured;      // the value handed to `setCart`, if it is called
      var inStock := FindStock(stock, productId);
      if inStock.Some? {
        var inCart := Find(captured, productId);
        if inCart.Some? {
          var mapped := IncrementEntries(captured, productId, inStock.value.amount);
          next := mapped;
          captured := mapped;    // the entries were changed in place
        } else {
          var product := Find(products, productId);
          if product.Some? {
            next := captured + [product.value.(amount := 1)];
          }
        }
      } else {
        log := log + [OutOfStock];
      }
      stored := Some(captured);
      cart := next;
      if Consistent(s) {
        AddPreservesConsistent(s, productId);
      }
    }

    method RemoveProduct(productId: int)
      modifies this`cart, this`stored
      ensures State() == Remove(old(State()), productId)
      ensures old(Consistent(State())) ==> Consistent(State())
    {
      ghost var s := State();
      var captured := cart;
      cart := Without(captured, productId);
      stored := Some(captured);
      if Consistent(s) {
        RemovePreservesConsistent(s, productId);
      }
    }

    method UpdateProductAmount(productId: int, amount: int)
      modifies this`cart, this`stored, this`log
      ensures State() == Update(old(State()), productId, amount)
      ensures old(Consistent(State())) ==> Consistent(State())
    {
      ghost var s := State();
      if amount <= 0 {
        return;
      }
      var captured := cart;
      var inStock := FindStock(stock, productId);
      if inStock.Some? {
        var updated := AssignEntries(captured, productId, amount, inStock.value.amount);
        cart := updated;
        captured := updated;     // the entries were changed in place
      } else {
        log := log + [OutOfStock];
      }
      stored := Some(captured);
      if Consistent(s) {
        UpdatePreservesConsistent(s, productId, amount);
      }
    }
    /** The `map` callback of `addProduct`, run over the captured cart. */
    method IncrementEntries(captured: seq<Product>, productId: int, limit: int)
      returns (mapped: seq<Product>)
      modifies this`log
      ensures mapped == IncrementAll(captured, productId, limit)
      ensures log == old(log) + IncrementRefusals(captured, productId, limit)
    {
      mapped := [];
      for i := 0 to |captured|
        invariant mapped == IncrementAll(captured[..i], productId, limit)
        invariant log == old(log) + IncrementRefusals(captured[..i], productId, limit)
      {
        var product := captured[i];
        if product.id == productId {
          if product.amount < limit {
            product := product.(amount := product.amount + 1);
          } else {
            log := log + [OutOfStock];
          }
        }
        assert captured[..i + 1][..i] == captured[..i];
        mapped := mapped + [product];
      }
      assert captured[..|captured|] == captured;
    }

    /** The `map` callback of `updateProductAmount`, run over the captured cart. */
    method AssignEntries(captured: seq<Product>, productId: int, amount: int, limit: int)
      returns (updated: seq<Product>)
      modifies this`log
      ensures updated == AssignAll(captured, productId, amount, limit)
      ensures log == old(log) + AssignRefusals(captured, productId, amount, limit)
    {
      updated := [];
      for i := 0 to |captured|
        invariant updated == AssignAll(captured[..i], productId, amount, limit)
        invariant log == old(log) + AssignRefusals(captured[..i], productId, amount, limit)
      {
        var product := captured[i];
        if product.id == productId {
          if amount <= limit {
            product := product.(amount := amount);
          } else {
            log := log + [OutOfStock];
          }
        }
        assert captured[..i + 1][..i] == captured[..i];
        updated := updated + [product];
      }
      assert captured[..|captured|] == captured;
    }
  }
}
