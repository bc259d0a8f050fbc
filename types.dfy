/**
 * The records the cart works on: catalog products, cart entries and stock
 * records.  A cart entry is a catalog product with an attached `amount`.
 */
module Types {

  datatype Option<T> = None | Some(value: T)

  /** The fields of a product that carry no logic (title, price, image). */
  datatype Details = Details(title: string, price: real, image: string)

  /** A product; in the cart its `amount` is the requested quantity. */
  datatype Product = Product(id: int, details: Details, amount: int)

  /** The quantity of a product that may be bought. */
  datatype Stock = Stock(id: int, amount: int)

  /** The message every out-of-stock rejection shows the user. */
  const OutOfStock: string := "Quantidade solicitada fora de estoque"

  /** No two entries of the cart share an id. */
  predicate UniqueIds(cart: seq<Product>) {
    forall i, j :: 0 <= i < j < |cart| ==> cart[i].id != cart[j].id
  }

  /** Some entry of the cart has this id. */
  predicate HasId(cart: seq<Product>, id: int) {
    exists i :: 0 <= i < |cart| && cart[i].id == id
  }
}
