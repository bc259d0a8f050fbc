/**
 * The cart badge of the page header: the number of distinct product ids in
 * the cart, counted by a fold whose list of seen ids starts as [-1], and the
 * label shown for that number.
 */
module Header {
  import opened Types

  /** The ids that occur in a cart. */
  function Ids(cart: seq<Product>): set<int> {
    set e | e in cart :: e.id
  }

  /** The ids the header counts: every id of the cart except the sentinel -1. */
  function Counted(cart: seq<Product>): set<int> {
    Ids(cart) - {-1}
  }

  /** Appending an entry adds its id to the counted ids, unless it is -1 or already there. */
  lemma CountedSnoc(front: seq<Product>, e: Product)
    ensures Ids(front + [e]) == Ids(front) + {e.id}
    ensures e.id == -1 || e.id in Ids(front) ==> Counted(front + [e]) == Counted(front)
    ensures e.id != -1 && e.id !in Ids(front) ==>
              |Counted(front + [e])| == |Counted(front)| + 1
  {
    var ids := Ids(front + [e]);
    assert forall x :: x in ids <==> x in Ids(front) || x == e.id by {
      forall x ensures x in ids <==> x in Ids(front) || x == e.id {
        if x in ids {
          var d :| d in front + [e] && d.id == x;
        }
        if x in Ids(front) {
          var d :| d in front && d.id == x;
          assert d in front + [e];
        }
        assert e in front + [e];
      }
    }
    if e.id != -1 && e.id !in Ids(front) {
      assert Counted(front + [e]) == Counted(front) + {e.id};
    }
  }

  /** The header never counts more ids than the cart has entries. */
  lemma {:induction false} CountedBound(cart: seq<Product>)
    ensures |Counted(cart)| <= |cart|
  {
    if cart != [] {
      var front := cart[..|cart| - 1];
      assert cart == front + [cart[|cart| - 1]];
      CountedSnoc(front, cart[|cart| - 1]);
      CountedBound(front);
    }
  }

  /**
   * The `reduce` over the cart: an entry whose id is not yet among the seen
   * ids adds one to the size and joins them.  Since -1 is seen from the
   * start, an entry of id -1 is never counted.
   */
  method CartSize(cart: seq<Product>) returns (size: nat)
    ensures size == |Counted(cart)|
    ensures size <= |cart|
  {
    size := 0;
    var ids: seq<int> := [-1];
    for i := 0 to |cart|
      invariant forall x :: x in ids <==> x == -1 || x in Ids(cart[..i])
      invariant size == |Counted(cart[..i])|
    {
      var item := cart[i];
      assert cart[..i + 1] == cart[..i] + [item];
      CountedSnoc(cart[..i], item);
      if item.id !in ids {
        size := size + 1;
        ids := ids + [item.id];
      }
    }
    assert cart[..|cart|] == cart;
    CountedBound(cart);
  }

  /** An entry whose id is already in the cart, or is -1, leaves the size as it was. */
  lemma SeenIdNotCounted(cart: seq<Product>, e: Product)
    requires e.id == -1 || e.id in Ids(cart)
    ensures Counted(cart + [e]) == Counted(cart)
  {
    CountedSnoc(cart, e);
  }

  /** An id that no entry carries is not among the cart's ids. */
  lemma IdAbsent(cart: seq<Product>, x: int)
    requires forall j :: 0 <= j < |cart| ==> cart[j].id != x
    ensures x !in Ids(cart)
  {
  }

  /** A cart with distinct ids, none of them -1, has one unit of size per entry. */
  lemma {:induction false} SizeOfUniqueCart(cart: seq<Product>)
    requires UniqueIds(cart)
    requires forall i :: 0 <= i < |cart| ==> cart[i].id != -1
    ensures |Counted(cart)| == |cart|
  {
    if cart != [] {
      var front := cart[..|cart| - 1];
      var last := cart[|cart| - 1];
      assert cart == front + [last];
      assert forall i :: 0 <= i < |front| ==> front[i] == cart[i];
      assert UniqueIds(front);
      assert forall j :: 0 <= j < |front| ==> front[j].id != last.id;
      IdAbsent(front, last.id);
      CountedSnoc(front, last);
      SizeOfUniqueCart(front);
    }
  }

  // ---------------------------------------------------------------------
  // The label
  // ---------------------------------------------------------------------

  function DigitChar(d: nat): (c: char)
    requires d < 10
    ensures '0' <= c <= '9'
  {
    "0123456789"[d]
  }

  function DigitValue(c: char): nat {
    if '0' <= c <= '9' then (c as int - '0' as int) else 0
  }

  /** The decimal numeral of n, as a template literal prints it. */
  function DecimalString(n: nat): (r: string)
    ensures |r| >= 1
    ensures forall k :: 0 <= k < |r| ==> '0' <= r[k] <= '9'
    ensures |r| > 1 ==> r[0] != '0'
  {
    if n < 10 then [DigitChar(n)]
    else DecimalString(n / 10) + [DigitChar(n % 10)]
  }

  /** The value of a numeral. */
  function ParseDecimal(s: string): nat {
    if s == [] then 0
    else ParseDecimal(s[..|s| - 1]) * 10 + DigitValue(s[|s| - 1])
  }

  /** Reading back a printed number gives the number. */
  lemma {:induction false} ParseDecimalString(n: nat)
    ensures ParseDecimal(DecimalString(n)) == n
  {
    var r := DecimalString(n);
    if n < 10 {
      assert r[..0] == [];
    } else {
      assert r[..|r| - 1] == DecimalString(n / 10);
      ParseDecimalString(n / 10);
    }
  }

  /** The badge text: "1 item" for one product, "<size> itens" for any other size. */
  function Label(size: nat): (r: string)
    ensures r == "1 item" <==> size == 1
    ensures size != 1 ==> |r| > 6 && r[|r| - 6..] == " itens"
    ensures size != 1 ==> r[..|r| - 6] == DecimalString(size) && ParseDecimal(r[..|r| - 6]) == size
  {
    if size == 1 then "1 item"
    else
      var n := DecimalString(size);
      var r := n + " itens";
      assert r[..|r| - 6] == n && r[|r| - 6..] == " itens";
      ParseDecimalString(size);
      r
  }

  /** Two sizes with the same label are the same size. */
  lemma LabelDeterminesSize(a: nat, b: nat)
    requires Label(a) == Label(b)
    ensures a == b
  {
  }

  /** The text of the badge: the label of the cart's size. */
  method BadgeText(cart: seq<Product>) returns (r: string)
    ensures r == Label(|Counted(cart)|)
    ensures r == "1 item" <==> |Counted(cart)| == 1
  {
    var size := CartSize(cart);
    r := Label(size);
  }

  /** An empty cart reads "0 itens". */
  lemma LabelOfEmptyCart()
    ensures Label(0) == "0 itens"
  {
  }
}
