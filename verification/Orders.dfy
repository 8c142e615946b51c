/** The value types of the order book (pkg/orderbook/include/orderbook/orderbook.hpp). */
module Orders {

  datatype Side = Buy | Sell

  datatype OrderType = Limit | Market

  datatype Order = Order(
    id: string, account: string, side: Side, kind: OrderType, price: int, quantity: int)

  datatype Fill = Fill(makerId: string, takerId: string, price: int, quantity: int)

  /** An order resting in a book.  `arrival` numbers accepted orders in the order in which
      the book's lock was taken; it stands for time and is never read by executable code. */
  datatype Resting = Resting(order: Order, arrival: nat)

  function Opposite(s: Side): Side {
    if s == Buy then Sell else Buy
  }

  /** `p` is a strictly better price than `q` for an order resting on side `s`:
      the key order of the bid map (descending) and of the ask map (ascending). */
  predicate Beats(s: Side, p: int, q: int) {
    if s == Buy then p > q else p < q
  }

  /** Price-time priority between two orders resting on side `s`. */
  predicate Ahead(s: Side, x: Resting, y: Resting) {
    || Beats(s, x.order.price, y.order.price)
    || (x.order.price == y.order.price && x.arrival < y.arrival)
  }

  function TotalQty(rs: seq<Resting>): int {
    if rs == [] then 0 else rs[0].order.quantity + TotalQty(rs[1..])
  }

  lemma {:induction false} TotalQtyConcat(a: seq<Resting>, b: seq<Resting>)
    ensures TotalQty(a + b) == TotalQty(a) + TotalQty(b)
  {
    if a == [] {
      assert a + b == b;
    } else {
      assert (a + b)[1..] == a[1..] + b;
      TotalQtyConcat(a[1..], b);
    }
  }

  function TradedQty(fs: seq<Fill>): int {
    if fs == [] then 0 else fs[0].quantity + TradedQty(fs[1..])
  }

  lemma {:induction false} TradedQtyConcat(a: seq<Fill>, b: seq<Fill>)
    ensures TradedQty(a + b) == TradedQty(a) + TradedQty(b)
  {
    if a == [] {
      assert a + b == b;
    } else {
      assert (a + b)[1..] == a[1..] + b;
      TradedQtyConcat(a[1..], b);
    }
  }
}
