/** The order book as a value: two flat lists in price-time order.  This is what the class
    OrderBook is proved to implement. */
module BookSpec {
  import opened Arithmetic
  import opened Orders
  import opened FlatMatcher

  datatype Book = Book(bids: seq<Resting>, asks: seq<Resting>, clock: nat)

  const EMPTY := Book([], [], 0)

  datatype AddError = NonPositiveQuantity | NonPositivePrice | DuplicateId

  datatype AddResult = Accepted(fills: seq<Fill>) | Rejected(error: AddError)

  function OnSide(b: Book, s: Side): seq<Resting> {
    if s == Buy then b.bids else b.asks
  }

  function WithSide(b: Book, s: Side, rs: seq<Resting>): Book {
    if s == Buy then b.(bids := rs) else b.(asks := rs)
  }

  ghost predicate HasId(rs: seq<Resting>, id: string) {
    exists r :: r in rs && r.order.id == id
  }

  ghost predicate Known(b: Book, id: string) {
    HasId(b.bids, id) || HasId(b.asks, id)
  }

  /** Behind every order whose price is at least as good. */
  function Insert(s: Side, rs: seq<Resting>, r: Resting): seq<Resting> {
    if rs == [] || Beats(s, r.order.price, rs[0].order.price) then [r] + rs
    else [rs[0]] + Insert(s, rs[1..], r)
  }

  function Without(rs: seq<Resting>, id: string): seq<Resting> {
    if rs == [] then []
    else (if rs[0].order.id == id then [] else [rs[0]]) + Without(rs[1..], id)
  }

  /** An order submitted without an id gets a generated one. */
  function WithId(o: Order, generated: string): Order {
    if o.id == "" then o.(id := generated) else o
  }

  function Matched(b: Book, t: Order): Outcome {
    Match(t, OnSide(b, Opposite(t.side)))
  }

  /** The book after a valid order was matched and, if it is a limit order with quantity
      left, put to rest. */
  function Accept(b: Book, t: Order): Book {
    var r := Matched(b, t);
    var b1 := WithSide(b, Opposite(t.side), r.left);
    var b2 := if r.remaining > 0 && t.kind == Limit
              then WithSide(b1, t.side, Insert(t.side, OnSide(b1, t.side),
                                               Resting(t.(quantity := r.remaining), b.clock)))
              else b1;
    b2.(clock := b.clock + 1)
  }

  ghost function AddVerdict(b: Book, o: Order, generated: string): AddResult {
    if o.quantity <= 0 then Rejected(NonPositiveQuantity)
    else if o.kind == Limit && o.price <= 0 then Rejected(NonPositivePrice)
    else if Known(b, WithId(o, generated).id) then Rejected(DuplicateId)
    else Accepted(Matched(b, WithId(o, generated)).fills)
  }

  ghost function Add(b: Book, o: Order, generated: string): Book {
    if AddVerdict(b, o, generated).Accepted? then Accept(b, WithId(o, generated)) else b
  }

  function Cancel(b: Book, id: string): Book {
    b.(bids := Without(b.bids, id), asks := Without(b.asks, id))
  }

  lemma {:induction false} InsertBetween(s: Side, a: seq<Resting>, b: seq<Resting>, r: Resting)
    requires forall x :: x in a ==> !Beats(s, r.order.price, x.order.price)
    requires b != [] ==> Beats(s, r.order.price, b[0].order.price)
    ensures Insert(s, a + b, r) == a + [r] + b
    decreases |a|
  {
    if a == [] {
      assert a + b == b && a + [r] + b == [r] + b;
    } else {
      assert (a + b)[1..] == a[1..] + b;
      InsertBetween(s, a[1..], b, r);
      assert [a[0]] + (a[1..] + [r] + b) == a + [r] + b;
    }
  }

  lemma {:induction false} WithoutConcat(a: seq<Resting>, b: seq<Resting>, id: string)
    ensures Without(a + b, id) == Without(a, id) + Without(b, id)
    decreases |a|
  {
    if a == [] {
      assert a + b == b;
    } else {
      assert (a + b)[1..] == a[1..] + b;
      WithoutConcat(a[1..], b, id);
    }
  }

  lemma {:induction false} WithoutAbsent(a: seq<Resting>, id: string)
    requires forall x :: x in a ==> x.order.id != id
    ensures Without(a, id) == a
    decreases |a|
  {
    if a != [] {
      WithoutAbsent(a[1..], id);
      assert [a[0]] + a[1..] == a;
    }
  }

  /** Matching brings no new order to the side it consumes. */
  lemma {:induction false} LeftFrom(t: Order, ms: seq<Resting>, x: Resting)
    requires x in Match(t, ms).left
    ensures exists m :: m in ms && m.arrival == x.arrival &&
              x.order == m.order.(quantity := x.order.quantity)
    decreases |ms|
  {
    if ms == [] || t.quantity <= 0 || !Within(t, ms[0].order.price) {
      assert x in ms && x.order == x.order.(quantity := x.order.quantity);
    } else {
      var m := ms[0];
      assert m in ms;
      var t1 := if SelfTrade(t, m.order) then t
                else t.(quantity := t.quantity - Min(t.quantity, m.order.quantity));
      if x in Match(t1, ms[1..]).left {
        LeftFrom(t1, ms[1..], x);
        var m' :| m' in ms[1..] && m'.arrival == x.arrival &&
                  x.order == m'.order.(quantity := x.order.quantity);
        assert m' in ms;
      }
    }
  }

  lemma MatchKeepsIds(t: Order, ms: seq<Resting>, id: string)
    requires HasId(Match(t, ms).left, id)
    ensures HasId(ms, id)
  {
    var x :| x in Match(t, ms).left && x.order.id == id;
    LeftFrom(t, ms, x);
  }

  /** Removing an id that occurs once is removing that entry. */
  lemma {:induction false} WithoutOne(a: seq<Resting>, x: Resting, b: seq<Resting>)
    requires forall y :: y in a || y in b ==> y.order.id != x.order.id
    ensures Without(a + [x] + b, x.order.id) == a + b
  {
    var id := x.order.id;
    WithoutConcat(a + [x], b, id);
    WithoutConcat(a, [x], id);
    WithoutAbsent(a, id);
    WithoutAbsent(b, id);
    assert a + [] == a;
  }

  lemma CancelUnknown(b: Book, id: string)
    requires !Known(b, id)
    ensures Cancel(b, id) == b
  {
    WithoutAbsent(b.bids, id);
    WithoutAbsent(b.asks, id);
  }

  ghost function Ids(rs: seq<Resting>): set<string> {
    set r | r in rs :: r.order.id
  }

  ghost predicate DistinctIds(rs: seq<Resting>) {
    forall i, j :: 0 <= i < j < |rs| ==> rs[i].order.id != rs[j].order.id
  }

  lemma {:induction false} IdCount(rs: seq<Resting>)
    requires DistinctIds(rs)
    ensures |Ids(rs)| == |rs|
  {
    if rs != [] {
      IdCount(rs[1..]);
      assert rs == [rs[0]] + rs[1..];
      assert Ids(rs) == {rs[0].order.id} + Ids(rs[1..]);
      assert rs[0].order.id !in Ids(rs[1..]);
    }
  }

  /** Best ask minus best bid, never below zero. */
  function Spread(b: Book): int
    requires b.bids != [] && b.asks != []
  {
    Max(0, b.asks[0].order.price - b.bids[0].order.price)
  }
}
