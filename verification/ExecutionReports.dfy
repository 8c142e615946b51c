/** The figures of an execution report: quantity filled, value traded, average price. */
module ExecutionReports {
  import opened Arithmetic
  import opened Orders
  import opened FlatMatcher
  import opened BookSpec
  import opened BookInvariant

  datatype Status = New | Partial | Filled | Unmatched

  /** Integer division as the source's language does it: toward zero. */
  function Quotient(a: int, b: int): int
    requires b > 0
  {
    if a >= 0 then a / b else -(-a / b)
  }

  function Value(fs: seq<Fill>): int {
    if fs == [] then 0 else fs[0].quantity * fs[0].price + Value(fs[1..])
  }

  function AveragePrice(fs: seq<Fill>): int {
    if TradedQty(fs) > 0 then Quotient(Value(fs), TradedQty(fs)) else 0
  }

  ghost predicate PricedWithin(fs: seq<Fill>, lo: int, hi: int) {
    forall f :: f in fs ==> f.quantity > 0 && lo <= f.price <= hi
  }

  lemma {:induction false} ValueSnoc(fs: seq<Fill>, f: Fill)
    ensures Value(fs + [f]) == Value(fs) + f.quantity * f.price
    ensures TradedQty(fs + [f]) == TradedQty(fs) + f.quantity
  {
    if fs == [] {
      assert [] + [f] == [f];
      assert Value([f]) == f.quantity * f.price + Value([]);
      assert TradedQty([f]) == f.quantity + TradedQty([]);
    } else {
      assert (fs + [f])[1..] == fs[1..] + [f];
      ValueSnoc(fs[1..], f);
    }
  }

  /** The accumulating loop of the POST handler, and the rounded average it reports. */
  method Totals(fills: seq<Fill>) returns (filled: int, value: int, price: int)
    ensures filled == TradedQty(fills) && value == Value(fills) && price == AveragePrice(fills)
  {
    filled, value := 0, 0;
    var i: nat := 0;
    while i < |fills|
      invariant i <= |fills|
      invariant filled == TradedQty(fills[..i]) && value == Value(fills[..i])
    {
      assert fills[..i + 1] == fills[..i] + [fills[i]];
      ValueSnoc(fills[..i], fills[i]);
      filled := filled + fills[i].quantity;
      value := value + fills[i].quantity * fills[i].price;
      i := i + 1;
    }
    assert fills[..i] == fills;
    price := if filled > 0 then Quotient(value, filled) else 0;
  }

  lemma Splits(a: int, m: int, n: int)
    ensures a * (m + n) == a * m + a * n
  {
  }

  lemma {:induction false} ValueWithin(fs: seq<Fill>, lo: int, hi: int)
    requires PricedWithin(fs, lo, hi)
    ensures lo * TradedQty(fs) <= Value(fs) <= hi * TradedQty(fs)
    ensures if fs == [] then TradedQty(fs) == 0 else TradedQty(fs) > 0
  {
    if fs != [] {
      var q, p, rest := fs[0].quantity, fs[0].price, TradedQty(fs[1..]);
      assert fs[0] in fs;
      ValueWithin(fs[1..], lo, hi);
      Scales(lo, p, q);
      Scales(p, hi, q);
      Splits(lo, q, rest);
      Splits(hi, q, rest);
      var here := q * p;
      assert here == p * q;
      assert Value(fs) == here + Value(fs[1..]);
    }
  }

  lemma QuotientWithin(v: int, n: int, lo: int, hi: int)
    requires n > 0 && lo * n <= v <= hi * n
    ensures lo <= Quotient(v, n) <= hi
  {
    if v >= 0 {
      DivideWithin(v, n, lo, hi);
    } else {
      DivideWithin(-v, n, -hi, -lo);
    }
  }

  lemma DivideWithin(v: int, n: int, lo: int, hi: int)
    requires n > 0 && lo * n <= v <= hi * n
    ensures lo <= v / n <= hi
  {
    var q, r := v / n, v % n;
    assert v == q * n + r && 0 <= r < n;
    assert (hi + 1) * n == hi * n + n;
    assert (q + 1) * n == q * n + n;
    if q > hi {
      Scales(hi + 1, q, n);
    }
    if q < lo {
      Scales(q + 1, lo, n);
    }
  }

  /** The reported price lies between the lowest and the highest fill. */
  lemma AverageWithin(fs: seq<Fill>, lo: int, hi: int)
    requires fs != [] && PricedWithin(fs, lo, hi)
    ensures lo <= AveragePrice(fs) <= hi
  {
    ValueWithin(fs, lo, hi);
    QuotientWithin(Value(fs), TradedQty(fs), lo, hi);
  }

  /** It is the value per unit, rounded down. */
  lemma AverageIsFloor(fs: seq<Fill>, hi: int)
    requires fs != [] && PricedWithin(fs, 0, hi)
    ensures var p := AveragePrice(fs);
            p * TradedQty(fs) <= Value(fs) < (p + 1) * TradedQty(fs)
  {
    ValueWithin(fs, 0, hi);
    var v, n := Value(fs), TradedQty(fs);
    assert v == (v / n) * n + v % n;
    assert (v / n + 1) * n == (v / n) * n + n;
  }

  /** Every fill of a matching is at a maker's price, within the taker's limit. */
  lemma {:induction false} FillsWithin(t: Order, ms: seq<Resting>, lo: int, hi: int)
    requires AllPositive(ms)
    requires forall m :: m in ms && Within(t, m.order.price) ==> lo <= m.order.price <= hi
    ensures PricedWithin(Match(t, ms).fills, lo, hi)
    ensures TradedQty(Match(t, ms).fills) <= Max(t.quantity, 0)
    decreases |ms|
  {
    if ms != [] && t.quantity > 0 && Within(t, ms[0].order.price) {
      assert ms[0] in ms;
      assert AllPositive(ms[1..]) by {
        forall i | 0 <= i < |ms[1..]| ensures ms[1..][i].order.quantity > 0 {
          assert ms[1..][i] == ms[i + 1];
        }
      }
      if SelfTrade(t, ms[0].order) {
        FillsWithin(t, ms[1..], lo, hi);
      } else {
        var q := Min(t.quantity, ms[0].order.quantity);
        FillsWithin(t.(quantity := t.quantity - q), ms[1..], lo, hi);
      }
    }
  }

  lemma MakersPositive(b: Book, s: Side)
    requires Inv(b)
    ensures AllPositive(OnSide(b, s))
    ensures forall m :: m in OnSide(b, s) ==> m.order.price > 0
  {
    var ms := OnSide(b, s);
    forall i | 0 <= i < |ms| ensures ms[i].order.quantity > 0 {
      assert ms[i] in ms && Rests(s, b.clock, ms[i]);
    }
    forall m | m in ms ensures m.order.price > 0 {
      assert Rests(s, b.clock, m);
    }
  }

  /** A limit taker never pays more, or gets less, than its limit on average. */
  lemma AverageHonoursLimit(b: Book, t: Order)
    requires Inv(b) && t.kind == Limit && Matched(b, t).fills != []
    ensures var p := AveragePrice(Matched(b, t).fills);
            p > 0 && (if t.side == Buy then p <= t.price else p >= t.price)
  {
    var ms := OnSide(b, Opposite(t.side));
    var fs := Matched(b, t).fills;
    MakersPositive(b, Opposite(t.side));
    if t.side == Buy {
      FillsWithin(t, ms, 1, t.price);
      AverageWithin(fs, 1, t.price);
    } else {
      var hi := Highest(ms);
      FillsWithin(t, ms, Max(1, t.price), hi);
      AverageWithin(fs, Max(1, t.price), hi);
    }
  }

  function Highest(ms: seq<Resting>): (p: int)
    ensures p >= 0
    ensures forall m :: m in ms ==> m.order.price <= p
    ensures p > 0 ==> exists m :: m in ms && m.order.price == p
  {
    if ms == [] then 0
    else
      var q := Highest(ms[1..]);
      assert ms[0] in ms;
      Max(ms[0].order.price, q)
  }

  lemma {:induction false} ValuePrefix(fs: seq<Fill>, k: nat, hi: int)
    requires PricedWithin(fs, 0, hi) && k <= |fs|
    ensures 0 <= Value(fs[..k]) <= Value(fs)
    ensures 0 <= TradedQty(fs[..k]) <= TradedQty(fs)
  {
    ValueWithin(fs, 0, hi);
    if k == 0 {
      assert fs[..0] == [];
    } else {
      assert fs[..k][1..] == fs[1..][..k - 1];
      assert fs[0] in fs;
      assert fs[0].quantity * fs[0].price >= 0;
      ValuePrefix(fs[1..], k - 1, hi);
    }
  }

  /** At every turn of the loop the value so far fits wherever quantity times the highest
      resting opposite price fits. */
  lemma RunningValueBounded(b: Book, t: Order, k: nat)
    requires Inv(b) && t.quantity > 0 && k <= |Matched(b, t).fills|
    ensures var fs := Matched(b, t).fills;
            var hi := Highest(OnSide(b, Opposite(t.side)));
            && 0 <= TradedQty(fs[..k]) <= t.quantity
            && 0 <= Value(fs[..k]) <= t.quantity * hi
  {
    var ms := OnSide(b, Opposite(t.side));
    var fs := Matched(b, t).fills;
    var hi := Highest(ms);
    MakersPositive(b, Opposite(t.side));
    FillsWithin(t, ms, 0, hi);
    ValuePrefix(fs, k, hi);
    ValueWithin(fs, 0, hi);
    Scales(TradedQty(fs), t.quantity, hi);
  }

  /** The status line of a report. */
  function StatusOf(kind: OrderType, quantity: int, filled: int): Status {
    if quantity - filled == 0 then Filled
    else if filled > 0 then Partial
    else if kind == Market then Unmatched
    else New
  }

  /** What a status says about the book: nothing was taken, all was taken, or in between; a
      market order is turned away only when no eligible order rests on the other side. */
  lemma StatusMeans(b: Book, t: Order)
    requires Inv(b) && t.quantity > 0
    ensures var ms := OnSide(b, Opposite(t.side));
            var status := StatusOf(t.kind, t.quantity, TradedQty(Matched(b, t).fills));
            && (status == Filled <==> EligibleQty(t, ms) >= t.quantity)
            && (status == Partial <==> 0 < EligibleQty(t, ms) < t.quantity)
            && (status == Unmatched <==> EligibleQty(t, ms) == 0 && t.kind == Market)
            && (status == New <==> EligibleQty(t, ms) == 0 && t.kind == Limit)
  {
    var s := Opposite(t.side);
    var ms := OnSide(b, s);
    MakersPositive(b, s);
    assert PriceSorted(s, ms) by {
      forall i, j | 0 <= i < j < |ms| ensures !Beats(s, ms[j].order.price, ms[i].order.price) {
        assert Ahead(s, ms[i], ms[j]);
      }
    }
    EligibleQtyNonNegative(t, ms);
    MaximalExecution(t, ms);
  }
}
