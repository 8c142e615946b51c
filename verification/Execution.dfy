/** What a matching trades, in kinds, sides, prices and accounts. */
module Executions {
  import opened Arithmetic
  import opened Orders
  import opened FlatMatcher
  import opened BookSpec
  import opened BookInvariant

  /** The quantity of `rs` that is not of the named account. */
  function OthersQty(account: string, rs: seq<Resting>): int {
    if rs == [] then 0
    else (if account != "" && rs[0].order.account == account then 0 else rs[0].order.quantity)
         + OthersQty(account, rs[1..])
  }

  function UpTo(price: int, rs: seq<Resting>): seq<Resting> {
    if rs == [] then []
    else (if rs[0].order.price <= price then [rs[0]] else []) + UpTo(price, rs[1..])
  }

  function From(price: int, rs: seq<Resting>): seq<Resting> {
    if rs == [] then []
    else (if rs[0].order.price >= price then [rs[0]] else []) + From(price, rs[1..])
  }

  /** What an order may trade with among `rs`: all other accounts' orders for a market order,
      those at its price or better for a limit order. */
  function OnOffer(kind: OrderType, side: Side, price: int, account: string, rs: seq<Resting>): int {
    match kind
    case Market => OthersQty(account, rs)
    case Limit => OthersQty(account, if side == Buy then UpTo(price, rs) else From(price, rs))
  }

  /** Nothing of `rs` is on offer: each order is of the same account or beyond the limit. */
  ghost predicate NoneOnOffer(kind: OrderType, side: Side, price: int, account: string,
                              rs: seq<Resting>) {
    forall y :: y in rs ==>
      || (account != "" && y.order.account == account)
      || (kind == Limit && (if side == Buy then y.order.price > price else y.order.price < price))
  }

  /** Every fill names its taker and an order of `rs`, at that order's price, for no more than
      it has. */
  ghost predicate FillsName(taker: string, rs: seq<Resting>, fills: seq<Fill>) {
    forall f :: f in fills ==>
      && f.takerId == taker
      && exists m :: m in rs && m.order.id == f.makerId && m.order.price == f.price
                     && 0 < f.quantity <= m.order.quantity
  }

  lemma {:induction false} EligibleConcat(t: Order, a: seq<Resting>, b: seq<Resting>)
    ensures EligibleQty(t, a + b) == EligibleQty(t, a) + EligibleQty(t, b)
    decreases |b|
  {
    if b == [] {
      assert a + b == a;
    } else {
      var last := |b| - 1;
      assert (a + b)[..|a + b| - 1] == a + b[..last];
      EligibleConcat(t, a, b[..last]);
    }
  }

  /** Eligible is what is on offer. */
  lemma {:induction false} EligibleIsOnOffer(t: Order, rs: seq<Resting>)
    ensures EligibleQty(t, rs) == OnOffer(t.kind, t.side, t.price, t.account, rs)
  {
    if rs != [] {
      var r, rest := rs[0], rs[1..];
      assert rs == [r] + rest && [r][..0] == [];
      EligibleConcat(t, [r], rest);
      assert EligibleQty(t, [r]) == EligibleQty(t, []) + if Eligible(t, r) then r.order.quantity else 0;
      EligibleIsOnOffer(t, rest);
      OfferedFirst(t, r, rest);
    }
  }

  lemma OfferedFirst(t: Order, r: Resting, rest: seq<Resting>)
    ensures OnOffer(t.kind, t.side, t.price, t.account, [r] + rest) ==
            OnOffer(t.kind, t.side, t.price, t.account, rest) + if Eligible(t, r) then r.order.quantity else 0
  {
    var rs := [r] + rest;
    assert rs[1..] == rest;
    assert ([r] + UpTo(t.price, rest))[1..] == UpTo(t.price, rest);
    assert ([r] + From(t.price, rest))[1..] == From(t.price, rest);
    assert [] + UpTo(t.price, rest) == UpTo(t.price, rest);
    assert [] + From(t.price, rest) == From(t.price, rest);
  }

  lemma {:induction false} FillsAreNamed(t: Order, ms: seq<Resting>)
    requires AllPositive(ms)
    ensures FillsName(t.id, ms, Match(t, ms).fills)
    decreases |ms|
  {
    if ms != [] && t.quantity > 0 && Within(t, ms[0].order.price) {
      assert AllPositive(ms[1..]) by {
        forall i | 0 <= i < |ms[1..]| ensures ms[1..][i].order.quantity > 0 {
          assert ms[1..][i] == ms[i + 1];
        }
      }
      var q := if SelfTrade(t, ms[0].order) then 0 else Min(t.quantity, ms[0].order.quantity);
      var t1 := t.(quantity := t.quantity - q);
      FillsAreNamed(t1, ms[1..]);
      assert t.(quantity := t.quantity) == t;
      forall f | f in Match(t, ms).fills
        ensures f.takerId == t.id
        ensures exists m :: m in ms && m.order.id == f.makerId && m.order.price == f.price
                            && 0 < f.quantity <= m.order.quantity
      {
        if f in Match(t1, ms[1..]).fills {
          var m :| m in ms[1..] && m.order.id == f.makerId && m.order.price == f.price
                   && 0 < f.quantity <= m.order.quantity;
          assert m in ms;
        } else {
          assert f == FillOf(t, ms[0], q) && ms[0] in ms;
        }
      }
    }
  }

  /** A taker trades as much as is on offer, and with quantity left it leaves nothing on offer.
      A market order has no limit: only orders of its own named account are left to it. */
  lemma TradesOnOffer(t: Order, ms: seq<Resting>)
    requires t.quantity >= 0
    requires PriceSorted(Opposite(t.side), ms) && AllPositive(ms)
    ensures var r := Match(t, ms);
            && TradedQty(r.fills) == Min(t.quantity, OnOffer(t.kind, t.side, t.price, t.account, ms))
            && TradedQty(r.fills) == t.quantity - r.remaining
            && (TradedQty(r.fills) < t.quantity ==>
                  NoneOnOffer(t.kind, t.side, t.price, t.account, r.left))
            && FillsName(t.id, ms, r.fills)
  {
    hide Match, OnOffer, FillsName;
    MaximalExecution(t, ms);
    EligibleIsOnOffer(t, ms);
    MatchConserves(t, ms);
    FillsAreNamed(t, ms);
    var r := Match(t, ms);
    if r.remaining > 0 {
      forall y | y in r.left
        ensures || (t.account != "" && y.order.account == t.account)
                || (t.kind == Limit && (if t.side == Buy then y.order.price > t.price
                                        else y.order.price < t.price))
      {
        NothingEligibleLeft(t, ms, y);
      }
    }
  }

  // ---- What adding an order does ----

  ghost predicate Taken(b: Book, id: string) {
    exists x :: (x in b.bids || x in b.asks) && x.order.id == id
  }

  /** Which orders are refused, and why. */
  ghost predicate RefusedRightly(b: Book, o: Order, id: string, r: AddResult) {
    && (r == Rejected(NonPositiveQuantity) <==> o.quantity <= 0)
    && (r == Rejected(NonPositivePrice) <==> o.quantity > 0 && o.kind == Limit && o.price <= 0)
    && (r == Rejected(DuplicateId) <==>
          o.quantity > 0 && (o.kind == Market || o.price > 0) && Taken(b, id))
  }

  /** What is left of a limit order, and nothing else, joins its side under its id. */
  ghost predicate RestJoins(o: Order, id: string, left: int, mine: seq<Resting>, mine': seq<Resting>) {
    && (forall x :: x in mine ==> x in mine')
    && (forall x :: x in mine' ==>
          x in mine || x.order == Order(id, o.account, o.side, Limit, o.price, left))
    && ((exists x :: x in mine' && x.order.id == id) <==> o.kind == Limit && left > 0)
  }

  /** An order that was taken: what it trades, with whom, what it leaves on the other side and
      what it leaves of itself. */
  ghost predicate TakenRightly(o: Order, id: string, fills: seq<Fill>,
                               mine: seq<Resting>, theirs: seq<Resting>,
                               mine': seq<Resting>, theirs': seq<Resting>) {
    var traded := TradedQty(fills);
    && traded == Min(o.quantity, OnOffer(o.kind, o.side, o.price, o.account, theirs))
    && (traded < o.quantity ==> NoneOnOffer(o.kind, o.side, o.price, o.account, theirs'))
    && FillsName(id, theirs, fills)
    && RestJoins(o, id, o.quantity - traded, mine, mine')
  }

  /** What a caller of `add_order` gets. */
  ghost predicate AddedRightly(b: Book, o: Order, generated: string, r: AddResult, b': Book) {
    var id := if o.id == "" then generated else o.id;
    && RefusedRightly(b, o, id, r)
    && (r.Rejected? ==> b' == b)
    && (r.Accepted? ==>
          if o.side == Buy then TakenRightly(o, id, r.fills, b.bids, b.asks, b'.bids, b'.asks)
          else TakenRightly(o, id, r.fills, b.asks, b.bids, b'.asks, b'.bids))
  }

  lemma AcceptedIsTaken(b: Book, t: Order)
    requires PriceSorted(Opposite(t.side), OnSide(b, Opposite(t.side)))
    requires AllPositive(OnSide(b, Opposite(t.side)))
    requires t.quantity > 0 && !Known(b, t.id)
    ensures var b' := Accept(b, t);
            TakenRightly(t, t.id, Matched(b, t).fills, OnSide(b, t.side), OnSide(b, Opposite(t.side)),
                         OnSide(b', t.side), OnSide(b', Opposite(t.side)))
  {
    hide Match, Insert, OnOffer, NoneOnOffer, FillsName, TradedQty;
    var r := Matched(b, t);
    var mine := OnSide(b, t.side);
    TradesOnOffer(t, OnSide(b, Opposite(t.side)));
    if t.kind == Limit && r.remaining > 0 {
      var x := Resting(t.(quantity := r.remaining), b.clock);
      var k := InsertPos(t.side, mine, x);
      InsertSplit(t.side, mine, x);
      assert mine == mine[..k] + mine[k..];
      assert x in OnSide(Accept(b, t), t.side);
    }
  }

  lemma AddIsRight(b: Book, o: Order, generated: string)
    requires PriceSorted(Buy, b.bids) && PriceSorted(Sell, b.asks)
    requires AllPositive(b.bids) && AllPositive(b.asks)
    ensures AddedRightly(b, o, generated, AddVerdict(b, o, generated), Add(b, o, generated))
  {
    hide Accept, TakenRightly, PriceSorted, AllPositive;
    var t := WithId(o, generated);
    KnownIsTaken(b, t.id);
    if AddVerdict(b, o, generated).Accepted? {
      AcceptedIsTaken(b, t);
      SameButForId(o, t.id, Matched(b, t).fills, OnSide(b, t.side), OnSide(b, Opposite(t.side)),
                   OnSide(Accept(b, t), t.side), OnSide(Accept(b, t), Opposite(t.side)));
    }
  }

  lemma KnownIsTaken(b: Book, id: string)
    ensures Known(b, id) <==> Taken(b, id)
  {
  }

  lemma SameButForId(o: Order, id: string, fills: seq<Fill>, mine: seq<Resting>, theirs: seq<Resting>,
                     mine': seq<Resting>, theirs': seq<Resting>)
    ensures TakenRightly(o.(id := id), id, fills, mine, theirs, mine', theirs') ==>
            TakenRightly(o, id, fills, mine, theirs, mine', theirs')
  {
  }
}
