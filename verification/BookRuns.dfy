/** Whole runs of a book: what holds after any sequence of adds and cancels. */
module BookRuns {
  import opened Arithmetic
  import opened Orders
  import opened FlatMatcher
  import opened BookSpec
  import opened BookInvariant

  /** A call of a public method that can change the book. */
  datatype Op = Submit(order: Order, generated: string) | Withdraw(id: string)

  /** What a call did, as its caller can tell.  `discarded` is the part of a market order that
      found no counterparty, `quantity` what a cancelled order still had. */
  datatype Event =
    | Refused(error: AddError)
    | Taken(order: Order, fills: seq<Fill>, discarded: int)
    | Withdrawn(id: string, quantity: int)
    | NotFound

  ghost function After(b: Book, op: Op): Book {
    match op
    case Submit(o, g) => Add(b, o, g)
    case Withdraw(id) => Cancel(b, id)
  }

  ghost function EventOf(b: Book, op: Op): Event {
    match op
    case Submit(o, g) =>
      (match AddVerdict(b, o, g)
       case Rejected(e) => Refused(e)
       case Accepted(fills) =>
         var t := WithId(o, g);
         Taken(t, fills, if t.kind == Market then Matched(b, t).remaining else 0))
    case Withdraw(id) =>
      if Known(b, id) then Withdrawn(id, QtyIn(iset{id}, b.bids) + QtyIn(iset{id}, b.asks))
      else NotFound
  }

  ghost function Run(ops: seq<Op>): Book {
    if ops == [] then EMPTY else After(Run(ops[..|ops| - 1]), ops[|ops| - 1])
  }

  ghost function Events(ops: seq<Op>): seq<Event> {
    if ops == [] then []
    else
      var before := ops[..|ops| - 1];
      Events(before) + [EventOf(Run(before), ops[|ops| - 1])]
  }

  /** In every reachable book: price-time order, unique ids, positive quantities, and no
      crossing between different accounts. */
  lemma {:induction false} RunKeeps(ops: seq<Op>)
    ensures Inv(Run(ops)) && Uncrossed(Run(ops))
  {
    if ops != [] {
      var before := Run(ops[..|ops| - 1]);
      RunKeeps(ops[..|ops| - 1]);
      match ops[|ops| - 1]
      case Submit(o, g) =>
        AddKeeps(before, o, g);
        AddUncrossed(before, o, g);
      case Withdraw(id) =>
        CancelKeeps(before, id);
        CancelUncrossed(before, id);
    }
  }

  /** When no order names an account, the best bid is below the best ask in every reachable
      book, and a spread that is reported is positive: it is never clamped. */
  lemma {:induction false} AnonymousRun(ops: seq<Op>)
    requires forall op :: op in ops && op.Submit? ==> op.order.account == ""
    ensures var b := Run(ops);
            && Anonymous(b)
            && (forall x, y :: x in b.bids && y in b.asks ==> x.order.price < y.order.price)
            && (b.bids != [] && b.asks != [] ==>
                  Spread(b) == b.asks[0].order.price - b.bids[0].order.price > 0)
  {
    RunKeeps(ops);
    if ops != [] {
      var last := ops[|ops| - 1];
      AnonymousRun(ops[..|ops| - 1]);
      RunKeeps(ops[..|ops| - 1]);
      assert last in ops;
      match last
      case Submit(o, g) => AddAnonymous(Run(ops[..|ops| - 1]), o, g);
      case Withdraw(id) => CancelAnonymous(Run(ops[..|ops| - 1]), id);
    }
    AnonymousSpread(Run(ops));
  }

  /** With a named account the clamp is reached: the two sides of one account may cross. */
  lemma NamedAccountsCross()
    ensures var ops := [Submit(Order("b", "x", Buy, Limit, 5, 1), ""),
                        Submit(Order("s", "x", Sell, Limit, 4, 1), "")];
            var b := Run(ops);
            && b.bids != [] && b.asks != []
            && b.asks[0].order.price - b.bids[0].order.price < 0 && Spread(b) == 0
  {
    var o1, o2 := Order("b", "x", Buy, Limit, 5, 1), Order("s", "x", Sell, Limit, 4, 1);
    var ops := [Submit(o1, ""), Submit(o2, "")];
    assert ops[..1] == [Submit(o1, "")] && ops[..1][..0] == [];
    var b1 := Add(EMPTY, o1, "");
    assert Match(o1, []).remaining == 1;
    assert b1.bids == [Resting(o1, 0)] && b1.asks == [];
    assert Run(ops[..1]) == b1;
    assert Match(o2, b1.bids).left == b1.bids && Match(o2, b1.bids).remaining == 1;
    assert Add(b1, o2, "").asks == [Resting(o2, 1)];
  }

  // ---- Conservation ----

  /** The quantity resting under the ids of `S`. */
  ghost function QtyIn(S: iset<string>, rs: seq<Resting>): int {
    if rs == [] then 0
    else (if rs[0].order.id in S then rs[0].order.quantity else 0) + QtyIn(S, rs[1..])
  }

  ghost function MadeIn(S: iset<string>, fs: seq<Fill>): int {
    if fs == [] then 0
    else (if fs[0].makerId in S then fs[0].quantity else 0) + MadeIn(S, fs[1..])
  }

  ghost function BookQty(S: iset<string>, b: Book): int {
    QtyIn(S, b.bids) + QtyIn(S, b.asks)
  }

  ghost function Share(S: iset<string>, id: string, q: int): int {
    if id in S then q else 0
  }

  /** What events brought in under the ids of `S`, traded as maker, traded as taker, and
      took out without a trade. */
  datatype Ledger = Ledger(submitted: int, made: int, took: int, dropped: int)

  ghost function Entry(S: iset<string>, e: Event): Ledger {
    match e
    case Taken(o, fills, d) =>
      Ledger(Share(S, o.id, o.quantity), MadeIn(S, fills), Share(S, o.id, TradedQty(fills)),
             Share(S, o.id, d))
    case Withdrawn(id, q) => Ledger(0, 0, 0, Share(S, id, q))
    case _ => Ledger(0, 0, 0, 0)
  }

  ghost function Sum(S: iset<string>, es: seq<Event>): Ledger {
    if es == [] then Ledger(0, 0, 0, 0)
    else
      var l := Sum(S, es[..|es| - 1]);
      var e := Entry(S, es[|es| - 1]);
      Ledger(l.submitted + e.submitted, l.made + e.made, l.took + e.took, l.dropped + e.dropped)
  }

  lemma {:induction false} QtyInConcat(S: iset<string>, a: seq<Resting>, b: seq<Resting>)
    ensures QtyIn(S, a + b) == QtyIn(S, a) + QtyIn(S, b)
  {
    if a == [] {
      assert a + b == b;
    } else {
      assert (a + b)[1..] == a[1..] + b;
      QtyInConcat(S, a[1..], b);
    }
  }

  lemma {:induction false} MatchMoves(S: iset<string>, t: Order, ms: seq<Resting>)
    requires t.quantity >= 0 && AllPositive(ms)
    ensures var r := Match(t, ms);
            && QtyIn(S, r.left) == QtyIn(S, ms) - MadeIn(S, r.fills)
            && 0 <= r.remaining
            && (forall f :: f in r.fills ==> f.quantity > 0)
    decreases |ms|
  {
    if ms == [] || t.quantity <= 0 || !Within(t, ms[0].order.price) {
    } else if SelfTrade(t, ms[0].order) {
      MatchMoves(S, t, ms[1..]);
      assert ([ms[0]] + Match(t, ms[1..]).left)[1..] == Match(t, ms[1..]).left;
    } else {
      var q := Min(t.quantity, ms[0].order.quantity);
      var t1 := t.(quantity := t.quantity - q);
      assert ms[0].order.quantity > 0;
      MatchMoves(S, t1, ms[1..]);
      var r := Match(t1, ms[1..]);
      QtyInConcat(S, Rest(ms[0], q), r.left);
      assert ([FillOf(t, ms[0], q)] + r.fills)[1..] == r.fills;
    }
  }

  lemma InsertMoves(S: iset<string>, s: Side, rs: seq<Resting>, x: Resting)
    ensures QtyIn(S, Insert(s, rs, x)) == QtyIn(S, rs) + Share(S, x.order.id, x.order.quantity)
  {
    var k := InsertPos(s, rs, x);
    InsertSplit(s, rs, x);
    QtyInConcat(S, rs[..k] + [x], rs[k..]);
    QtyInConcat(S, rs[..k], [x]);
    QtyInConcat(S, rs[..k], rs[k..]);
    assert rs[..k] + rs[k..] == rs;
  }

  lemma {:induction false} WithoutMoves(S: iset<string>, rs: seq<Resting>, id: string)
    ensures QtyIn(S, Without(rs, id)) == QtyIn(S, rs) - Share(S, id, QtyIn(iset{id}, rs))
  {
    if rs != [] {
      WithoutMoves(S, rs[1..], id);
      QtyInConcat(S, if rs[0].order.id == id then [] else [rs[0]], Without(rs[1..], id));
    }
  }

  lemma AcceptMoves(S: iset<string>, b: Book, t: Order)
    requires Inv(b) && t.quantity > 0
    ensures var r := Matched(b, t);
            && BookQty(S, Accept(b, t)) ==
               BookQty(S, b) + Share(S, t.id, t.quantity) - MadeIn(S, r.fills)
               - Share(S, t.id, TradedQty(r.fills))
               - Share(S, t.id, if t.kind == Market then r.remaining else 0)
            && 0 <= r.remaining && (forall f :: f in r.fills ==> f.quantity > 0)
  {
    var ms := OnSide(b, Opposite(t.side));
    assert AllPositive(ms) by {
      forall i | 0 <= i < |ms| ensures ms[i].order.quantity > 0 { assert ms[i] in ms; }
    }
    MatchMoves(S, t, ms);
    MatchConserves(t, ms);
    InsertMoves(S, t.side, OnSide(b, t.side),
                Resting(t.(quantity := Matched(b, t).remaining), b.clock));
  }

  /** One call changes the resting quantity by exactly what its event accounts for. */
  lemma StepConserves(S: iset<string>, b: Book, op: Op)
    requires Inv(b)
    ensures var e := Entry(S, EventOf(b, op));
            BookQty(S, After(b, op)) == BookQty(S, b) + e.submitted - e.made - e.took - e.dropped
  {
    match op
    case Submit(o, g) =>
      if AddVerdict(b, o, g).Accepted? {
        AcceptMoves(S, b, WithId(o, g));
      }
    case Withdraw(id) =>
      WithoutMoves(S, b.bids, id);
      WithoutMoves(S, b.asks, id);
      if !Known(b, id) {
        CancelUnknown(b, id);
      }
  }

  /** Conservation, order by order: for any set of ids and any run, what was submitted under
      these ids is what they traded as makers, traded as takers, lost without a trade, and
      still have resting. */
  lemma {:induction false} Conservation(S: iset<string>, ops: seq<Op>)
    ensures var l := Sum(S, Events(ops));
            l.submitted == l.made + l.took + l.dropped + BookQty(S, Run(ops))
  {
    if ops != [] {
      var before := ops[..|ops| - 1];
      Conservation(S, before);
      RunKeeps(before);
      StepConserves(S, Run(before), ops[|ops| - 1]);
      var es := Events(ops);
      assert es[..|es| - 1] == Events(before);
    }
  }

  // ---- The two readings: the whole book, and one order ----

  ghost function AllIds(): iset<string> {
    iset id: string | |id| >= 0
  }

  ghost function TradedBy(es: seq<Event>): int {
    if es == [] then 0
    else TradedBy(es[..|es| - 1]) +
         (if es[|es| - 1].Taken? then TradedQty(es[|es| - 1].fills) else 0)
  }

  lemma {:induction false} MadeByAll(fs: seq<Fill>)
    ensures MadeIn(AllIds(), fs) == TradedQty(fs)
  {
    if fs != [] {
      MadeByAll(fs[1..]);
    }
  }

  lemma {:induction false} QtyInAll(rs: seq<Resting>)
    ensures QtyIn(AllIds(), rs) == TotalQty(rs)
  {
    if rs != [] {
      QtyInAll(rs[1..]);
    }
  }

  lemma {:induction false} BothSidesTrade(es: seq<Event>)
    ensures Sum(AllIds(), es).made == TradedBy(es) && Sum(AllIds(), es).took == TradedBy(es)
  {
    if es != [] {
      BothSidesTrade(es[..|es| - 1]);
      if es[|es| - 1].Taken? {
        MadeByAll(es[|es| - 1].fills);
      }
    }
  }

  /** Every accepted unit was traded (once on each side), cancelled, discarded, or still rests. */
  lemma WholeBookConservation(ops: seq<Op>)
    ensures var l := Sum(AllIds(), Events(ops));
            l.submitted == 2 * TradedBy(Events(ops)) + l.dropped
                           + TotalQty(Run(ops).bids) + TotalQty(Run(ops).asks)
  {
    Conservation(AllIds(), ops);
    BothSidesTrade(Events(ops));
    QtyInAll(Run(ops).bids);
    QtyInAll(Run(ops).asks);
  }

  lemma {:induction false} QtyInNonNegative(S: iset<string>, rs: seq<Resting>)
    requires forall x :: x in rs ==> x.order.quantity > 0
    ensures QtyIn(S, rs) >= 0
  {
    if rs != [] {
      assert rs[0] in rs;
      QtyInNonNegative(S, rs[1..]);
    }
  }

  lemma {:induction false} FillsNonNegative(S: iset<string>, fs: seq<Fill>)
    requires forall f :: f in fs ==> f.quantity > 0
    ensures MadeIn(S, fs) >= 0 && TradedQty(fs) >= 0
  {
    if fs != [] {
      assert fs[0] in fs;
      FillsNonNegative(S, fs[1..]);
    }
  }

  lemma EntryNonNegative(S: iset<string>, b: Book, op: Op)
    requires Inv(b)
    ensures var e := Entry(S, EventOf(b, op));
            e.submitted >= 0 && e.made >= 0 && e.took >= 0 && e.dropped >= 0
  {
    match op
    case Submit(o, g) =>
      if AddVerdict(b, o, g).Accepted? {
        AcceptMoves(S, b, WithId(o, g));
        FillsNonNegative(S, Matched(b, WithId(o, g)).fills);
      }
    case Withdraw(id) =>
      QtyInNonNegative(iset{id}, b.bids);
      QtyInNonNegative(iset{id}, b.asks);
  }

  lemma {:induction false} SumNonNegative(S: iset<string>, ops: seq<Op>)
    ensures var l := Sum(S, Events(ops));
            l.submitted >= 0 && l.made >= 0 && l.took >= 0 && l.dropped >= 0
  {
    if ops != [] {
      var before := ops[..|ops| - 1];
      SumNonNegative(S, before);
      RunKeeps(before);
      EntryNonNegative(S, Run(before), ops[|ops| - 1]);
      assert Events(ops)[..|Events(ops)| - 1] == Events(before);
    }
  }

  /** No order is ever filled for more than was submitted under its id, and what still rests
      fits beside what was filled. */
  lemma NoOverfill(id: string, ops: seq<Op>)
    ensures var l := Sum(iset{id}, Events(ops));
            && 0 <= l.made && 0 <= l.took && 0 <= BookQty(iset{id}, Run(ops))
            && l.made + l.took + BookQty(iset{id}, Run(ops)) <= l.submitted
  {
    Conservation(iset{id}, ops);
    SumNonNegative(iset{id}, ops);
    RunKeeps(ops);
    QtyInNonNegative(iset{id}, Run(ops).bids);
    QtyInNonNegative(iset{id}, Run(ops).asks);
  }

  // ---- Undo ----

  lemma {:induction false} NoFillsNoChange(t: Order, ms: seq<Resting>)
    requires Match(t, ms).fills == []
    ensures Match(t, ms).left == ms && Match(t, ms).remaining == t.quantity
    decreases |ms|
  {
    if ms == [] || t.quantity <= 0 || !Within(t, ms[0].order.price) {
    } else if SelfTrade(t, ms[0].order) {
      NoFillsNoChange(t, ms[1..]);
    }
  }

  /** Cancelling an order that found no counterparty takes the book back to where it was;
      only the acceptance counter has moved. */
  lemma CancelUndoesAdd(b: Book, o: Order, generated: string)
    requires Inv(b) && AddVerdict(b, o, generated) == Accepted([])
    ensures var id := WithId(o, generated).id;
            Cancel(Add(b, o, generated), id) == b.(clock := b.clock + 1)
  {
    hide Match, Insert, Without, Inv;
    var t := WithId(o, generated);
    var own := OnSide(b, t.side);
    var x := Resting(t, b.clock);
    NoFillsNoChange(t, OnSide(b, Opposite(t.side)));
    assert t.(quantity := t.quantity) == t;
    CancelUnknown(b, t.id);
    if t.kind == Limit {
      var k := InsertPos(t.side, own, x);
      InsertSplit(t.side, own, x);
      assert own == own[..k] + own[k..];
      forall y | y in own[..k] || y in own[k..] ensures y.order.id != t.id {
        assert y in own;
      }
      WithoutOne(own[..k], x, own[k..]);
    }
  }

  lemma {:induction false} WithoutCommutes(rs: seq<Resting>, i: string, j: string)
    ensures Without(Without(rs, i), j) == Without(Without(rs, j), i)
  {
    if rs != [] {
      WithoutCommutes(rs[1..], i, j);
      var keepI := if rs[0].order.id == i then [] else [rs[0]];
      var keepJ := if rs[0].order.id == j then [] else [rs[0]];
      WithoutConcat(keepI, Without(rs[1..], i), j);
      WithoutConcat(keepJ, Without(rs[1..], j), i);
    }
  }

  lemma CancelsCommute(b: Book, i: string, j: string)
    ensures Cancel(Cancel(b, i), j) == Cancel(Cancel(b, j), i)
  {
    WithoutCommutes(b.bids, i, j);
    WithoutCommutes(b.asks, i, j);
  }
}
