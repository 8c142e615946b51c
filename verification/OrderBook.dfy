/** The matching engine of pkg/orderbook: levels in price order, a list of orders in each
    level, a cached total per level, and an index from order id to list node. */
module OrderBooks {
  import opened Arithmetic
  import opened Orders
  import opened FlatMatcher
  import opened BookSpec
  import opened Depths
  import opened Executions
  import opened BookRuns

  lemma RestOne(m: Resting, q: int)
    ensures TotalQty(Rest(m, q)) == TotalQty([m]) - q
  {
    assert [m][1..] == [] && [Reduced(m, q)][1..] == [];
    assert TotalQty([m]) == m.order.quantity && TotalQty([Reduced(m, q)]) == m.order.quantity - q;
  }

  /** Replacing one resting order by what is left of it. */
  lemma RestTotal(before: seq<Resting>, j: nat, q: int)
    requires j < |before|
    ensures TotalQty(before[..j] + Rest(before[j], q) + before[j + 1..]) == TotalQty(before) - q
  {
    hide TotalQty, Rest;
    var m := before[j];
    RestOne(m, q);
    assert before == before[..j] + [m] + before[j + 1..];
    TotalQtyConcat(before[..j] + [m], before[j + 1..]);
    TotalQtyConcat(before[..j], [m]);
    TotalQtyConcat(before[..j] + Rest(m, q), before[j + 1..]);
    TotalQtyConcat(before[..j], Rest(m, q));
  }

  /** A list without its `j`-th element, the others in their places. */
  function Cut<T>(v: seq<T>, j: nat): (w: seq<T>)
    requires j < |v|
    ensures |w| == |v| - 1
  {
    v[..j] + v[j + 1..]
  }

  /** A block of one price in front of worse prices. */
  lemma BlockSorts(s: Side, block: seq<Resting>, rest: seq<Resting>, price: int)
    requires forall x :: x in block ==> x.order.price == price && x.order.quantity > 0
    requires PriceSorted(s, rest) && AllPositive(rest)
    requires rest != [] ==> Beats(s, price, rest[0].order.price)
    ensures PriceSorted(s, block + rest) && AllPositive(block + rest)
  {
    var all := block + rest;
    forall i, j | 0 <= i < j < |all| ensures !Beats(s, all[j].order.price, all[i].order.price) {
      assert i < |block| ==> all[i] in block;
      assert j < |block| ==> all[j] in block;
      assert j > |block| ==> !Beats(s, rest[j - |block|].order.price, rest[0].order.price);
    }
    forall i | 0 <= i < |all| ensures all[i].order.quantity > 0 {
      assert i < |block| ==> all[i] in block;
    }
  }

  lemma SpliceCut<T>(v: seq<T>, j: nat, mid: seq<T>)
    requires j < |v|
    ensures var w := v[..j] + mid + v[j + 1..];
            w[..j + |mid|] == v[..j] + mid && w[j + |mid|..] == v[j + 1..]
  {
  }

  /** A node of a level's list.  Its identity is what an index entry (a list iterator)
      refers to; only its quantity ever changes. */
  class OrderNode {
    const id: string
    const account: string
    const side: Side
    const kind: OrderType
    const price: int
    var quantity: int
    ghost const arrival: nat
    ghost const level: LevelData  // the level whose list the node was put in

    constructor (order: Order, ghost arrival: nat, ghost level: LevelData)
      ensures View() == Resting(order, arrival) && this.level == level
    {
      id, account, side := order.id, order.account, order.side;
      kind, price, quantity := order.kind, order.price, order.quantity;
      this.arrival := arrival;
      this.level := level;
    }

    ghost function View(): Resting
      reads this
    {
      Resting(Order(id, account, side, kind, price, quantity), arrival)
    }
  }

  /** One entry of the bid or ask map: the key (side and price) and the level's data. */
  class LevelData {
    const side: Side
    const price: int
    var orders: seq<OrderNode>
    var total: int
    ghost var view: seq<Resting>

    constructor (side: Side, price: int)
      ensures this.side == side && this.price == price
      ensures orders == [] && total == 0 && view == [] && Ok()
    {
      this.side := side;
      this.price := price;
      orders, total, view := [], 0, [];
    }

    ghost predicate Holds(n: OrderNode)
      reads this, n
    {
      n.level == this && n.side == side && n.price == price && n.kind == Limit && n.quantity > 0
    }

    ghost predicate Ok()
      reads this, orders
    {
      && (forall i, j :: 0 <= i < j < |orders| ==> orders[i] != orders[j])
      && (forall i :: 0 <= i < |orders| ==> Holds(orders[i]))
      && |view| == |orders|
      && (forall i :: 0 <= i < |orders| ==> view[i] == orders[i].View())
      && total == TotalQty(view)
    }

    lemma Owns()
      requires Ok()
      ensures forall n :: n in orders ==> n.level == this
    {
    }

    lemma Matches()
      requires Ok()
      ensures |view| == |orders|
      ensures forall i :: 0 <= i < |orders| ==>
                view[i] == orders[i].View() && orders[i].price == price && orders[i].quantity > 0
    {
    }

    method Append(node: OrderNode)
      requires Ok() && Holds(node) && node !in orders
      modifies this`orders, this`total, this`view
      ensures Ok()
      ensures orders == old(orders) + [node] && view == old(view) + [node.View()]
    {
      TotalQtyConcat(view, [node.View()]);
      orders := orders + [node];
      total := total + node.quantity;
      view := view + [node.View()];
    }

    /** Takes `q` from the `j`-th order; an order used up is erased from the list. */
    method Take(j: nat, q: int)
      requires Ok() && j < |orders| && 0 < q <= orders[j].quantity
      modifies this`orders, this`total, this`view, orders[j]
      ensures Ok()
      ensures view == old(view)[..j] + Rest(old(view)[j], q) + old(view)[j + 1..]
      ensures old(orders)[j].quantity == old(orders[j].quantity) - q
      ensures orders == if q == old(orders[j].quantity) then Cut(old(orders), j) else old(orders)
      ensures forall n :: n in orders ==> n in old(orders)
      ensures forall n :: n in old(orders) && n != old(orders[j]) ==> n in orders
      ensures old(orders[j]) in orders <==> q < old(orders[j].quantity)
    {
      hide TotalQty;
      RestTotal(view, j, q);
      orders[j].quantity := orders[j].quantity - q;
      total := total - q;
      view := view[..j] + Rest(view[j], q) + view[j + 1..];
      if orders[j].quantity == 0 {
        orders := Cut(orders, j);
      }
    }
  }

  datatype Location = Location(side: Side, price: int, node: OrderNode)

  /** Every entry of `now` was one of `before`: same side, same price, same node object. */
  ghost predicate Kept(now: map<string, Location>, before: map<string, Location>) {
    forall id :: id in now ==> id in before && now[id] == before[id]
  }

  ghost function Nodes(ls: seq<LevelData>): (ns: set<OrderNode>)
    reads ls
    ensures forall l, n :: l in ls && n in l.orders ==> n in ns
  {
    set l, n | l in ls && n in l.orders :: n
  }

  /** The objects that make up one side. */
  ghost function Parts(ls: seq<LevelData>): (os: set<object>)
    reads ls
    ensures forall l :: l in ls ==> l in os && forall n :: n in l.orders ==> n in os
  {
    (set l | l in ls :: l as object) + (set l, n | l in ls && n in l.orders :: n as object)
  }

  lemma PartsSubset(a: seq<LevelData>, b: seq<LevelData>)
    requires forall k :: k in a ==> k in b
    ensures Parts(a) <= Parts(b)
  {
  }

  ghost predicate NonEmpty(ls: seq<LevelData>)
    reads ls
  {
    forall l :: l in ls ==> l.orders != []
  }

  lemma NonEmptyParts(ls: seq<LevelData>, i: nat)
    requires i <= |ls| && NonEmpty(ls)
    ensures NonEmpty(ls[..i]) && NonEmpty(ls[i..])
    ensures i < |ls| ==> NonEmpty(ls[i + 1..])
  {
  }

  lemma NonEmptyAround(ls: seq<LevelData>, i: nat)
    requires i < |ls| && NonEmpty(ls[..i]) && NonEmpty(ls[i + 1..])
    ensures ls[i].orders != [] ==> NonEmpty(ls)
    ensures NonEmpty(ls[..i] + ls[i + 1..])
  {
    assert ls == ls[..i] + [ls[i]] + ls[i + 1..];
  }

  /** All orders of a side, level after level. */
  ghost function Flat(ls: seq<LevelData>): seq<Resting>
    reads ls
  {
    if ls == [] then [] else ls[0].view + Flat(ls[1..])
  }

  lemma {:induction false} FlatConcat(a: seq<LevelData>, b: seq<LevelData>)
    ensures Flat(a + b) == Flat(a) + Flat(b)
  {
    if a == [] {
      assert a + b == b;
    } else {
      assert (a + b)[1..] == a[1..] + b;
      FlatConcat(a[1..], b);
    }
  }

  lemma FlatNil()
    ensures Flat([]) == []
  {
  }

  lemma FlatEmptyLevel(a: seq<LevelData>, l: LevelData, b: seq<LevelData>)
    requires l.view == []
    ensures Flat(a + [l] + b) == Flat(a + b)
  {
    FlatConcat(a + [l], b);
    FlatConcat(a, [l]);
    FlatConcat(a, b);
  }

  lemma FlatCut(ls: seq<LevelData>, i: nat)
    requires i <= |ls|
    ensures Flat(ls) == Flat(ls[..i]) + Flat(ls[i..])
    ensures i < |ls| ==> Flat(ls[i..]) == ls[i].view + Flat(ls[i + 1..])
  {
    assert ls == ls[..i] + ls[i..];
    FlatConcat(ls[..i], ls[i..]);
    if i < |ls| {
      assert ls[i..][1..] == ls[i + 1..];
    }
  }

  lemma FlatAround(ls: seq<LevelData>, i: nat)
    requires i < |ls|
    ensures Flat(ls) == Flat(ls[..i]) + ls[i].view + Flat(ls[i + 1..])
  {
    FlatCut(ls, i + 1);
    FlatSnoc(ls, i);
  }

  lemma FlatSnoc(ls: seq<LevelData>, i: nat)
    requires i < |ls|
    ensures Flat(ls[..i + 1]) == Flat(ls[..i]) + ls[i].view
  {
    assert ls[..i + 1] == ls[..i] + [ls[i]];
    FlatConcat(ls[..i], [ls[i]]);
  }

  lemma {:induction false} ViewInFlat(ls: seq<LevelData>, l: LevelData, x: Resting)
    requires l in ls && x in l.view
    ensures x in Flat(ls)
  {
    if ls[0] != l {
      ViewInFlat(ls[1..], l, x);
    }
  }

  /** Every order of a side sits in a level of its price. */
  lemma {:induction false} FlatSource(ls: seq<LevelData>, x: Resting)
    requires x in Flat(ls)
    ensures exists l :: l in ls && x in l.view
  {
    if x in ls[0].view {
      assert ls[0] in ls;
    } else {
      FlatSource(ls[1..], x);
      var l :| l in ls[1..] && x in l.view;
      assert l in ls;
    }
  }

  ghost predicate SideOk(s: Side, ls: seq<LevelData>)
    reads ls, Nodes(ls)
  {
    && (forall l :: l in ls ==> l.side == s && l.Ok())
    && (forall i, j :: 0 <= i < j < |ls| ==> Beats(s, ls[i].price, ls[j].price))
  }

  lemma SideWithLevel(s: Side, ls: seq<LevelData>, i: nat, l: LevelData)
    requires SideOk(s, ls) && i <= |ls| && l.side == s && l.Ok()
    requires forall k :: 0 <= k < i ==> Beats(s, ls[k].price, l.price)
    requires forall k :: i <= k < |ls| ==> Beats(s, l.price, ls[k].price)
    ensures SideOk(s, ls[..i] + [l] + ls[i..])
    ensures forall k :: k in ls[..i] + [l] + ls[i..] <==> k in ls || k == l
  {
    hide LevelData.Ok;
    var ls' := ls[..i] + [l] + ls[i..];
    assert ls == ls[..i] + ls[i..];
    forall a, b | 0 <= a < b < |ls'| ensures Beats(s, ls'[a].price, ls'[b].price) {
      if b < i {
      } else if b == i {
        assert ls'[a] == ls[a];
      } else {
        assert ls'[b] == ls[b - 1];
        assert a > i ==> ls'[a] == ls[a - 1];
      }
    }
  }

  class OrderBook {
    const symbol: string
    var bids: seq<LevelData>
    var asks: seq<LevelData>
    var index: map<string, Location>
    ghost var clock: nat

    constructor (symbol: string)
      ensures this.symbol == symbol
      ensures Valid() && View() == EMPTY && fresh(Footprint())
    {
      this.symbol := symbol;
      bids, asks, index := [], [], map[];
      clock := 0;
    }

    function Levels(s: Side): seq<LevelData>
      reads this`bids, this`asks
    {
      if s == Buy then bids else asks
    }

    ghost predicate Has(l: LevelData)
      reads this`bids, this`asks
    {
      l in bids || l in asks
    }

    ghost predicate Indexed(l: LevelData)
      reads this`index, l
    {
      forall n :: n in l.orders ==>
        n.id in index && index[n.id] == Location(l.side, l.price, n)
    }

    /** The entry of `id` names a node of its id that is in the list of its level. */
    ghost predicate Live(id: string)
      requires id in index
      reads this`bids, this`asks, this`index, bids, asks
    {
      && Has(index[id].node.level) && index[id].node in index[id].node.level.orders
      && index[id].node.id == id
    }

    /** The index domain is exactly the resting ids, and each entry names the live node. */
    ghost predicate IndexOk()
      reads this`bids, this`asks, this`index, bids, asks
    {
      && (forall l :: l in bids ==> Indexed(l))
      && (forall l :: l in asks ==> Indexed(l))
      && (forall id :: id in index ==> Live(id))
    }

    /** The four structures agree; a level may be empty while a match is under way. */
    ghost predicate WellFormed()
      reads this`bids, this`asks, this`index, bids, asks, Nodes(bids), Nodes(asks)
    {
      SideOk(Buy, bids) && SideOk(Sell, asks) && IndexOk()
    }

    /** The level's part of a fill; the index still has every entry. */
    method ReduceMaker(l: LevelData, j: nat, q: int)
      requires WellFormed() && Has(l)
      requires j < |l.orders| && 0 < q <= l.orders[j].quantity
      modifies l`orders, l`total, l`view, l.orders[j]
      ensures SideOk(Buy, bids) && SideOk(Sell, asks) && l.Ok()
      ensures l.orders == if q == old(l.orders[j].quantity) then Cut(old(l.orders), j)
                          else old(l.orders)
      ensures forall n :: n in l.orders ==> n in old(l.orders)
      ensures forall n :: n in old(l.orders) && n != old(l.orders[j]) ==> n in l.orders
      ensures old(l.orders[j]) in l.orders <==> q < old(l.orders[j].quantity)
      ensures old(l.orders[j]).quantity == old(l.orders[j].quantity) - q
      ensures l.view == old(l.view[..j] + Rest(l.view[j], q) + l.view[j + 1..])
    {
      hide LevelData.Ok, Rest, Beats, Cut;
      forall k | Has(k) ensures k.Ok() && forall n :: n in k.orders ==> n.level == k {
        k.Owns();
      }
      ghost var maker := l.orders[j];
      l.Take(j, q);
      forall k | Has(k) ensures k.Ok() {
        assert k != l ==> maker !in k.orders;
      }
    }

    /** Erases the index entry of a node that has left its list. */
    method Unindex(n: OrderNode)
      requires SideOk(Buy, bids) && SideOk(Sell, asks)
      requires n.id in index && index[n.id].node == n
      requires forall k :: Has(k) ==> Indexed(k) && n !in k.orders
      requires forall id :: id in index && id != n.id ==> Live(id)
      modifies this`index
      ensures WellFormed() && index == old(index) - {n.id}
    {
      hide LevelData.Ok, Beats;
      index := index - {n.id};
      forall k | Has(k) ensures Indexed(k) {
        assert old(Indexed(k));
      }
      forall id | id in index ensures Live(id) {
        assert old(Live(id));
      }
    }

    /** Whose node an index entry is. */
    lemma IndexFacts()
      requires WellFormed()
      ensures forall k :: Has(k) ==> Indexed(k)
      ensures forall k, n :: Has(k) && n in k.orders ==> n.level == k
    {
      forall k | Has(k) ensures forall n :: n in k.orders ==> n.level == k {
        k.Owns();
      }
    }

    /** Takes `q` from the `j`-th order of a level; an order used up leaves the book, its index
        entry with it, and no other entry changes. */
    method FillMaker(l: LevelData, j: nat, q: int)
      requires WellFormed() && Has(l)
      requires j < |l.orders| && 0 < q <= l.orders[j].quantity
      modifies this`index, l`orders, l`total, l`view, l.orders[j]
      ensures WellFormed() && l.Ok()
      ensures l.orders == if q == old(l.orders[j].quantity) then Cut(old(l.orders), j)
                          else old(l.orders)
      ensures forall n :: n in l.orders ==> n in old(l.orders)
      ensures old(l.orders[j]).quantity == old(l.orders[j].quantity) - q
      ensures l.view == old(l.view[..j] + Rest(l.view[j], q) + l.view[j + 1..])
      ensures index == if q == old(l.orders[j].quantity)
                       then old(index) - {old(l.orders[j]).id} else old(index)
    {
      hide LevelData.Ok, Rest, Cut, SideOk;
      var maker := l.orders[j];
      IndexFacts();
      assert maker in l.orders && maker.level == l && index[maker.id].node == maker;
      ReduceMaker(l, j, q);
      forall k | Has(k) ensures Indexed(k) {
        assert old(Indexed(k));
      }
      forall id | id in index && id != maker.id ensures Live(id) {
        assert old(Live(id));
      }
      if maker.quantity == 0 {
        Unindex(maker);
      }
    }

    /** The inner loop of the matcher: one level against a taker whose limit admits it. */
    method MatchLevel(l: LevelData, t: Order) returns (fills: seq<Fill>, remaining: int)
      requires WellFormed() && Has(l) && l.Ok() && Within(t, l.price)
      modifies this`index, l`orders, l`total, l`view, l.orders
      ensures WellFormed() && l.Ok()
      ensures forall n :: n in l.orders ==> n in old(l.orders)
      ensures Match(t, old(l.view)) == Outcome(fills, l.view, remaining)
      ensures Kept(index, old(index))
    {
      hide Resumes, WellFormed, LevelData.Ok, Match, Cut, Rest;
      ghost var before := l.view;
      fills, remaining := [], t.quantity;
      var j := 0;
      l.Matches();
      ResumeStart(t, before);
      assert l.view[..0] == [] && l.view[0..] == l.view;
      while remaining > 0 && j < |l.orders|
        invariant WellFormed() && Has(l) && l.Ok()
        invariant j <= |l.orders| == |l.view|
        invariant forall n :: n in l.orders ==> n in old(l.orders)
        invariant Kept(index, old(index))
        invariant Resumes(t, before, fills, l.view[..j], l.view[j..], remaining)
        decreases |l.orders| - j
      {
        l.Matches();
        var maker := l.orders[j];
        assert maker in old(l.orders);
        ghost var v := l.view;
        assert v[j..][0] == v[j] && v[j..][1..] == v[j + 1..];
        if t.account != "" && t.account == maker.account {
          ResumeSkip(t, before, fills, v[..j], v[j..], remaining);
          assert v[..j] + [v[j]] == v[..j + 1];
          j := j + 1;
        } else {
          var q := Min(remaining, maker.quantity);
          ResumeFill(t, before, fills, v[..j], v[j..], remaining, q);
          fills := fills + [Fill(maker.id, t.id, maker.price, q)];
          remaining := remaining - q;
          FillMaker(l, j, q);
          SpliceCut(v, j, Rest(v[j], q));
          l.Matches();
          if maker.quantity > 0 {
            j := j + 1;
          }
        }
      }
      l.Matches();
      ResumeEnd(t, before, fills, l.view[..j], l.view[j..], remaining);
      assert l.view[..j] + l.view[j..] == l.view;
    }

    ghost predicate Valid()
      reads this`bids, this`asks, this`index, bids, asks, Nodes(bids), Nodes(asks)
    {
      WellFormed() && NonEmpty(bids) && NonEmpty(asks)
    }

    ghost function View(): Book
      reads this, bids, asks
    {
      Book(Flat(bids), Flat(asks), clock)
    }

    lemma LevelFacts(s: Side, i: nat)
      requires WellFormed() && i < |Levels(s)|
      ensures var l := Levels(s)[i];
              && Has(l) && l.Ok() && l.side == s && l !in Levels(Opposite(s))
              && l !in Levels(s)[..i] && l !in Levels(s)[i + 1..]
    {
    }

    /** Replaces the level map of one side; only levels without orders come or go. */
    method SetLevels(s: Side, ls: seq<LevelData>)
      requires WellFormed() && SideOk(s, ls)
      requires forall k :: k in ls && k !in Levels(s) ==> k.orders == []
      requires forall k :: k in Levels(s) && k !in ls ==> k.orders == []
      modifies this`bids, this`asks
      ensures WellFormed()
      ensures Levels(s) == ls && Levels(Opposite(s)) == old(Levels(Opposite(s)))
    {
      hide LevelData.Ok;
      ghost var had := Levels(s);
      if s == Buy {
        bids := ls;
      } else {
        asks := ls;
      }
      forall k | Has(k) ensures Indexed(k) {
        assert k.orders != [] ==> old(Indexed(k));
      }
      forall id | id in index ensures Has(index[id].node.level) {
        assert index[id].node in index[id].node.level.orders;
        assert old(Has(index[id].node.level));
      }
    }

    /** What the matcher sees of the `i`-th level. */
    lemma LevelView(s: Side, i: nat)
      requires Valid() && i < |Levels(s)|
      ensures var l := Levels(s)[i];
              && Flat(Levels(s)[i..]) == l.view + Flat(Levels(s)[i + 1..])
              && l.view != []
              && (forall j :: 0 <= j < |l.view| ==> l.view[j].order.price == l.price)
              && l !in Levels(s)[i + 1..]
    {
      LevelFacts(s, i);
      FlatCut(Levels(s), i);
    }

    method DropLevel(s: Side, i: nat)
      requires WellFormed() && i < |Levels(s)| && Levels(s)[i].orders == []
      modifies this`bids, this`asks
      ensures WellFormed()
      ensures Levels(s) == old(Levels(s)[..i] + Levels(s)[i + 1..])
      ensures Levels(Opposite(s)) == old(Levels(Opposite(s)))
    {
      hide LevelData.Ok, IndexOk;
      var ls := Levels(s);
      forall k | k in ls && k !in ls[..i] + ls[i + 1..] ensures k == ls[i] {
        var j :| 0 <= j < |ls| && ls[j] == k;
      }
      SetLevels(s, ls[..i] + ls[i + 1..]);
    }

    /** Dropping an empty level changes no view and gives up objects at most. */
    method DropEmpty(s: Side, i: nat)
      requires WellFormed() && i < |Levels(s)| && Levels(s)[i].orders == []
      requires NonEmpty(Levels(s)[..i]) && NonEmpty(Levels(s)[i + 1..])
      requires NonEmpty(Levels(Opposite(s)))
      modifies this`bids, this`asks
      ensures Valid()
      ensures Levels(s) == old(Levels(s)[..i] + Levels(s)[i + 1..])
      ensures Levels(s)[..i] == old(Levels(s)[..i]) && Levels(s)[i..] == old(Levels(s)[i + 1..])
      ensures Levels(Opposite(s)) == old(Levels(Opposite(s)))
      ensures Flat(Levels(s)[..i]) == old(Flat(Levels(s)[..i]))
      ensures Flat(Levels(s)[i..]) == old(Flat(Levels(s)[i + 1..]))
      ensures Flat(Levels(Opposite(s))) == old(Flat(Levels(Opposite(s))))
      ensures Parts(Levels(s)) <= old(Parts(Levels(s)))
      ensures Parts(Levels(Opposite(s))) == old(Parts(Levels(Opposite(s))))
    {
      hide WellFormed;
      var ls := Levels(s);
      PartsSubset(ls[..i] + ls[i + 1..], ls);
      NonEmptyAround(ls, i);
      SpliceCut(ls, i, []);
      assert ls[..i] + [] == ls[..i];
      DropLevel(s, i);
    }

    /** The `i`-th level of side `s` is matched; the rest of the book stays as it is. */
    method MatchLevelOf(s: Side, i: nat, t: Order) returns (fills: seq<Fill>, remaining: int)
      requires Valid() && i < |Levels(s)| && Within(t, Levels(s)[i].price)
      modifies this`index, Levels(s)[i], Levels(s)[i].orders
      ensures Levels(s) == old(Levels(s)) && Levels(Opposite(s)) == old(Levels(Opposite(s)))
      ensures WellFormed() && Levels(s)[i].Ok()
      ensures Match(t, old(Levels(s)[i].view)) == Outcome(fills, Levels(s)[i].view, remaining)
      ensures Kept(index, old(index))
      ensures Flat(Levels(s)[..i]) == old(Flat(Levels(s)[..i]))
      ensures Flat(Levels(s)[i + 1..]) == old(Flat(Levels(s)[i + 1..]))
      ensures Flat(Levels(Opposite(s))) == old(Flat(Levels(Opposite(s))))
      ensures NonEmpty(Levels(s)[..i]) && NonEmpty(Levels(s)[i + 1..])
      ensures NonEmpty(Levels(Opposite(s)))
      ensures Parts(Levels(s)) <= old(Parts(Levels(s)))
      ensures Parts(Levels(Opposite(s))) == old(Parts(Levels(Opposite(s))))
    {
      hide WellFormed, LevelData.Ok, Flat, NonEmpty, Match;
      LevelFacts(s, i);
      NonEmptyParts(Levels(s), i);
      fills, remaining := MatchLevel(Levels(s)[i], t);
    }

    /** One round of the outer loop: the `i`-th level of side `s` is matched and, if it is
        empty afterwards, erased.  `next` is the level to look at next. */
    method MatchLevelAt(s: Side, i: nat, t: Order)
      returns (fills: seq<Fill>, remaining: int, next: nat)
      requires Valid() && i < |Levels(s)| && Within(t, Levels(s)[i].price)
      modifies this`index, this`bids, this`asks, Levels(s)[i], Levels(s)[i].orders
      ensures Valid()
      ensures Match(t, old(Levels(s)[i].view)) == Outcome(fills, old(Levels(s))[i].view, remaining)
      ensures Kept(index, old(index))
      ensures next <= |Levels(s)| && |Levels(s)| - next == old(|Levels(s)|) - i - 1
      ensures Flat(Levels(s)[..next]) == old(Flat(Levels(s)[..i])) + old(Levels(s))[i].view
      ensures Levels(s)[next..] == old(Levels(s)[i + 1..])
      ensures Parts(Levels(s)) <= old(Parts(Levels(s)))
      ensures Parts(Levels(Opposite(s))) == old(Parts(Levels(Opposite(s))))
      ensures Flat(Levels(s)[next..]) == old(Flat(Levels(s)[i + 1..]))
      ensures Levels(Opposite(s)) == old(Levels(Opposite(s)))
      ensures Flat(Levels(Opposite(s))) == old(Flat(Levels(Opposite(s))))
    {
      hide WellFormed, LevelData.Ok, Flat, NonEmpty, Parts, Match;
      var ls := Levels(s);
      var l := ls[i];
      fills, remaining := MatchLevelOf(s, i, t);
      l.Matches();
      FlatSnoc(ls, i);
      NonEmptyAround(ls, i);
      next := i + 1;
      if |l.orders| == 0 {
        DropEmpty(s, i);
        next := i;
      }
    }

    /** The outer loop of the matcher: level after level, best price first, until the taker
        is spent, its limit is passed or the side is exhausted. */
    method MatchTaker(t: Order) returns (fills: seq<Fill>, remaining: int)
      requires Valid()
      modifies this`index, this`bids, this`asks
      modifies Parts(Levels(Opposite(t.side)))
      ensures Valid()
      ensures Match(t, old(Flat(Levels(Opposite(t.side)))))
              == Outcome(fills, Flat(Levels(Opposite(t.side))), remaining)
      ensures Kept(index, old(index))
      ensures Levels(t.side) == old(Levels(t.side)) && clock == old(clock)
      ensures Flat(Levels(t.side)) == old(Flat(Levels(t.side)))
      ensures Parts(Levels(Opposite(t.side))) <= old(Parts(Levels(Opposite(t.side))))
      ensures Parts(Levels(t.side)) == old(Parts(Levels(t.side)))
    {
      hide WellFormed, LevelData.Ok, Flat, Resumes, NonEmpty;
      var s := Opposite(t.side);
      ghost var before := Flat(Levels(s));
      ghost var parts := Parts(Levels(s));
      fills, remaining := [], t.quantity;
      var i: nat := 0;
      ResumeStart(t, before);
      assert Levels(s)[..0] == [] && Levels(s)[0..] == Levels(s);
      FlatNil();
      while remaining > 0 && i < |Levels(s)|
        invariant Valid() && i <= |Levels(s)| && clock == old(clock) && Kept(index, old(index))
        invariant Parts(Levels(s)) <= parts
        invariant Resumes(t, before, fills, Flat(Levels(s)[..i]), Flat(Levels(s)[i..]), remaining)
        invariant Levels(t.side) == old(Levels(t.side))
        invariant Parts(Levels(t.side)) == old(Parts(Levels(t.side)))
        invariant Flat(Levels(t.side)) == old(Flat(Levels(t.side)))
        decreases |Levels(s)| - i
      {
        ghost var ls := Levels(s);
        ghost var done := Flat(ls[..i]);
        var l := Levels(s)[i];
        LevelView(s, i);
        assert ls[i..][0] == l && Flat(ls[i..])[0].order.price == l.price;
        if !Within(t, l.price) {
          break;
        }
        ghost var block := l.view;
        ResumeBlock(t, before, fills, done, block, Flat(ls[i + 1..]), remaining);
        assert l in parts && forall n :: n in l.orders ==> n in parts;
        var fs;
        fs, remaining, i := MatchLevelAt(s, i, t.(quantity := remaining));
        fills := fills + fs;
      }
      if i == |Levels(s)| {
        assert Levels(s)[i..] == [];
        FlatNil();
      }
      ResumeEnd(t, before, fills, Flat(Levels(s)[..i]), Flat(Levels(s)[i..]), remaining);
      FlatCut(Levels(s), i);
    }

    /** The level's part of putting an order to rest; the index has no entry for it yet. */
    method Enqueue(l: LevelData, o: Order, ghost arrival: nat) returns (node: OrderNode)
      requires WellFormed() && Has(l)
      requires o.side == l.side && o.price == l.price && o.kind == Limit && o.quantity > 0
      modifies l`orders, l`total, l`view
      ensures SideOk(Buy, bids) && SideOk(Sell, asks)
      ensures fresh(node) && node.id == o.id && node.level == l
      ensures l.orders == old(l.orders) + [node] && l.view == old(l.view) + [Resting(o, arrival)]
    {
      hide LevelData.Ok, Beats;
      assert l.Ok();
      node := new OrderNode(o, arrival, l);
      l.Append(node);
      forall k | Has(k) ensures k.Ok() {
      }
    }

    /** The flat view of a side is sorted and holds no empty order. */
    lemma {:induction false} SortedFrom(s: Side, i: nat)
      requires Valid() && i <= |Levels(s)|
      ensures PriceSorted(s, Flat(Levels(s)[i..])) && AllPositive(Flat(Levels(s)[i..]))
      decreases |Levels(s)| - i
    {
      hide WellFormed, LevelData.Ok, Flat, NonEmpty;
      var ls := Levels(s);
      if i == |ls| {
        FlatNil();
        assert ls[i..] == [];
      } else {
        SortedFrom(s, i + 1);
        LevelFacts(s, i);
        ls[i].Matches();
        FlatCut(ls, i);
        NonEmptyParts(ls, i);
        PricesAround(s, i);
        BlockSorts(s, ls[i].view, Flat(ls[i + 1..]), ls[i].price);
      }
    }

    lemma ViewSorted()
      requires Valid()
      ensures PriceSorted(Buy, View().bids) && AllPositive(View().bids)
      ensures PriceSorted(Sell, View().asks) && AllPositive(View().asks)
    {
      hide Valid, Flat, PriceSorted, AllPositive;
      SortedFrom(Buy, 0);
      SortedFrom(Sell, 0);
      assert bids[0..] == bids && asks[0..] == asks;
    }

    /** Appends an order to the list of its level and enters it in the index. */
    method PutToRest(l: LevelData, o: Order, ghost arrival: nat)
      requires WellFormed() && Has(l)
      requires o.side == l.side && o.price == l.price && o.kind == Limit && o.quantity > 0
      requires o.id !in index
      modifies this`index, l`orders, l`total, l`view
      ensures WellFormed()
      ensures l.view == old(l.view) + [Resting(o, arrival)]
      ensures index - {o.id} == old(index)
      ensures l.orders != [] && forall n :: n in l.orders ==> n in old(l.orders) || fresh(n)
    {
      hide LevelData.Ok, SideOk;
      IndexFacts();
      var node := Enqueue(l, o, arrival);
      forall k | Has(k) ensures forall n :: n in k.orders && n != node ==>
                                  n.id in index && index[n.id] == Location(k.side, k.price, n) {
        assert old(Indexed(k));
      }
      forall id | id in index ensures Live(id) {
        assert old(Live(id));
      }
      Enter(l, node);
    }

    /** Adds the index entry of a node that has joined its list. */
    method Enter(l: LevelData, n: OrderNode)
      requires SideOk(Buy, bids) && SideOk(Sell, asks)
      requires Has(l) && n.level == l && n in l.orders && n.id !in index
      requires forall k, m :: Has(k) && m in k.orders && m != n ==>
                 m.id in index && index[m.id] == Location(k.side, k.price, m)
      requires forall k :: Has(k) && n in k.orders ==> k == l
      requires forall id :: id in index ==> Live(id)
      modifies this`index
      ensures WellFormed() && index == old(index)[n.id := Location(l.side, l.price, n)]
    {
      hide LevelData.Ok, Beats, Cut, Flat;
      index := index[n.id := Location(l.side, l.price, n)];
      forall k | Has(k) ensures Indexed(k) {
        assert n in k.orders ==> k == l;
      }
      forall id | id in index ensures Live(id) {
        assert id != n.id ==> old(Live(id));
      }
    }

    /** The position of the first level that is not better than `price`. */
    method LowerBound(s: Side, price: int) returns (i: nat)
      requires WellFormed()
      ensures WellFormed() && i <= |Levels(s)|
      ensures forall k :: 0 <= k < i ==> Beats(s, Levels(s)[k].price, price)
      ensures i < |Levels(s)| && Levels(s)[i].price != price ==>
                forall k :: i <= k < |Levels(s)| ==> Beats(s, price, Levels(s)[k].price)
    {
      hide LevelData.Ok, IndexOk;
      i := 0;
      var ls := Levels(s);
      while i < |ls| && Beats(s, ls[i].price, price)
        invariant i <= |ls|
        invariant forall k :: 0 <= k < i ==> Beats(s, ls[k].price, price)
      {
        i := i + 1;
      }
    }

    method InsertLevel(s: Side, i: nat, price: int)
      requires WellFormed() && i <= |Levels(s)|
      requires forall k :: 0 <= k < i ==> Beats(s, Levels(s)[k].price, price)
      requires forall k :: i <= k < |Levels(s)| ==> Beats(s, price, Levels(s)[k].price)
      modifies this`bids, this`asks
      ensures WellFormed()
      ensures i < |Levels(s)| && fresh(Levels(s)[i]) && Levels(s)[i].price == price
      ensures Levels(s)[i].orders == [] && Levels(s)[i].view == []
      ensures Levels(s) == old(Levels(s)[..i]) + [Levels(s)[i]] + old(Levels(s)[i..])
      ensures Levels(Opposite(s)) == old(Levels(Opposite(s)))
    {
      hide LevelData.Ok, IndexOk;
      var ls := Levels(s);
      var l := new LevelData(s, price);
      SideWithLevel(s, ls, i, l);
      SetLevels(s, ls[..i] + [l] + ls[i..]);
    }

    /** A new empty level changes no view. */
    method InsertEmpty(s: Side, i: nat, price: int)
      requires WellFormed() && i <= |Levels(s)|
      requires forall k :: 0 <= k < i ==> Beats(s, Levels(s)[k].price, price)
      requires forall k :: i <= k < |Levels(s)| ==> Beats(s, price, Levels(s)[k].price)
      requires NonEmpty(Levels(s)) && NonEmpty(Levels(Opposite(s)))
      modifies this`bids, this`asks
      ensures WellFormed()
      ensures i < |Levels(s)| && Levels(s)[i].price == price
      ensures fresh(Parts(Levels(s)) - old(Parts(Levels(s))))
      ensures NonEmpty(Levels(Opposite(s)))
      ensures Flat(Levels(s)) == old(Flat(Levels(s)))
      ensures NonEmpty(Levels(s)[..i]) && NonEmpty(Levels(s)[i + 1..])
      ensures Levels(Opposite(s)) == old(Levels(Opposite(s)))
    {
      hide WellFormed;
      var ls := Levels(s);
      assert ls[..i] + ls[i..] == ls;
      InsertLevel(s, i, price);
      ghost var l := Levels(s)[i];
      assert Levels(s)[..i] == ls[..i] && Levels(s)[i + 1..] == ls[i..];
      FlatEmptyLevel(ls[..i], l, ls[i..]);
    }

    /** The level of a price, created empty when there is none. */
    method LevelFor(s: Side, price: int) returns (i: nat)
      requires Valid()
      modifies this`bids, this`asks
      ensures WellFormed()
      ensures i < |Levels(s)| && Levels(s)[i].price == price
      ensures fresh(Parts(Levels(s)) - old(Parts(Levels(s))))
      ensures NonEmpty(Levels(Opposite(s)))
      ensures Flat(Levels(s)) == old(Flat(Levels(s)))
      ensures NonEmpty(Levels(s)[..i]) && NonEmpty(Levels(s)[i + 1..])
      ensures Levels(Opposite(s)) == old(Levels(Opposite(s)))
    {
      hide LevelData.Ok, WellFormed;
      i := LowerBound(s, price);
      NonEmptyParts(Levels(s), i);
      if i == |Levels(s)| || Levels(s)[i].price != price {
        InsertEmpty(s, i, price);
      }
    }

    /** Every price up to and including the `i`-th level is at least as good as that level's,
        every later one is worse. */
    lemma PricesAround(s: Side, i: nat)
      requires WellFormed() && i < |Levels(s)|
      requires NonEmpty(Levels(s)[i + 1..])
      ensures forall x :: x in Flat(Levels(s)[..i + 1]) ==>
                !Beats(s, Levels(s)[i].price, x.order.price)
      ensures Flat(Levels(s)[i + 1..]) != [] ==>
                Beats(s, Levels(s)[i].price, Flat(Levels(s)[i + 1..])[0].order.price)
    {
      hide LevelData.Ok, IndexOk;
      var head := Levels(s)[..i + 1];
      forall x | x in Flat(head)
        ensures !Beats(s, Levels(s)[i].price, x.order.price)
      {
        FlatSource(head, x);
        var l :| l in head && x in l.view;
        assert l in Levels(s) && l.Ok();
        l.Matches();
      }
      var tail := Levels(s)[i + 1..];
      if tail != [] {
        assert tail[0] in tail && tail[0] == Levels(s)[i + 1];
        assert tail[0] in Levels(s) && tail[0].Ok();
        tail[0].Matches();
      }
    }

    /** A limit order with quantity left is put to rest behind its price. */
    method RestOrder(o: Order, ghost arrival: nat)
      requires Valid()
      requires o.kind == Limit && o.quantity > 0 && o.id !in index
      modifies this`index, this`bids, this`asks, Levels(o.side)
      ensures Valid() && index - {o.id} == old(index)
      ensures Flat(Levels(o.side)) == Insert(o.side, old(Flat(Levels(o.side))), Resting(o, arrival))
      ensures Levels(Opposite(o.side)) == old(Levels(Opposite(o.side)))
      ensures Flat(Levels(Opposite(o.side))) == old(Flat(Levels(Opposite(o.side))))
      ensures fresh(Parts(Levels(o.side)) - old(Parts(Levels(o.side))))
      ensures Parts(Levels(Opposite(o.side))) == old(Parts(Levels(Opposite(o.side))))
    {
      hide LevelData.Ok, WellFormed, Flat, Insert, NonEmpty, Nodes;
      var i := LevelFor(o.side, o.price);
      assert Levels(o.side)[i] in Levels(o.side);
      PutInLevel(i, o, arrival);
    }

    /** Inserting behind a price is appending to the level of that price. */
    lemma InsertionPoint(s: Side, i: nat, r: Resting)
      requires WellFormed() && i < |Levels(s)| && Levels(s)[i].price == r.order.price
      requires NonEmpty(Levels(s)[i + 1..])
      ensures var ls := Levels(s);
              Insert(s, Flat(ls), r) == Flat(ls[..i]) + (ls[i].view + [r]) + Flat(ls[i + 1..])
    {
      hide LevelData.Ok, WellFormed, Flat, Insert, NonEmpty, Nodes;
      var ls := Levels(s);
      PricesAround(s, i);
      FlatCut(ls, i + 1);
      FlatSnoc(ls, i);
      InsertBetween(s, Flat(ls[..i + 1]), Flat(ls[i + 1..]), r);
      assert Flat(ls[..i]) + ls[i].view + [r] == Flat(ls[..i]) + (ls[i].view + [r]);
    }

    method PutInLevel(i: nat, o: Order, ghost arrival: nat)
      requires WellFormed() && i < |Levels(o.side)| && Levels(o.side)[i].price == o.price
      requires NonEmpty(Levels(o.side)[..i]) && NonEmpty(Levels(o.side)[i + 1..])
      requires NonEmpty(Levels(Opposite(o.side)))
      requires o.kind == Limit && o.quantity > 0 && o.id !in index
      modifies this`index, Levels(o.side)[i]
      ensures Valid() && index - {o.id} == old(index)
      ensures Flat(Levels(o.side)) == Insert(o.side, old(Flat(Levels(o.side))), Resting(o, arrival))
      ensures Flat(Levels(Opposite(o.side))) == old(Flat(Levels(Opposite(o.side))))
      ensures fresh(Parts(Levels(o.side)) - old(Parts(Levels(o.side))))
      ensures Parts(Levels(Opposite(o.side))) == old(Parts(Levels(Opposite(o.side))))
    {
      hide LevelData.Ok, WellFormed, Flat, Insert, NonEmpty, Nodes;
      LevelFacts(o.side, i);
      InsertionPoint(o.side, i, Resting(o, arrival));
      PutToRest(Levels(o.side)[i], o, arrival);
      FlatAround(Levels(o.side), i);
      NonEmptyAround(Levels(o.side), i);
    }

    /** The index knows exactly the ids that rest. */
    lemma IndexDomain(id: string)
      requires WellFormed()
      ensures id in index <==> Known(View(), id)
    {
      hide LevelData.Ok;
      if id in index {
        var n := index[id].node;
        var l := n.level;
        assert l.Ok();
        NodeInView(l, n);
        assert n.View().order.id == id;
      }
      if Known(View(), id) {
        var x :| (x in Flat(bids) || x in Flat(asks)) && x.order.id == id;
        var ls := if x in Flat(bids) then bids else asks;
        FlatSource(ls, x);
        var l :| l in ls && x in l.view;
        assert l.Ok() && Indexed(l);
        ViewNode(l, x);
      }
    }

    lemma NodeInView(l: LevelData, n: OrderNode)
      requires Has(l) && l.Ok() && n in l.orders
      ensures n.View() in Flat(bids) || n.View() in Flat(asks)
    {
      var i :| 0 <= i < |l.orders| && l.orders[i] == n;
      assert l.view[i] == n.View();
      if l in bids { ViewInFlat(bids, l, n.View()); } else { ViewInFlat(asks, l, n.View()); }
    }

    lemma ViewNode(l: LevelData, x: Resting)
      requires l.Ok() && x in l.view
      ensures exists n :: n in l.orders && n.View() == x
    {
      var i :| 0 <= i < |l.view| && l.view[i] == x;
      assert l.orders[i].View() == x;
    }

    /** The objects that make up the book. */
    ghost function Footprint(): set<object>
      reads this`bids, this`asks, bids, asks
    {
      {this} + Parts(bids) + Parts(asks)
    }

    method AddOrder(ord: Order, generated: string) returns (r: AddResult)
      requires Valid()
      modifies Footprint()
      ensures Valid()
      ensures r == AddVerdict(old(View()), ord, generated)
      ensures View() == Add(old(View()), ord, generated)
      ensures AddedRightly(old(View()), ord, generated, r, View())
      ensures r.Accepted? ==> Kept(index - {WithId(ord, generated).id}, old(index))
      ensures r.Rejected? ==> index == old(index)
      ensures fresh(Footprint() - old(Footprint()))
    {
      hide AddedRightly, WellFormed, NonEmpty, Flat, Parts;
      ViewSorted();
      AddIsRight(View(), ord, generated);
      if ord.quantity <= 0 {
        return Rejected(NonPositiveQuantity);
      }
      if ord.kind == Limit && ord.price <= 0 {
        return Rejected(NonPositivePrice);
      }
      var t := if ord.id == "" then ord.(id := generated) else ord;
      IndexDomain(t.id);
      if t.id in index {
        return Rejected(DuplicateId);
      }
      r := Accept(t);
    }

    ghost method Tick()
      requires Valid()
      modifies this`clock
      ensures Valid() && clock == old(clock) + 1
      ensures Flat(bids) == old(Flat(bids)) && Flat(asks) == old(Flat(asks))
      ensures Parts(bids) == old(Parts(bids)) && Parts(asks) == old(Parts(asks))
    {
      hide LevelData.Ok, Flat;
      clock := clock + 1;
    }

    method Accept(t: Order) returns (r: AddResult)
      requires Valid() && t.quantity > 0 && t.id !in index
      modifies Footprint()
      ensures Valid()
      ensures r == Accepted(Matched(old(View()), t).fills)
      ensures View() == BookSpec.Accept(old(View()), t)
      ensures Kept(index - {t.id}, old(index))
      ensures fresh(Footprint() - old(Footprint()))
    {
      hide WellFormed, Flat, NonEmpty, Match, Insert, Parts;
      IndexDomain(t.id);
      ghost var before := View();
      ghost var s, s' := t.side, Opposite(t.side);
      ghost var own := Parts(Levels(s));
      var fills, remaining := MatchTaker(t);
      ghost var left := Flat(Levels(s'));
      assert Match(t, OnSide(before, s')) == Outcome(fills, left, remaining);
      if remaining > 0 && t.kind == Limit {
        if t.id in index {
          IndexDomain(t.id);
          if HasId(left, t.id) {
            MatchKeepsIds(t, OnSide(before, s'), t.id);
          }
        }
        label resting:
        RestOrder(t.(quantity := remaining), clock);
        forall x | x in Parts(Levels(s)) && x !in own ensures fresh(x) {
          assert !old@resting(allocated(x));
        }
      }
      assert Flat(Levels(s')) == left;
      assert fresh(Parts(Levels(s)) - own);
      Tick();
      assert Parts(Levels(s')) <= old(Parts(Levels(s')));
      return Accepted(fills);
    }

    /** Another level than that of an indexed node does not hold its id. */
    lemma IdElsewhere(n: OrderNode, k: LevelData, x: Resting)
      requires WellFormed() && n.id in index && index[n.id].node == n
      requires Has(k) && k != n.level && x in k.view
      ensures x.order.id != n.id
    {
      hide LevelData.Ok;
      assert k.Ok() && Indexed(k);
      ViewNode(k, x);
      k.Owns();
    }

    lemma IdElsewhereIn(n: OrderNode, ls: seq<LevelData>)
      requires WellFormed() && n.id in index && index[n.id].node == n
      requires n.level !in ls && forall k :: k in ls ==> Has(k)
      ensures forall x :: x in Flat(ls) ==> x.order.id != n.id
    {
      hide WellFormed;
      forall x | x in Flat(ls) ensures x.order.id != n.id {
        FlatSource(ls, x);
        var k :| k in ls && x in k.view;
        IdElsewhere(n, k, x);
      }
    }

    /** A level lists an id once. */
    lemma IdInLevel(l: LevelData, j: nat)
      requires l.Ok() && Indexed(l) && j < |l.orders|
      ensures var id := l.orders[j].id;
              && |l.view| == |l.orders|
              && l.view[j] == l.orders[j].View()
              && (forall x :: x in l.view[..j] || x in l.view[j + 1..] ==> x.order.id != id)
    {
      forall a | 0 <= a < |l.orders| && a != j ensures l.orders[a].id != l.orders[j].id {
        assert index[l.orders[a].id].node == l.orders[a];
        assert index[l.orders[j].id].node == l.orders[j];
      }
    }

    /** Taking one node out of a side is removing its id from that side's list, and from
        nothing else. */
    lemma NodeOut(s: Side, i: nat, j: nat)
      requires WellFormed() && i < |Levels(s)| && j < |Levels(s)[i].orders|
      ensures var l := Levels(s)[i];
              var id := l.orders[j].id;
              && |l.view| == |l.orders|
              && Without(Flat(Levels(s)), id) ==
                 Flat(Levels(s)[..i]) + (l.view[..j] + l.view[j + 1..]) + Flat(Levels(s)[i + 1..])
              && Without(Flat(Levels(Opposite(s))), id) == Flat(Levels(Opposite(s)))
    {
      var l := Levels(s)[i];
      var n := l.orders[j];
      var a, b := Flat(Levels(s)[..i]), Flat(Levels(s)[i + 1..]);
      assert l.Ok() && Indexed(l) && n.level == l && n.id in index && index[n.id].node == n;
      assert l !in Levels(s)[..i] && l !in Levels(s)[i + 1..] && l !in Levels(Opposite(s)) by {
        LevelFacts(s, i);
      }
      NodeOutAt(s, i, j, n);
    }

    lemma NodeOutAt(s: Side, i: nat, j: nat, n: OrderNode)
      requires WellFormed() && i < |Levels(s)| && j < |Levels(s)[i].orders|
      requires var l := Levels(s)[i];
               && n == l.orders[j] && l.Ok() && Indexed(l) && n.level == l
               && n.id in index && index[n.id].node == n
               && l !in Levels(s)[..i] && l !in Levels(s)[i + 1..] && l !in Levels(Opposite(s))
      ensures var l := Levels(s)[i];
              && |l.view| == |l.orders|
              && Without(Flat(Levels(s)), n.id) ==
                 Flat(Levels(s)[..i]) + (l.view[..j] + l.view[j + 1..]) + Flat(Levels(s)[i + 1..])
              && Without(Flat(Levels(Opposite(s))), n.id) == Flat(Levels(Opposite(s)))
    {
      hide WellFormed, LevelData.Ok, Flat, Without, Indexed;
      var l := Levels(s)[i];
      var a, b := Flat(Levels(s)[..i]), Flat(Levels(s)[i + 1..]);
      IdInLevel(l, j);
      IdElsewhereIn(n, Levels(s)[..i]);
      IdElsewhereIn(n, Levels(s)[i + 1..]);
      IdElsewhereIn(n, Levels(Opposite(s)));
      WithoutAbsent(Flat(Levels(Opposite(s))), n.id);
      FlatAround(Levels(s), i);
      assert l.view == l.view[..j] + [l.view[j]] + l.view[j + 1..];
      assert Flat(Levels(s)) == (a + l.view[..j]) + [l.view[j]] + (l.view[j + 1..] + b);
      WithoutOne(a + l.view[..j], l.view[j], l.view[j + 1..] + b);
      assert a + l.view[..j] + (l.view[j + 1..] + b) == a + (l.view[..j] + l.view[j + 1..]) + b;
    }

    /** Where an index entry leads: the level of its price, and its node in that level. */
    method Locate(id: string) returns (i: nat, j: nat)
      requires Valid() && id in index
      ensures Valid()
      ensures var loc := index[id];
              && i < |Levels(loc.side)| && Levels(loc.side)[i].price == loc.price
              && j < |Levels(loc.side)[i].orders| && Levels(loc.side)[i].orders[j] == loc.node
              && loc.node.id == id && loc.node.quantity > 0
    {
      hide LevelData.Ok, NonEmpty;
      var loc := index[id];
      ghost var l := loc.node.level;
      assert l.Ok() && Indexed(l) && l in Levels(loc.side);
      i := LowerBound(loc.side, loc.price);
      ghost var k :| 0 <= k < |Levels(loc.side)| && Levels(loc.side)[k] == l;
      assert k == i;
      j :| 0 <= j < |Levels(loc.side)[i].orders| && Levels(loc.side)[i].orders[j] == loc.node;
      l.Matches();
    }

    /** Erases a node and its index entry; its level may be left empty. */
    method EraseFromLevel(s: Side, i: nat, j: nat)
      requires Valid() && i < |Levels(s)| && j < |Levels(s)[i].orders|
      requires Levels(s)[i].orders[j].quantity > 0
      modifies this`index, Levels(s)[i], Levels(s)[i].orders
      ensures WellFormed() && Levels(s)[i].Ok()
      ensures j < |old(Levels(s)[i].view)|
      ensures Levels(s)[i].view == old(Levels(s)[i].view)[..j] + old(Levels(s)[i].view)[j + 1..]
      ensures index == old(index) - {old(Levels(s)[i].orders[j]).id}
      ensures Flat(Levels(s)[..i]) == old(Flat(Levels(s)[..i]))
      ensures Flat(Levels(s)[i + 1..]) == old(Flat(Levels(s)[i + 1..]))
      ensures Flat(Levels(Opposite(s))) == old(Flat(Levels(Opposite(s))))
      ensures NonEmpty(Levels(s)[..i]) && NonEmpty(Levels(s)[i + 1..])
      ensures NonEmpty(Levels(Opposite(s)))
      ensures Parts(Levels(s)) <= old(Parts(Levels(s)))
      ensures Parts(Levels(Opposite(s))) == old(Parts(Levels(Opposite(s))))
    {
      hide WellFormed, LevelData.Ok, Flat, NonEmpty;
      LevelFacts(s, i);
      NonEmptyParts(Levels(s), i);
      Levels(s)[i].Matches();
      FillMaker(Levels(s)[i], j, Levels(s)[i].orders[j].quantity);
    }

    /** Erases a node and its index entry, and its level if that was its last node. */
    method EraseNode(s: Side, i: nat, j: nat)
      requires Valid() && i < |Levels(s)| && j < |Levels(s)[i].orders|
      requires Levels(s)[i].orders[j].quantity > 0
      modifies this`index, this`bids, this`asks, Levels(s)[i], Levels(s)[i].orders
      ensures Valid() && index == old(index) - {old(Levels(s)[i].orders[j]).id}
      ensures Flat(Levels(s)) == old(Without(Flat(Levels(s)), Levels(s)[i].orders[j].id))
      ensures Flat(Levels(Opposite(s))) == old(Flat(Levels(Opposite(s))))
      ensures old(Without(Flat(Levels(Opposite(s))), Levels(s)[i].orders[j].id))
              == old(Flat(Levels(Opposite(s))))
      ensures Parts(Levels(s)) <= old(Parts(Levels(s)))
      ensures Parts(Levels(Opposite(s))) == old(Parts(Levels(Opposite(s))))
    {
      hide WellFormed, LevelData.Ok, Flat, NonEmpty, Without, Parts;
      var ls := Levels(s);
      var l := ls[i];
      NodeOut(s, i, j);
      EraseFromLevel(s, i, j);
      l.Matches();
      FlatAround(ls, i);
      NonEmptyAround(ls, i);
      if |l.orders| == 0 {
        DropEmpty(s, i);
        FlatCut(Levels(s), i);
      }
    }

    method CancelOrder(id: string) returns (found: bool)
      requires Valid()
      modifies Footprint()
      ensures Valid() && clock == old(clock)
      ensures found <==> Known(old(View()), id)
      ensures View() == Cancel(old(View()), id)
      ensures index == old(index) - {id}
      ensures Footprint() <= old(Footprint())
    {
      hide WellFormed, Flat, NonEmpty, Without, Parts;
      IndexDomain(id);
      if id !in index {
        CancelUnknown(View(), id);
        return false;
      }
      var loc := index[id];
      var i, j := Locate(id);
      EraseNode(loc.side, i, j);
      return true;
    }

    /** A level is one entry of the aggregated view. */
    lemma DepthLevel(s: Side, i: nat)
      requires Valid() && i < |Levels(s)|
      ensures var l := Levels(s)[i];
              && l.orders != []
              && Depth(Flat(Levels(s)[i..])) ==
                 [PriceLevel(l.price, l.total, |l.orders|)] + Depth(Flat(Levels(s)[i + 1..]))
    {
      var ls := Levels(s);
      var l := ls[i];
      LevelView(s, i);
      assert l.Ok() && l.total == TotalQty(l.view) && |l.view| == |l.orders|;
      if i + 1 < |ls| {
        LevelView(s, i + 1);
        assert Beats(s, l.price, ls[i + 1].price);
        assert Flat(ls[i + 1..])[0] == ls[i + 1].view[0];
      } else {
        assert ls[i + 1..] == [];
      }
      DepthBlock(l.view, Flat(ls[i + 1..]), l.price);
    }

    /** One entry per level, best price first. */
    method DepthOf(s: Side) returns (ds: seq<PriceLevel>)
      requires Valid()
      ensures ds == Depth(Flat(Levels(s)))
    {
      hide WellFormed, LevelData.Ok, NonEmpty, Depth, Flat;
      ds := [];
      var ls := Levels(s);
      var i: nat := 0;
      assert ls[0..] == ls;
      while i < |ls|
        invariant Valid() && i <= |ls|
        invariant ds + Depth(Flat(ls[i..])) == Depth(Flat(ls))
      {
        DepthLevel(s, i);
        if |ls[i].orders| > 0 {
          ds := ds + [PriceLevel(ls[i].price, ls[i].total, |ls[i].orders|)];
        }
        i := i + 1;
      }
      assert ls[i..] == [];
      FlatNil();
      DepthHead([]);
    }

    method GetSnapshot() returns (bidDepth: seq<PriceLevel>, askDepth: seq<PriceLevel>)
      requires Valid()
      ensures bidDepth == Depth(View().bids) && askDepth == Depth(View().asks)
    {
      bidDepth := DepthOf(Buy);
      askDepth := DepthOf(Sell);
    }

    /** The head of a map: the price of the best order of that side, if there is one. */
    lemma HeadLevel(s: Side)
      requires Valid()
      ensures Levels(s) == [] <==> Flat(Levels(s)) == []
      ensures Levels(s) != [] ==> Flat(Levels(s))[0].order.price == Levels(s)[0].price
    {
      hide LevelData.Ok, WellFormed, NonEmpty;
      if Levels(s) != [] {
        LevelView(s, 0);
        assert Levels(s)[0..] == Levels(s);
      }
    }

    method BestBid() returns (price: int, found: bool)
      requires Valid()
      ensures found == (View().bids != [])
      ensures price == if found then View().bids[0].order.price else 0
    {
      HeadLevel(Buy);
      if |bids| == 0 {
        return 0, false;
      }
      return bids[0].price, true;
    }

    method BestAsk() returns (price: int, found: bool)
      requires Valid()
      ensures found == (View().asks != [])
      ensures price == if found then View().asks[0].order.price else 0
    {
      HeadLevel(Sell);
      if |asks| == 0 {
        return 0, false;
      }
      return asks[0].price, true;
    }

    /** Best ask minus best bid; a negative difference is reported as zero. */
    method Spread() returns (spread: int, found: bool)
      requires Valid()
      ensures found == (View().bids != [] && View().asks != [])
      ensures spread == if found then BookSpec.Spread(View()) else 0
    {
      HeadLevel(Buy);
      HeadLevel(Sell);
      if |bids| == 0 || |asks| == 0 {
        return 0, false;
      }
      var spr := asks[0].price - bids[0].price;
      if spr < 0 {
        return 0, true;
      }
      return spr, true;
    }

    lemma {:induction false} DistinctIn(ls: seq<LevelData>)
      requires WellFormed()
      requires forall k :: k in ls ==> Has(k)
      requires forall a, b :: 0 <= a < b < |ls| ==> ls[a] != ls[b]
      ensures DistinctIds(Flat(ls))
    {
      hide WellFormed, LevelData.Ok, Indexed;
      if ls != [] {
        assert ls[0] in ls && forall k :: k in ls[1..] ==> k in ls && k != ls[0];
        DistinctIn(ls[1..]);
        DistinctHead(ls[0], ls[1..]);
      }
    }

    lemma DistinctHead(l: LevelData, rest: seq<LevelData>)
      requires WellFormed() && Has(l) && l !in rest
      requires forall k :: k in rest ==> Has(k)
      requires DistinctIds(Flat(rest))
      ensures DistinctIds(l.view + Flat(rest))
    {
      assert l.Ok() && Indexed(l);
      hide WellFormed, Flat;
      forall i, j | 0 <= i < j < |l.view + Flat(rest)|
        ensures (l.view + Flat(rest))[i].order.id != (l.view + Flat(rest))[j].order.id
      {
        if i < |l.view| {
          var n := l.orders[i];
          assert n.id in index && index[n.id].node == n && n.level == l;
          if j < |l.view| {
            IdInLevel(l, i);
          } else {
            IdElsewhereIn(n, rest);
            assert (l.view + Flat(rest))[j] in Flat(rest);
          }
        }
      }
    }

    /** Ids are unique across both sides, and the index counts them. */
    lemma IdsUnique()
      requires WellFormed()
      ensures DistinctIds(View().bids + View().asks)
      ensures |index| == |View().bids| + |View().asks|
    {
      forall a, b | 0 <= a < b < |bids + asks| ensures (bids + asks)[a] != (bids + asks)[b] {
        assert b < |bids| ==> Beats(Buy, bids[a].price, bids[b].price);
        assert |bids| <= a ==> Beats(Sell, asks[a - |bids|].price, asks[b - |bids|].price);
        assert a < |bids| <= b ==> bids[a] in bids && asks[b - |bids|] in asks;
      }
      assert forall k :: k in bids + asks ==> Has(k);
      DistinctIn(bids + asks);
      FlatConcat(bids, asks);
      var all := View().bids + View().asks;
      IdCount(all);
      forall id ensures id in index <==> id in Ids(all) {
        IndexDomain(id);
        if Known(View(), id) {
          var r :| (r in View().bids || r in View().asks) && r.order.id == id;
          assert r in all;
        }
      }
      assert index.Keys == Ids(all);
    }

    method OrderCount() returns (n: nat)
      requires Valid()
      ensures n == |View().bids| + |View().asks|
    {
      IdsUnique();
      n := |index|;
    }
  }

  /** What a call on the real book returned. */
  datatype Reply = Added(result: AddResult) | Cancelled(found: bool)

  ghost function ReplyOf(b: Book, op: Op): Reply {
    match op
    case Submit(o, g) => Added(AddVerdict(b, o, g))
    case Withdraw(id) => Cancelled(Known(b, id))
  }

  method Perform(book: OrderBook, op: Op) returns (reply: Reply)
    requires book.Valid()
    modifies book.Footprint()
    ensures book.Valid()
    ensures book.View() == After(old(book.View()), op)
    ensures reply == ReplyOf(old(book.View()), op)
    ensures fresh(book.Footprint() - old(book.Footprint()))
  {
    hide OrderBook.Valid, OrderBook.View, OrderBook.Footprint, Add, Cancel;
    match op {
      case Submit(o, g) =>
        var r := book.AddOrder(o, g);
        reply := Added(r);
      case Withdraw(id) =>
        var found := book.CancelOrder(id);
        reply := Cancelled(found);
    }
  }

  /** Any sequence of calls on a new book: the book is well formed throughout, ends in the
      book that the flat specification reaches, and every call returned what it says. */
  method Replay(symbol: string, ops: seq<Op>) returns (book: OrderBook, replies: seq<Reply>)
    ensures book.Valid() && book.View() == Run(ops)
    ensures |replies| == |ops|
    ensures forall i :: 0 <= i < |ops| ==> replies[i] == ReplyOf(Run(ops[..i]), ops[i])
  {
    hide OrderBook.Valid, OrderBook.View, OrderBook.Footprint, After, ReplyOf;
    book := new OrderBook(symbol);
    replies := [];
    var i: nat := 0;
    assert ops[..0] == [];
    while i < |ops|
      invariant i <= |ops| && |replies| == i
      invariant book.Valid() && book.View() == Run(ops[..i]) && fresh(book.Footprint())
      invariant forall k :: 0 <= k < i ==> replies[k] == ReplyOf(Run(ops[..k]), ops[k])
    {
      assert ops[..i + 1][..i] == ops[..i] && ops[..i + 1][i] == ops[i];
      ghost var before := book.Footprint();
      label call:
      var reply := Perform(book, ops[i]);
      forall x | x in book.Footprint() && x !in before ensures fresh(x) {
        assert !old@call(allocated(x));
      }
      replies := replies + [reply];
      i := i + 1;
    }
    assert ops[..i] == ops;
  }
}
