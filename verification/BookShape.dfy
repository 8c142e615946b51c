/** The levels of a book are determined by its flat view: no history is left in the structure. */
module BookShapes {
  import opened Orders
  import opened BookSpec
  import opened BookInvariant
  import opened BookRuns
  import opened OrderBooks

  datatype Level = Level(price: int, total: int, orders: seq<Resting>)

  /** One level per price, with the sum of what rests there. */
  function Levelled(rs: seq<Resting>): seq<Level> {
    if rs == [] then []
    else
      var ls := Levelled(rs[1..]);
      if ls != [] && ls[0].price == rs[0].order.price then
        [Level(ls[0].price, rs[0].order.quantity + ls[0].total, [rs[0]] + ls[0].orders)] + ls[1..]
      else [Level(rs[0].order.price, rs[0].order.quantity, [rs[0]])] + ls
  }

  lemma {:induction false} LevelledHead(rs: seq<Resting>)
    ensures Levelled(rs) == [] <==> rs == []
    ensures rs != [] ==> Levelled(rs)[0].price == rs[0].order.price
  {
  }

  lemma LevelledCons(x: Resting, rs: seq<Resting>)
    ensures var ls := Levelled(rs);
            Levelled([x] + rs) ==
            if ls != [] && ls[0].price == x.order.price then
              [Level(ls[0].price, x.order.quantity + ls[0].total, [x] + ls[0].orders)] + ls[1..]
            else [Level(x.order.price, x.order.quantity, [x])] + ls
  {
    assert ([x] + rs)[0] == x && ([x] + rs)[1..] == rs;
  }

  lemma TotalCons(x: Resting, rs: seq<Resting>)
    ensures TotalQty([x] + rs) == x.order.quantity + TotalQty(rs) && TotalQty([]) == 0
  {
    assert ([x] + rs)[1..] == rs;
  }

  lemma {:induction false} LevelledBlock(block: seq<Resting>, rest: seq<Resting>, price: int)
    requires block != [] && forall i :: 0 <= i < |block| ==> block[i].order.price == price
    requires rest != [] ==> rest[0].order.price != price
    ensures Levelled(block + rest) == [Level(price, TotalQty(block), block)] + Levelled(rest)
  {
    hide Levelled, TotalQty;
    LevelledHead(rest);
    var x, tail := block[0], block[1..];
    assert block == [x] + tail && block + rest == [x] + (tail + rest);
    LevelledCons(x, tail + rest);
    TotalCons(x, tail);
    if tail == [] {
      assert tail + rest == rest && block == [x];
    } else {
      LevelledBlock(tail, rest, price);
      assert ([Level(price, TotalQty(tail), tail)] + Levelled(rest))[1..] == Levelled(rest);
    }
  }

  /** What the level objects of one side hold. */
  ghost function Shape(ls: seq<LevelData>): seq<Level>
    reads ls
  {
    if ls == [] then []
    else [Level(ls[0].price, ls[0].total, ls[0].view)] + Shape(ls[1..])
  }

  lemma ShapeLevel(b: OrderBook, s: Side, i: nat)
    requires b.Valid() && i < |b.Levels(s)|
    ensures var l := b.Levels(s)[i];
            Levelled(Flat(b.Levels(s)[i..])) ==
            [Level(l.price, l.total, l.view)] + Levelled(Flat(b.Levels(s)[i + 1..]))
  {
    var ls := b.Levels(s);
    var l := ls[i];
    b.LevelView(s, i);
    assert l.Ok();
    if i + 1 < |ls| {
      b.LevelView(s, i + 1);
      assert Beats(s, l.price, ls[i + 1].price);
      assert Flat(ls[i + 1..])[0] == ls[i + 1].view[0];
    } else {
      assert ls[i + 1..] == [];
    }
    LevelledBlock(l.view, Flat(ls[i + 1..]), l.price);
  }

  lemma {:induction false} ShapeFrom(b: OrderBook, s: Side, i: nat)
    requires b.Valid() && i <= |b.Levels(s)|
    ensures Shape(b.Levels(s)[i..]) == Levelled(Flat(b.Levels(s)[i..]))
    decreases |b.Levels(s)| - i
  {
    hide OrderBook.Valid, Levelled, Flat;
    var ls := b.Levels(s);
    if i < |ls| {
      ShapeFrom(b, s, i + 1);
      ShapeLevel(b, s, i);
      assert ls[i..][1..] == ls[i + 1..];
    } else {
      FlatNil();
      LevelledHead([]);
    }
  }

  /** Prices, cached totals and the queue of every level follow from the flat view. */
  lemma ShapeIsView(b: OrderBook, s: Side)
    requires b.Valid()
    ensures Shape(b.Levels(s)) == Levelled(OnSide(b.View(), s))
  {
    hide OrderBook.Valid, Levelled, Flat;
    ShapeFrom(b, s, 0);
    assert b.Levels(s)[0..] == b.Levels(s);
  }

  lemma KeysAre(b: OrderBook)
    requires b.Valid()
    ensures forall id :: id in b.index <==> Known(b.View(), id)
  {
    forall id ensures id in b.index <==> Known(b.View(), id) {
      b.IndexDomain(id);
    }
  }

  lemma {:induction false} InsertHas(s: Side, rs: seq<Resting>, r: Resting)
    ensures r in Insert(s, rs, r)
  {
    if rs != [] && !Beats(s, r.order.price, rs[0].order.price) {
      InsertHas(s, rs[1..], r);
    }
  }

  lemma KnownAfterAdd(b: Book, o: Order, generated: string)
    requires AddVerdict(b, o, generated) == Accepted([])
    ensures Known(Add(b, o, generated), WithId(o, generated).id) <==> o.kind == Limit
  {
    var t := WithId(o, generated);
    NoFillsNoChange(t, OnSide(b, Opposite(t.side)));
    if t.kind == Limit {
      var r := Resting(t, b.clock);
      assert t.(quantity := t.quantity) == t;
      InsertHas(t.side, OnSide(b, t.side), r);
      assert r in OnSide(Add(b, o, generated), t.side);
    }
  }

  /** An order that met nothing, cancelled again: every level, total, queue and index entry is
      back as it was. */
  method AddThenCancel(b: OrderBook, o: Order, generated: string) returns (found: bool)
    requires b.Valid() && Inv(b.View()) && AddVerdict(b.View(), o, generated) == Accepted([])
    modifies b.Footprint()
    ensures b.Valid() && found == (o.kind == Limit)
    ensures Shape(b.bids) == old(Shape(b.bids)) && Shape(b.asks) == old(Shape(b.asks))
    ensures b.index == old(b.index)
  {
    hide OrderBook.Valid, OrderBook.View, OrderBook.Footprint, AddVerdict, Add, Cancel, Inv, Shape;
    ghost var before := b.View();
    ShapeIsView(b, Buy);
    ShapeIsView(b, Sell);
    KeysAre(b);
    CancelUndoesAdd(before, o, generated);
    KnownAfterAdd(before, o, generated);
    var r := b.AddOrder(o, generated);
    found := b.CancelOrder(WithId(o, generated).id);
    ShapeIsView(b, Buy);
    ShapeIsView(b, Sell);
    KeysAre(b);
  }
}
