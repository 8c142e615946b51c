/** The aggregated view of one side: one entry per price. */
module Depths {
  import opened Orders
  import opened FlatMatcher

  datatype PriceLevel = PriceLevel(price: int, quantity: int, count: int)

  /** Neighbours of equal price are added up. */
  function Depth(rs: seq<Resting>): seq<PriceLevel> {
    if rs == [] then []
    else
      var o := rs[0].order;
      var d := Depth(rs[1..]);
      if d != [] && d[0].price == o.price then
        [PriceLevel(o.price, o.quantity + d[0].quantity, 1 + d[0].count)] + d[1..]
      else [PriceLevel(o.price, o.quantity, 1)] + d
  }

  function QtyAt(rs: seq<Resting>, price: int): int {
    if rs == [] then 0
    else (if rs[0].order.price == price then rs[0].order.quantity else 0) + QtyAt(rs[1..], price)
  }

  function CountAt(rs: seq<Resting>, price: int): nat {
    if rs == [] then 0
    else (if rs[0].order.price == price then 1 else 0) + CountAt(rs[1..], price)
  }

  function TotalCount(ds: seq<PriceLevel>): int {
    if ds == [] then 0 else ds[0].count + TotalCount(ds[1..])
  }

  /** A block of one price in front of a different price becomes one entry. */
  lemma {:induction false} DepthBlock(block: seq<Resting>, rest: seq<Resting>, price: int)
    requires block != [] && forall i :: 0 <= i < |block| ==> block[i].order.price == price
    requires rest != [] ==> rest[0].order.price != price
    ensures Depth(block + rest) == [PriceLevel(price, TotalQty(block), |block|)] + Depth(rest)
  {
    assert (block + rest)[1..] == block[1..] + rest;
    if |block| == 1 {
      assert block[1..] + rest == rest;
    } else {
      DepthBlock(block[1..], rest, price);
    }
  }

  lemma {:induction false} DepthHead(rs: seq<Resting>)
    ensures Depth(rs) == [] <==> rs == []
    ensures rs != [] ==> Depth(rs)[0].price == rs[0].order.price
  {
  }

  lemma {:induction false} CountNone(rs: seq<Resting>, price: int)
    requires forall i :: 0 <= i < |rs| ==> rs[i].order.price != price
    ensures QtyAt(rs, price) == 0 && CountAt(rs, price) == 0
  {
    if rs != [] {
      CountNone(rs[1..], price);
    }
  }

  /** Strictly sorted, best price first; every entry carries the quantity and the number of
      orders resting at its price. */
  lemma {:induction false} DepthExact(s: Side, rs: seq<Resting>)
    requires PriceSorted(s, rs)
    ensures var d := Depth(rs);
            && (forall i, j :: 0 <= i < j < |d| ==> Beats(s, d[i].price, d[j].price))
            && (forall i :: 0 <= i < |d| ==>
                  && d[i].quantity == QtyAt(rs, d[i].price)
                  && d[i].count == CountAt(rs, d[i].price) > 0)
  {
    if rs != [] {
      var p := rs[0].order.price;
      DepthExact(s, rs[1..]);
      DepthHead(rs[1..]);
      if |rs| == 1 || rs[1].order.price != p {
        forall i | 1 <= i < |rs| ensures Beats(s, p, rs[i].order.price) {
          assert !Beats(s, rs[1].order.price, p) && !Beats(s, rs[i].order.price, rs[1].order.price);
        }
        CountNone(rs[1..], p);
        var d1 := Depth(rs[1..]);
        forall i | 0 <= i < |d1| ensures Beats(s, p, d1[i].price) {
          if i > 0 {
            assert Beats(s, d1[0].price, d1[i].price);
          }
        }
      }
    }
  }

  lemma {:induction false} DepthComplete(rs: seq<Resting>, i: nat)
    requires i < |rs|
    ensures exists k :: 0 <= k < |Depth(rs)| && Depth(rs)[k].price == rs[i].order.price
  {
    if i == 0 {
      DepthHead(rs);
      assert Depth(rs)[0].price == rs[0].order.price;
    } else {
      DepthComplete(rs[1..], i - 1);
      var d1 := Depth(rs[1..]);
      var k :| 0 <= k < |d1| && d1[k].price == rs[1..][i - 1].order.price;
      if d1[0].price == rs[0].order.price {
        assert Depth(rs)[k].price == d1[k].price;
      } else {
        assert Depth(rs)[k + 1] == d1[k];
      }
    }
  }

  lemma {:induction false} DepthCounts(rs: seq<Resting>)
    ensures TotalCount(Depth(rs)) == |rs|
  {
    if rs != [] {
      DepthCounts(rs[1..]);
      var d1 := Depth(rs[1..]);
      var d := Depth(rs);
      assert d[1..] == d1 || d[1..] == d1[1..];
    }
  }
}
