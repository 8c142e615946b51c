/** When exactly the best bid stays below the best ask. */
module Crossings {
  import opened Arithmetic
  import opened Orders
  import opened FlatMatcher
  import opened BookSpec
  import opened BookInvariant
  import opened BookRuns

  /** Every bid is below every ask. */
  ghost predicate Parted(b: Book) {
    forall x, y :: x in b.bids && y in b.asks ==> x.order.price < y.order.price
  }

  /** A limit order, too large for the eligible orders on the other side, meets there within
      its limit an order of its own account, which it skips. */
  ghost predicate MeetsOwn(b: Book, t: Order) {
    var ms := OnSide(b, Opposite(t.side));
    && t.kind == Limit && EligibleQty(t, ms) < t.quantity
    && exists m :: m in ms && Within(t, m.order.price) && SelfTrade(t, m.order)
  }

  /** An order of the taker's own account is left as it is. */
  lemma {:induction false} OwnStays(t: Order, ms: seq<Resting>, m: Resting)
    requires m in ms && SelfTrade(t, m.order)
    ensures m in Match(t, ms).left
    decreases |ms|
  {
    if t.quantity > 0 && Within(t, ms[0].order.price) {
      if SelfTrade(t, ms[0].order) {
        if m != ms[0] {
          OwnStays(t, ms[1..], m);
        }
      } else {
        OwnStays(t.(quantity := t.quantity - Min(t.quantity, ms[0].order.quantity)), ms[1..], m);
      }
    }
  }

  lemma HungryIffShort(b: Book, t: Order)
    requires Inv(b) && t.quantity > 0
    ensures Matched(b, t).remaining > 0 <==> EligibleQty(t, OnSide(b, Opposite(t.side))) < t.quantity
  {
    var s := Opposite(t.side);
    var ms := OnSide(b, s);
    PrioritisedIsSorted(s, ms);
    forall i | 0 <= i < |ms| ensures ms[i].order.quantity > 0 {
      assert ms[i] in ms;
    }
    MatchIsAllocation(t, ms);
  }

  /** What a limit order with quantity left rests as. */
  lemma TakerRests(b: Book, t: Order)
    requires t.kind == Limit && Matched(b, t).remaining > 0
    ensures Resting(t.(quantity := Matched(b, t).remaining), b.clock) in OnSide(Accept(b, t), t.side)
  {
    hide Match, Insert;
    InsertSplit(t.side, OnSide(b, t.side),
                Resting(t.(quantity := Matched(b, t).remaining), b.clock));
  }

  lemma MeetingCrosses(b: Book, t: Order)
    requires Inv(b) && !Known(b, t.id) && MeetsOwn(b, t)
    requires t.quantity > 0 && (t.kind == Limit ==> t.price > 0)
    ensures !Parted(Accept(b, t))
  {
    hide Accept, Match, Inv, Known;
    HungryIffShort(b, t);
    TakerRests(b, t);
    AcceptMembers(b, t);
    var ms := OnSide(b, Opposite(t.side));
    var m :| m in ms && Within(t, m.order.price) && SelfTrade(t, m.order);
    OwnStays(t, ms, m);
    var x := Resting(t.(quantity := Matched(b, t).remaining), b.clock);
    assert x in OnSide(Accept(b, t), t.side) && m in OnSide(Accept(b, t), Opposite(t.side));
  }

  lemma CrossingMeets(b: Book, t: Order, mine: Resting, theirs: Resting)
    requires Inv(b) && Parted(b) && !Known(b, t.id)
    requires t.quantity > 0 && (t.kind == Limit ==> t.price > 0)
    requires mine in OnSide(Accept(b, t), t.side) && theirs in OnSide(Accept(b, t), Opposite(t.side))
    requires !Beats(t.side, theirs.order.price, mine.order.price)
    ensures MeetsOwn(b, t)
  {
    hide Accept, Match, Inv, Known, SideInv;
    HungryIffShort(b, t);
    AcceptMembers(b, t);
    MatchedSide(b, t);
    var m :| m in OnSide(b, Opposite(t.side)) && LeftOf(m, theirs);
    if mine !in OnSide(b, t.side) {
      LeftFacesTaker(b, t, theirs);
    }
  }

  /** A book whose bids are below its asks keeps that through a valid order, if and only if
      the order does not meet one of its own account with quantity left to rest. */
  lemma CrossesExactly(b: Book, t: Order)
    requires Inv(b) && Parted(b) && !Known(b, t.id)
    requires t.quantity > 0 && (t.kind == Limit ==> t.price > 0)
    ensures Parted(Accept(b, t)) <==> !MeetsOwn(b, t)
  {
    hide Accept, Inv, Known, MeetsOwn;
    var b' := Accept(b, t);
    if MeetsOwn(b, t) {
      MeetingCrosses(b, t);
    } else {
      forall x, y | x in b'.bids && y in b'.asks ensures x.order.price < y.order.price {
        if x.order.price >= y.order.price {
          if t.side == Buy { CrossingMeets(b, t, x, y); } else { CrossingMeets(b, t, y, x); }
        }
      }
    }
  }

  /** The call is an accepted order that meets its own account. */
  ghost predicate Meets(b: Book, op: Op) {
    op.Submit? && AddVerdict(b, op.order, op.generated).Accepted?
    && MeetsOwn(b, WithId(op.order, op.generated))
  }

  lemma CallCrosses(b: Book, op: Op)
    requires Inv(b) && Parted(b)
    ensures Parted(After(b, op)) <==> !Meets(b, op)
  {
    hide Accept, Inv, MeetsOwn, Match, Known;
    match op
    case Submit(o, g) =>
      if AddVerdict(b, o, g).Accepted? {
        CrossesExactly(b, WithId(o, g));
      }
    case Withdraw(id) =>
      FewerPart(b, id);
  }

  lemma FewerPart(b: Book, id: string)
    requires Inv(b) && Parted(b)
    ensures Parted(Cancel(b, id))
  {
    WithoutKeeps(Buy, b.bids, id);
    WithoutKeeps(Sell, b.asks, id);
  }

  /** Over a run: every book on the way has its bids below its asks, if and only if no call of
      the run is an order that meets its own account with quantity left to rest. */
  lemma {:induction false} PartedRun(ops: seq<Op>)
    ensures (forall k :: 0 <= k <= |ops| ==> Parted(Run(ops[..k]))) <==>
            (forall k :: 0 <= k < |ops| ==> !Meets(Run(ops[..k]), ops[k]))
  {
    hide Parted, Meets, After;
    if forall k :: 0 <= k <= |ops| ==> Parted(Run(ops[..k])) {
      forall k | 0 <= k < |ops| ensures !Meets(Run(ops[..k]), ops[k]) {
        RunNext(ops, k);
        CallCrosses(Run(ops[..k]), ops[k]);
      }
    }
    if forall k :: 0 <= k < |ops| ==> !Meets(Run(ops[..k]), ops[k]) {
      forall k | 0 <= k <= |ops| ensures Parted(Run(ops[..k])) {
        PartedUpTo(ops, k);
      }
    }
  }

  lemma RunNext(ops: seq<Op>, k: nat)
    requires k < |ops|
    ensures Run(ops[..k + 1]) == After(Run(ops[..k]), ops[k]) && Inv(Run(ops[..k]))
  {
    hide After, Inv;
    assert ops[..k + 1][..k] == ops[..k];
    RunKeeps(ops[..k]);
  }

  lemma {:induction false} PartedUpTo(ops: seq<Op>, k: nat)
    requires k <= |ops| && forall i :: 0 <= i < |ops| ==> !Meets(Run(ops[..i]), ops[i])
    ensures Parted(Run(ops[..k]))
  {
    hide Meets, After, Inv;
    if k == 0 {
      assert ops[..0] == [];
    } else {
      PartedUpTo(ops, k - 1);
      RunNext(ops, k - 1);
      CallCrosses(Run(ops[..k - 1]), ops[k - 1]);
    }
  }

  /** With both sides occupied, that is a positive difference of the best prices. */
  lemma PartedIsSpread(b: Book)
    requires Inv(b) && b.bids != [] && b.asks != []
    ensures Parted(b) <==> b.asks[0].order.price - b.bids[0].order.price > 0
  {
    PrioritisedIsSorted(Buy, b.bids);
    PrioritisedIsSorted(Sell, b.asks);
    forall x, y | x in b.bids && y in b.asks
      ensures x.order.price <= b.bids[0].order.price && b.asks[0].order.price <= y.order.price
    {
      var i :| 0 <= i < |b.bids| && b.bids[i] == x;
      var j :| 0 <= j < |b.asks| && b.asks[j] == y;
    }
    assert b.bids[0] in b.bids && b.asks[0] in b.asks;
  }
}
