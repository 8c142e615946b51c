/** What every add and every cancel keeps true of a book: price-time order, unique ids, and
    no two accounts left facing each other at crossing prices. */
module BookInvariant {
  import opened Arithmetic
  import opened Orders
  import opened FlatMatcher
  import opened BookSpec

  /** Strict price-time priority: within a price, strictly increasing acceptance number. */
  ghost predicate Prioritised(s: Side, rs: seq<Resting>) {
    forall i, j :: 0 <= i < j < |rs| ==> Ahead(s, rs[i], rs[j])
  }

  ghost predicate Rests(s: Side, now: nat, x: Resting) {
    && x.order.side == s && x.order.kind == Limit
    && x.order.quantity > 0 && x.order.price > 0 && x.arrival < now
  }

  ghost predicate SideInv(s: Side, now: nat, rs: seq<Resting>) {
    Prioritised(s, rs) && DistinctIds(rs) && forall x :: x in rs ==> Rests(s, now, x)
  }

  ghost predicate Apart(a: seq<Resting>, b: seq<Resting>) {
    forall x, y :: x in a && y in b ==> x.order.id != y.order.id
  }

  ghost predicate Inv(b: Book) {
    SideInv(Buy, b.clock, b.bids) && SideInv(Sell, b.clock, b.asks) && Apart(b.bids, b.asks)
  }

  /** `y` is what is left of `x`. */
  ghost predicate LeftOf(x: Resting, y: Resting) {
    && y.arrival == x.arrival && y.order.quantity <= x.order.quantity
    && y.order == x.order.(quantity := y.order.quantity)
  }

  ghost predicate AllFrom(left: seq<Resting>, rs: seq<Resting>) {
    forall y :: y in left ==> exists x :: x in rs && LeftOf(x, y)
  }

  lemma AllFromKeeps(s: Side, now: nat, rs: seq<Resting>, left: seq<Resting>)
    requires AllFrom(left, rs) && AllPositive(left)
    requires forall x :: x in rs ==> Rests(s, now, x)
    ensures forall y :: y in left ==> Rests(s, now, y)
  {
    forall y | y in left ensures Rests(s, now, y) {
      var i :| 0 <= i < |left| && left[i] == y;
      assert left[i].order.quantity > 0;
    }
  }

  /** Putting what is left of the head in front of what is left of the tail. */
  lemma HeadKeeps(s: Side, rs: seq<Resting>, head: seq<Resting>, tail: seq<Resting>)
    requires rs != [] && Prioritised(s, rs) && DistinctIds(rs)
    requires |head| <= 1 && (head != [] ==> LeftOf(rs[0], head[0]))
    requires AllFrom(tail, rs[1..]) && Prioritised(s, tail) && DistinctIds(tail)
    ensures Prioritised(s, head + tail) && DistinctIds(head + tail) && AllFrom(head + tail, rs)
  {
    forall y | y in tail
      ensures exists x :: x in rs && LeftOf(x, y)
      ensures Ahead(s, rs[0], y) && rs[0].order.id != y.order.id
    {
      var x :| x in rs[1..] && LeftOf(x, y);
      var i :| 1 <= i < |rs| && rs[i] == x;
      assert Ahead(s, rs[0], rs[i]);
    }
    if head != [] {
      assert head == [head[0]] && rs[0] in rs;
      forall i, j | 0 <= i < j < |head + tail|
        ensures Ahead(s, (head + tail)[i], (head + tail)[j])
        ensures (head + tail)[i].order.id != (head + tail)[j].order.id
      {
        assert (head + tail)[j] == tail[j - 1];
        assert i > 0 ==> (head + tail)[i] == tail[i - 1];
      }
    } else {
      assert head + tail == tail;
    }
  }

  lemma {:induction false} MatchKeeps(s: Side, t: Order, ms: seq<Resting>)
    requires Prioritised(s, ms) && DistinctIds(ms) && AllPositive(ms)
    ensures var left := Match(t, ms).left;
            Prioritised(s, left) && DistinctIds(left) && AllPositive(left) && AllFrom(left, ms)
    decreases |ms|
  {
    if ms == [] || t.quantity <= 0 || !Within(t, ms[0].order.price) {
      assert forall x :: x in ms ==> LeftOf(x, x);
    } else if SelfTrade(t, ms[0].order) {
      MatchKeeps(s, t, ms[1..]);
      HeadKeeps(s, ms, [ms[0]], Match(t, ms[1..]).left);
    } else {
      var q := Min(t.quantity, ms[0].order.quantity);
      var t1 := t.(quantity := t.quantity - q);
      MatchKeeps(s, t1, ms[1..]);
      HeadKeeps(s, ms, Rest(ms[0], q), Match(t1, ms[1..]).left);
    }
  }

  function InsertPos(s: Side, rs: seq<Resting>, r: Resting): (k: nat)
    ensures k <= |rs|
  {
    if rs == [] || Beats(s, r.order.price, rs[0].order.price) then 0
    else 1 + InsertPos(s, rs[1..], r)
  }

  lemma {:induction false} InsertSplit(s: Side, rs: seq<Resting>, r: Resting)
    ensures var k := InsertPos(s, rs, r);
            && Insert(s, rs, r) == rs[..k] + [r] + rs[k..]
            && (forall i :: 0 <= i < k ==> !Beats(s, r.order.price, rs[i].order.price))
            && (k < |rs| ==> Beats(s, r.order.price, rs[k].order.price))
  {
    var k := InsertPos(s, rs, r);
    if k == 0 {
      assert rs[..0] + [r] + rs[0..] == [r] + rs;
    } else {
      InsertSplit(s, rs[1..], r);
      assert rs[1..][..k - 1] == rs[1..k] && rs[1..][k - 1..] == rs[k..];
      assert [rs[0]] + (rs[1..k] + [r] + rs[k..]) == rs[..k] + [r] + rs[k..];
      forall i | 0 <= i < k ensures !Beats(s, r.order.price, rs[i].order.price) {
        assert i > 0 ==> rs[i] == rs[1..][i - 1];
      }
    }
  }

  lemma InsertPair(s: Side, now: nat, rs: seq<Resting>, r: Resting, k: nat, i: nat, j: nat)
    requires SideInv(s, now, rs) && r.arrival == now && k <= |rs|
    requires forall x :: x in rs ==> x.order.id != r.order.id
    requires forall i :: 0 <= i < k ==> !Beats(s, r.order.price, rs[i].order.price)
    requires k < |rs| ==> Beats(s, r.order.price, rs[k].order.price)
    requires i < j <= |rs|
    ensures var out := rs[..k] + [r] + rs[k..];
            Ahead(s, out[i], out[j]) && out[i].order.id != out[j].order.id
  {
    if i == k {
      assert j - 1 > k ==> Ahead(s, rs[k], rs[j - 1]);
      assert rs[j - 1] in rs;
    } else if j == k {
      assert rs[i] in rs && Rests(s, now, rs[i]);
    }
  }

  /** A newcomer goes behind its price, and so behind everybody with time priority. */
  lemma InsertKeeps(s: Side, now: nat, rs: seq<Resting>, r: Resting)
    requires SideInv(s, now, rs) && Rests(s, now + 1, r) && r.arrival == now
    requires forall x :: x in rs ==> x.order.id != r.order.id
    ensures SideInv(s, now + 1, Insert(s, rs, r))
    ensures forall x :: x in Insert(s, rs, r) <==> x in rs || x == r
  {
    hide Ahead, Insert, InsertPos, Beats;
    var k := InsertPos(s, rs, r);
    var out := rs[..k] + [r] + rs[k..];
    InsertSplit(s, rs, r);
    assert rs == rs[..k] + rs[k..];
    forall i, j | 0 <= i < j < |out|
      ensures Ahead(s, out[i], out[j]) && out[i].order.id != out[j].order.id
    {
      InsertPair(s, now, rs, r, k, i, j);
    }
    forall x | x in out ensures Rests(s, now + 1, x) {
      assert x in rs ==> Rests(s, now, x);
    }
  }

  lemma {:induction false} WithoutKeeps(s: Side, rs: seq<Resting>, id: string)
    requires Prioritised(s, rs) && DistinctIds(rs)
    ensures var out := Without(rs, id);
            && Prioritised(s, out) && DistinctIds(out) && AllFrom(out, rs)
            && (forall x :: x in out <==> x in rs && x.order.id != id)
  {
    if rs != [] {
      WithoutKeeps(s, rs[1..], id);
      assert LeftOf(rs[0], rs[0]);
      HeadKeeps(s, rs, if rs[0].order.id == id then [] else [rs[0]], Without(rs[1..], id));
      assert rs == [rs[0]] + rs[1..];
    }
  }

  // ---- The invariant over one operation ----

  lemma SidesApart(a: seq<Resting>, b: seq<Resting>, a': seq<Resting>)
    requires Apart(a, b) && AllFrom(a', a)
    ensures Apart(a', b) && Apart(b, a')
  {
    forall y, z | y in a' && z in b ensures y.order.id != z.order.id {
      var x :| x in a && LeftOf(x, y);
    }
  }

  lemma MatchedSide(b: Book, t: Order)
    requires Inv(b)
    ensures var s := Opposite(t.side);
            var left := Matched(b, t).left;
            && SideInv(s, b.clock + 1, left)
            && AllFrom(left, OnSide(b, s))
            && Apart(left, OnSide(b, t.side)) && Apart(OnSide(b, t.side), left)
  {
    var s := Opposite(t.side);
    var ms := OnSide(b, s);
    assert AllPositive(ms) by {
      forall i | 0 <= i < |ms| ensures ms[i].order.quantity > 0 { assert ms[i] in ms; }
    }
    MatchKeeps(s, t, ms);
    AllFromKeeps(s, b.clock, ms, Matched(b, t).left);
    SidesApart(ms, OnSide(b, t.side), Matched(b, t).left);
  }

  lemma AcceptKeeps(b: Book, t: Order)
    requires Inv(b) && !Known(b, t.id) && t.quantity > 0 && (t.kind == Limit ==> t.price > 0)
    ensures Inv(Accept(b, t))
  {
    var s := t.side;
    var r := Matched(b, t);
    var own := OnSide(b, s);
    MatchedSide(b, t);
    assert SideInv(s, b.clock + 1, own) by {
      forall x | x in own ensures Rests(s, b.clock + 1, x) { assert Rests(s, b.clock, x); }
    }
    if r.remaining > 0 && t.kind == Limit {
      var x := Resting(t.(quantity := r.remaining), b.clock);
      InsertKeeps(s, b.clock, own, x);
      forall y, z | y in Insert(s, own, x) && z in r.left ensures y.order.id != z.order.id {
        if y == x {
          var m :| m in OnSide(b, Opposite(s)) && LeftOf(m, z);
          assert !HasId(OnSide(b, Opposite(s)), t.id);
        }
      }
    }
  }

  /** `out` is `rs` without its one order of that id, if it has one; all others stay in place. */
  ghost predicate OnlyLost(rs: seq<Resting>, id: string, out: seq<Resting>) {
    if HasId(rs, id)
    then exists k :: 0 <= k < |rs| && rs[k].order.id == id && out == rs[..k] + rs[k + 1..]
    else out == rs
  }

  lemma WithoutLoses(rs: seq<Resting>, id: string)
    requires DistinctIds(rs)
    ensures OnlyLost(rs, id, Without(rs, id))
  {
    hide Without;
    if HasId(rs, id) {
      var r :| r in rs && r.order.id == id;
      var k :| 0 <= k < |rs| && rs[k] == r;
      assert rs == rs[..k] + [r] + rs[k + 1..];
      WithoutOne(rs[..k], r, rs[k + 1..]);
    } else {
      WithoutAbsent(rs, id);
    }
  }

  lemma CancelKeeps(b: Book, id: string)
    requires Inv(b)
    ensures Inv(Cancel(b, id))
    ensures OnlyLost(b.bids, id, Cancel(b, id).bids) && OnlyLost(b.asks, id, Cancel(b, id).asks)
  {
    hide OnlyLost;
    WithoutKeeps(Buy, b.bids, id);
    WithoutKeeps(Sell, b.asks, id);
    WithoutLoses(b.bids, id);
    WithoutLoses(b.asks, id);
  }

  lemma AddKeeps(b: Book, o: Order, generated: string)
    requires Inv(b)
    ensures Inv(Add(b, o, generated))
  {
    if AddVerdict(b, o, generated).Accepted? {
      AcceptKeeps(b, WithId(o, generated));
    }
  }

  // ---- Crossing ----

  ghost predicate SameOwner(x: Resting, y: Resting) {
    x.order.account == y.order.account && x.order.account != ""
  }

  /** A bid at or above an ask is only left standing when both belong to one named account. */
  ghost predicate Uncrossed(b: Book) {
    forall x, y :: x in b.bids && y in b.asks && x.order.price >= y.order.price ==> SameOwner(x, y)
  }

  /** A taker with quantity left has used up everything it could trade with. */
  lemma {:induction false} NothingEligibleLeft(t: Order, ms: seq<Resting>, y: Resting)
    requires PriceSorted(Opposite(t.side), ms)
    requires Match(t, ms).remaining > 0 && y in Match(t, ms).left
    ensures Within(t, y.order.price) ==> SelfTrade(t, y.order)
    decreases |ms|
  {
    if ms == [] || t.quantity <= 0 {
    } else if !Within(t, ms[0].order.price) {
      var i :| 0 <= i < |ms| && ms[i] == y;
      assert i > 0 ==> !Beats(Opposite(t.side), ms[i].order.price, ms[0].order.price);
    } else if SelfTrade(t, ms[0].order) {
      if y in Match(t, ms[1..]).left {
        NothingEligibleLeft(t, ms[1..], y);
      }
    } else {
      var q := Min(t.quantity, ms[0].order.quantity);
      var t1 := t.(quantity := t.quantity - q);
      if y in Match(t1, ms[1..]).left {
        NothingEligibleLeft(t1, ms[1..], y);
      }
    }
  }

  lemma {:induction false} FillSource(t: Order, ms: seq<Resting>, n: nat, k: nat, f: Fill)
    requires DistinctIds(ms) && n <= |ms| && k < |ms|
    requires f in AllocFills(t, ms, n) && f.makerId == ms[k].order.id
    ensures Allocation(t, ms, k) > 0
    decreases n
  {
    if f in AllocFills(t, ms, n - 1) {
      FillSource(t, ms, n - 1, k, f);
    } else {
      assert f == FillOf(t, ms[n - 1], Allocation(t, ms, n - 1));
    }
  }

  lemma {:induction false} SpentGone(t: Order, ms: seq<Resting>, n: nat, i: nat)
    requires DistinctIds(ms) && n <= |ms| && i < |ms|
    requires Rest(ms[i], Allocation(t, ms, i)) == []
    ensures !HasId(AllocLeft(t, ms, n), ms[i].order.id)
    decreases n
  {
    if n > 0 {
      SpentGone(t, ms, n - 1, i);
    }
  }

  /** After a fill against a maker, no eligible order with better priority still rests. */
  lemma BetterAreGone(t: Order, ms: seq<Resting>, i: nat, k: nat, f: Fill)
    requires PriceSorted(Opposite(t.side), ms) && AllPositive(ms) && DistinctIds(ms)
    requires t.quantity >= 0 && i < k < |ms| && Eligible(t, ms[i])
    requires f in Match(t, ms).fills && f.makerId == ms[k].order.id
    ensures !HasId(Match(t, ms).left, ms[i].order.id)
  {
    MatchIsAllocation(t, ms);
    FillSource(t, ms, |ms|, k, f);
    BestExecution(t, ms, i, k);
    SpentGone(t, ms, |ms|, i);
  }

  lemma PrioritisedIsSorted(s: Side, rs: seq<Resting>)
    requires Prioritised(s, rs)
    ensures PriceSorted(s, rs)
  {
    forall i, j | 0 <= i < j < |rs| ensures !Beats(s, rs[j].order.price, rs[i].order.price) {
      assert Ahead(s, rs[i], rs[j]);
    }
  }

  /** What is left of the side a taker was matched against, facing a price the taker rests at. */
  lemma LeftFacesTaker(b: Book, t: Order, y: Resting)
    requires Inv(b) && t.kind == Limit
    requires Matched(b, t).remaining > 0 && y in Matched(b, t).left
    requires Within(t, y.order.price)
    ensures t.account == y.order.account && t.account != ""
  {
    var s := Opposite(t.side);
    PrioritisedIsSorted(s, OnSide(b, s));
    NothingEligibleLeft(t, OnSide(b, s), y);
  }

  /** Who rests on either side after a valid order was taken. */
  lemma AcceptMembers(b: Book, t: Order)
    requires Inv(b) && !Known(b, t.id)
    requires t.quantity > 0 && (t.kind == Limit ==> t.price > 0)
    ensures var b' := Accept(b, t);
            var r := Matched(b, t);
            && OnSide(b', Opposite(t.side)) == r.left
            && (forall x :: x in OnSide(b', t.side) ==>
                  x in OnSide(b, t.side) ||
                  (r.remaining > 0 && t.kind == Limit &&
                   x == Resting(t.(quantity := r.remaining), b.clock)))
  {
    InsertSplit(t.side, OnSide(b, t.side), Resting(t.(quantity := Matched(b, t).remaining), b.clock));
  }

  lemma AcceptUncrossed(b: Book, t: Order)
    requires Inv(b) && Uncrossed(b) && !Known(b, t.id)
    requires t.quantity > 0 && (t.kind == Limit ==> t.price > 0)
    ensures Uncrossed(Accept(b, t))
  {
    AcceptMembers(b, t);
    MatchedSide(b, t);
    hide Accept, Match, Inv;
    var b' := Accept(b, t);
    var s := t.side;
    forall x, y | x in b'.bids && y in b'.asks && x.order.price >= y.order.price
      ensures SameOwner(x, y)
    {
      var mine, theirs := if s == Buy then x else y, if s == Buy then y else x;
      assert mine in OnSide(b', s) && theirs in Matched(b, t).left;
      var m :| m in OnSide(b, Opposite(s)) && LeftOf(m, theirs);
      if mine in OnSide(b, s) {
        assert SameOwner(if s == Buy then mine else m, if s == Buy then m else mine);
      } else {
        LeftFacesTaker(b, t, theirs);
      }
    }
  }

  lemma AddUncrossed(b: Book, o: Order, generated: string)
    requires Inv(b) && Uncrossed(b)
    ensures Uncrossed(Add(b, o, generated))
  {
    if AddVerdict(b, o, generated).Accepted? {
      AcceptUncrossed(b, WithId(o, generated));
    }
  }

  lemma CancelUncrossed(b: Book, id: string)
    requires Inv(b) && Uncrossed(b)
    ensures Uncrossed(Cancel(b, id))
  {
    WithoutKeeps(Buy, b.bids, id);
    WithoutKeeps(Sell, b.asks, id);
  }

  /** No resting order names an account. */
  ghost predicate Anonymous(b: Book) {
    forall x :: x in b.bids || x in b.asks ==> x.order.account == ""
  }

  lemma AcceptAnonymous(b: Book, t: Order)
    requires Inv(b) && Anonymous(b) && t.account == "" && !Known(b, t.id)
    requires t.quantity > 0 && (t.kind == Limit ==> t.price > 0)
    ensures Anonymous(Accept(b, t))
  {
    AcceptMembers(b, t);
    MatchedSide(b, t);
    hide Accept, Match, Inv;
    var b' := Accept(b, t);
    forall x | x in OnSide(b', Opposite(t.side)) ensures x.order.account == "" {
      var m :| m in OnSide(b, Opposite(t.side)) && LeftOf(m, x);
    }
    forall x | x in OnSide(b', t.side) ensures x.order.account == "" {
    }
  }

  lemma AddAnonymous(b: Book, o: Order, generated: string)
    requires Inv(b) && Anonymous(b) && o.account == ""
    ensures Anonymous(Add(b, o, generated))
  {
    hide Accept, Inv, Anonymous;
    if AddVerdict(b, o, generated).Accepted? {
      AcceptAnonymous(b, WithId(o, generated));
    }
  }

  lemma CancelAnonymous(b: Book, id: string)
    requires Inv(b) && Anonymous(b)
    ensures Anonymous(Cancel(b, id))
  {
    WithoutKeeps(Buy, b.bids, id);
    WithoutKeeps(Sell, b.asks, id);
  }

  /** Without named accounts the best bid is below the best ask, and the spread is positive. */
  lemma AnonymousSpread(b: Book)
    requires Inv(b) && Uncrossed(b) && Anonymous(b)
    ensures forall x, y :: x in b.bids && y in b.asks ==> x.order.price < y.order.price
    ensures b.bids != [] && b.asks != [] ==>
              Spread(b) == b.asks[0].order.price - b.bids[0].order.price > 0
  {
    forall x, y | x in b.bids && y in b.asks ensures x.order.price < y.order.price {
      assert x.order.price >= y.order.price ==> SameOwner(x, y);
    }
  }
}
