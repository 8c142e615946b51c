/** The reference matcher: one pass over a flat list of resting orders in priority order.

    `Match` is the meaning that the level-map matcher of the class OrderBook is proved to
    have.  The closed form below says, without recursion over a taker's shrinking quantity,
    how much every maker gives: the taker's quantity is poured over the eligible makers in
    price-time order. */
module FlatMatcher {
  import opened Arithmetic
  import opened Orders

  /** The result of matching one taker against one side: the fills in the order they were
      made, what is left of that side, and what is left of the taker. */
  datatype Outcome = Outcome(fills: seq<Fill>, left: seq<Resting>, remaining: int)

  /** The taker's limit admits a maker at this price; a market order has no limit. */
  predicate Within(t: Order, price: int) {
    t.kind == Market || (if t.side == Buy then price <= t.price else t.price <= price)
  }

  predicate SelfTrade(t: Order, m: Order) {
    t.account != "" && t.account == m.account
  }

  predicate Eligible(t: Order, m: Resting) {
    Within(t, m.order.price) && !SelfTrade(t, m.order)
  }

  function Reduced(m: Resting, q: int): Resting {
    m.(order := m.order.(quantity := m.order.quantity - q))
  }

  /** What remains of a maker after giving `q`: nothing when it is used up. */
  function Rest(m: Resting, q: int): seq<Resting> {
    if q == m.order.quantity then [] else [Reduced(m, q)]
  }

  function FillOf(t: Order, m: Resting, q: int): Fill {
    Fill(m.order.id, t.id, m.order.price, q)
  }

  function Match(t: Order, ms: seq<Resting>): Outcome
    decreases |ms|
  {
    if ms == [] || t.quantity <= 0 || !Within(t, ms[0].order.price) then
      Outcome([], ms, t.quantity)
    else if SelfTrade(t, ms[0].order) then
      var r := Match(t, ms[1..]);
      r.(left := [ms[0]] + r.left)
    else
      var q := Min(t.quantity, ms[0].order.quantity);
      var r := Match(t.(quantity := t.quantity - q), ms[1..]);
      Outcome([FillOf(t, ms[0], q)] + r.fills, Rest(ms[0], q) + r.left, r.remaining)
  }

  /** The makers' side is in price order, best first, and holds no empty order. */
  predicate PriceSorted(s: Side, ms: seq<Resting>) {
    forall i, j :: 0 <= i < j < |ms| ==> !Beats(s, ms[j].order.price, ms[i].order.price)
  }

  predicate AllPositive(ms: seq<Resting>) {
    forall i :: 0 <= i < |ms| ==> ms[i].order.quantity > 0
  }

  /** Matching splits at any point up to which every price is within the taker's limit;
      this is what lets a level be matched on its own. */
  lemma {:induction false} MatchConcat(t: Order, a: seq<Resting>, b: seq<Resting>)
    requires forall i :: 0 <= i < |a| ==> Within(t, a[i].order.price)
    ensures var r1 := Match(t, a);
            var r2 := Match(t.(quantity := r1.remaining), b);
            Match(t, a + b) == Outcome(r1.fills + r2.fills, r1.left + r2.left, r2.remaining)
    decreases |a|
  {
    if a == [] || t.quantity <= 0 {
      assert a == [] ==> a + b == b;
      assert t.(quantity := t.quantity) == t;
      assert [] + Match(t, b).fills == Match(t, b).fills;
    } else {
      assert (a + b)[1..] == a[1..] + b;
      var m := a[0];
      if SelfTrade(t, m.order) {
        MatchConcat(t, a[1..], b);
      } else {
        MatchConcat(t.(quantity := t.quantity - Min(t.quantity, m.order.quantity)), a[1..], b);
      }
      var r1 := Match(t, a);
      var r2 := Match(t.(quantity := r1.remaining), b);
      assert Match(t, a + b).left == r1.left + r2.left;
      assert Match(t, a + b).fills == r1.fills + r2.fills;
    }
  }

  // ---- Matching in pieces ----

  /** A matcher that has made `fills`, has passed `done`, still has `rest` before it and `q`
      of the taker left, will end where matching all of `ms` ends. */
  ghost predicate Resumes(t: Order, ms: seq<Resting>,
                          fills: seq<Fill>, done: seq<Resting>, rest: seq<Resting>, q: int)
  {
    var r := Match(t.(quantity := q), rest);
    Match(t, ms) == Outcome(fills + r.fills, done + r.left, r.remaining)
  }

  lemma {:induction false} ResumeStart(t: Order, ms: seq<Resting>)
    ensures Resumes(t, ms, [], [], ms, t.quantity)
  {
    assert t.(quantity := t.quantity) == t;
    var r := Match(t, ms);
    assert [] + r.fills == r.fills && [] + r.left == r.left;
  }

  /** Moving on: what was matched next is a whole `Match` of its own. */
  lemma {:induction false} ResumeAfter(t: Order, ms: seq<Resting>, fills: seq<Fill>, done: seq<Resting>,
                    rest: seq<Resting>, q: int, fills1: seq<Fill>, done1: seq<Resting>,
                    rest1: seq<Resting>, q1: int)
    requires Resumes(t, ms, fills, done, rest, q)
    requires Resumes(t.(quantity := q), rest, fills1, done1, rest1, q1)
    ensures Resumes(t, ms, fills + fills1, done + done1, rest1, q1)
  {
    var r := Match(t.(quantity := q1), rest1);
    assert t.(quantity := q).(quantity := q1) == t.(quantity := q1);
    assert fills + (fills1 + r.fills) == (fills + fills1) + r.fills;
    assert done + (done1 + r.left) == (done + done1) + r.left;
  }

  lemma {:induction false} ResumeSkip(t: Order, ms: seq<Resting>, fills: seq<Fill>, done: seq<Resting>,
                   rest: seq<Resting>, q: int)
    requires Resumes(t, ms, fills, done, rest, q)
    requires rest != [] && q > 0
    requires Within(t, rest[0].order.price) && SelfTrade(t, rest[0].order)
    ensures Resumes(t, ms, fills, done + [rest[0]], rest[1..], q)
  {
    var r := Match(t.(quantity := q), rest[1..]);
    assert done + ([rest[0]] + r.left) == (done + [rest[0]]) + r.left;
  }

  lemma {:induction false} ResumeFill(t: Order, ms: seq<Resting>, fills: seq<Fill>, done: seq<Resting>,
                   rest: seq<Resting>, q: int, a: int)
    requires Resumes(t, ms, fills, done, rest, q)
    requires rest != [] && q > 0 && Eligible(t, rest[0])
    requires a == Min(q, rest[0].order.quantity)
    ensures Resumes(t, ms, fills + [FillOf(t, rest[0], a)], done + Rest(rest[0], a), rest[1..], q - a)
  {
    var r := Match(t.(quantity := q - a), rest[1..]);
    assert t.(quantity := q).(quantity := q - a) == t.(quantity := q - a);
    assert fills + ([FillOf(t, rest[0], a)] + r.fills) == (fills + [FillOf(t, rest[0], a)]) + r.fills;
    assert done + (Rest(rest[0], a) + r.left) == (done + Rest(rest[0], a)) + r.left;
  }

  lemma {:induction false} ResumeEnd(t: Order, ms: seq<Resting>, fills: seq<Fill>, done: seq<Resting>,
                  rest: seq<Resting>, q: int)
    requires Resumes(t, ms, fills, done, rest, q)
    requires rest == [] || q <= 0 || !Within(t, rest[0].order.price)
    ensures Match(t, ms) == Outcome(fills, done + rest, q)
  {
    assert fills + [] == fills;
  }

  /** A block of makers, all within the limit, is matched as a unit. */
  lemma ResumeBlock(t: Order, ms: seq<Resting>, fills: seq<Fill>, done: seq<Resting>,
                    block: seq<Resting>, rest: seq<Resting>, q: int)
    requires Resumes(t, ms, fills, done, block + rest, q)
    requires forall i :: 0 <= i < |block| ==> Within(t, block[i].order.price)
    ensures var r := Match(t.(quantity := q), block);
            Resumes(t, ms, fills + r.fills, done + r.left, rest, r.remaining)
  {
    var t1 := t.(quantity := q);
    MatchConcat(t1, block, rest);
    var r := Match(t1, block);
    assert Resumes(t1, block + rest, r.fills, r.left, rest, r.remaining);
    hide Resumes;
    ResumeAfter(t, ms, fills, done, block + rest, q, r.fills, r.left, rest, r.remaining);
  }

  // ---- The closed form ----

  function EligibleQty(t: Order, ms: seq<Resting>): int {
    if ms == [] then 0
    else EligibleQty(t, ms[..|ms| - 1]) +
         (if Eligible(t, ms[|ms| - 1]) then ms[|ms| - 1].order.quantity else 0)
  }

  /** What maker `k` gives: the taker's quantity minus everything eligible ahead of it,
      cut to what the maker has. */
  function Allocation(t: Order, ms: seq<Resting>, k: nat): int
    requires k < |ms|
  {
    if Eligible(t, ms[k]) then
      Min(ms[k].order.quantity, Max(0, t.quantity - EligibleQty(t, ms[..k])))
    else 0
  }

  function AllocFills(t: Order, ms: seq<Resting>, n: nat): seq<Fill>
    requires n <= |ms|
  {
    if n == 0 then []
    else
      var q := Allocation(t, ms, n - 1);
      AllocFills(t, ms, n - 1) + (if q > 0 then [FillOf(t, ms[n - 1], q)] else [])
  }

  function AllocLeft(t: Order, ms: seq<Resting>, n: nat): seq<Resting>
    requires n <= |ms|
  {
    if n == 0 then []
    else AllocLeft(t, ms, n - 1) + Rest(ms[n - 1], Allocation(t, ms, n - 1))
  }

  lemma {:induction false} EligibleQtyNonNegative(t: Order, ms: seq<Resting>)
    requires AllPositive(ms)
    ensures EligibleQty(t, ms) >= 0
  {
    if ms != [] {
      EligibleQtyNonNegative(t, ms[..|ms| - 1]);
    }
  }

  /** A taker that is spent, or whose limit excludes the best maker, changes nothing. */
  lemma {:induction false} MatchStops(t: Order, ms: seq<Resting>)
    requires PriceSorted(Opposite(t.side), ms)
    requires ms != [] && (t.quantity == 0 || !Within(t, ms[0].order.price))
    ensures Match(t, ms) == Outcome([], ms, t.quantity)
    ensures Match(t, ms[1..]) == Outcome([], ms[1..], t.quantity)
  {
    if |ms| > 1 {
      assert !Beats(Opposite(t.side), ms[1].order.price, ms[0].order.price);
    }
  }

  /** What the best maker gives when it is the only one looked at. */
  function HeadShare(t: Order, m: Resting): int {
    if Eligible(t, m) then Min(m.order.quantity, t.quantity) else 0
  }

  /** One maker, seen from the closed form. */
  lemma {:induction false} MatchHead(t: Order, ms: seq<Resting>)
    requires ms != [] && t.quantity >= 0 && ms[0].order.quantity > 0
    requires PriceSorted(Opposite(t.side), ms)
    ensures var a := HeadShare(t, ms[0]);
            var r := Match(t.(quantity := t.quantity - a), ms[1..]);
            Match(t, ms) == Outcome((if a > 0 then [FillOf(t, ms[0], a)] else []) + r.fills,
                                    Rest(ms[0], a) + r.left, r.remaining)
  {
    var a := HeadShare(t, ms[0]);
    if t.quantity == 0 || !Within(t, ms[0].order.price) {
      MatchStops(t, ms);
      assert a == 0 && t.(quantity := t.quantity - a) == t;
      assert Rest(ms[0], a) + ms[1..] == ms;
    } else if SelfTrade(t, ms[0].order) {
      assert a == 0 && t.(quantity := t.quantity - a) == t;
      assert Rest(ms[0], a) == [ms[0]];
      assert [] + Match(t, ms[1..]).fills == Match(t, ms[1..]).fills;
    } else {
      assert a == Min(t.quantity, ms[0].order.quantity) > 0;
    }
  }

  /** The taker as maker `n` finds it, in the closed form. */
  function TakerAt(t: Order, ms: seq<Resting>, n: nat): Order
    requires n <= |ms|
  {
    t.(quantity := Max(0, t.quantity - EligibleQty(t, ms[..n])))
  }

  lemma TakerStep(t: Order, ms: seq<Resting>, n: nat)
    requires n < |ms| && AllPositive(ms)
    ensures HeadShare(TakerAt(t, ms, n), ms[n]) == Allocation(t, ms, n)
    ensures var t0 := TakerAt(t, ms, n);
            TakerAt(t, ms, n + 1) == t0.(quantity := t0.quantity - Allocation(t, ms, n))
  {
    EligibleQtyNonNegative(t, ms[..n]);
    assert ms[..n + 1][..n] == ms[..n];
  }

  /** The matcher after the first `n` makers is where the closed form says it is. */
  ghost predicate CutAt(t: Order, ms: seq<Resting>, n: nat)
    requires n <= |ms|
  {
    Resumes(t, ms, AllocFills(t, ms, n), AllocLeft(t, ms, n), ms[n..],
            TakerAt(t, ms, n).quantity)
  }

  lemma CutHead(t: Order, ms: seq<Resting>, n: nat)
    requires n < |ms| && t.quantity >= 0
    requires PriceSorted(Opposite(t.side), ms) && AllPositive(ms)
    ensures var t0 := TakerAt(t, ms, n);
            var a := Allocation(t, ms, n);
            && t0 == t.(quantity := t0.quantity)
            && Resumes(t0, ms[n..], if a > 0 then [FillOf(t, ms[n], a)] else [],
                       Rest(ms[n], a), ms[n + 1..], t0.quantity - a)
  {
    TakerStep(t, ms, n);
    assert ms[n..][0] == ms[n] && ms[n..][1..] == ms[n + 1..];
    MatchHead(TakerAt(t, ms, n), ms[n..]);
  }

  lemma {:induction false} CutStep(t: Order, ms: seq<Resting>, n: nat)
    requires n < |ms| && t.quantity >= 0
    requires PriceSorted(Opposite(t.side), ms) && AllPositive(ms)
    requires CutAt(t, ms, n)
    ensures CutAt(t, ms, n + 1)
  {
    hide Resumes, Allocation, TakerAt, HeadShare;
    var t0 := TakerAt(t, ms, n);
    var a := Allocation(t, ms, n);
    var head := if a > 0 then [FillOf(t, ms[n], a)] else [];
    CutHead(t, ms, n);
    TakerStep(t, ms, n);
    ResumeAfter(t, ms, AllocFills(t, ms, n), AllocLeft(t, ms, n), ms[n..], t0.quantity,
                head, Rest(ms[n], a), ms[n + 1..], t0.quantity - a);
  }

  /** After the first `n` makers the matcher is where the closed form says it is. */
  lemma {:induction false} MatchAfter(t: Order, ms: seq<Resting>, n: nat)
    requires n <= |ms| && t.quantity >= 0
    requires PriceSorted(Opposite(t.side), ms) && AllPositive(ms)
    ensures CutAt(t, ms, n)
  {
    hide Resumes;
    if n == 0 {
      assert ms[..0] == [] && ms[0..] == ms;
      ResumeStart(t, ms);
    } else {
      MatchAfter(t, ms, n - 1);
      CutStep(t, ms, n - 1);
    }
  }

  /** Matching is exactly the closed-form allocation: fills, leftover side and leftover taker. */
  lemma MatchIsAllocation(t: Order, ms: seq<Resting>)
    requires t.quantity >= 0
    requires PriceSorted(Opposite(t.side), ms) && AllPositive(ms)
    ensures Match(t, ms) == Outcome(AllocFills(t, ms, |ms|), AllocLeft(t, ms, |ms|),
                                    t.quantity - Min(t.quantity, EligibleQty(t, ms)))
  {
    MatchAfter(t, ms, |ms|);
    assert ms[..|ms|] == ms && ms[|ms|..] == [];
    EligibleQtyNonNegative(t, ms);
    ResumeEnd(t, ms, AllocFills(t, ms, |ms|), AllocLeft(t, ms, |ms|), [],
              TakerAt(t, ms, |ms|).quantity);
    assert AllocLeft(t, ms, |ms|) + [] == AllocLeft(t, ms, |ms|);
  }

  /** Nothing is created or lost: the fills are what the taker lost and what the side lost. */
  lemma {:induction false} MatchConserves(t: Order, ms: seq<Resting>)
    ensures var r := Match(t, ms);
            && TradedQty(r.fills) == t.quantity - r.remaining
            && TradedQty(r.fills) == TotalQty(ms) - TotalQty(r.left)
    decreases |ms|
  {
    if ms == [] || t.quantity <= 0 || !Within(t, ms[0].order.price) {
    } else if SelfTrade(t, ms[0].order) {
      MatchConserves(t, ms[1..]);
      var r := Match(t, ms[1..]);
      assert ([ms[0]] + r.left)[1..] == r.left;
    } else {
      var q := Min(t.quantity, ms[0].order.quantity);
      var t1 := t.(quantity := t.quantity - q);
      MatchConserves(t1, ms[1..]);
      var r := Match(t1, ms[1..]);
      TotalQtyConcat(Rest(ms[0], q), r.left);
      assert ([FillOf(t, ms[0], q)] + r.fills)[1..] == r.fills;
    }
  }

  /** Maximal execution: as much is filled as the eligible makers can give. */
  lemma MaximalExecution(t: Order, ms: seq<Resting>)
    requires t.quantity >= 0
    requires PriceSorted(Opposite(t.side), ms) && AllPositive(ms)
    ensures TradedQty(Match(t, ms).fills) == Min(t.quantity, EligibleQty(t, ms))
  {
    MatchIsAllocation(t, ms);
    MatchConserves(t, ms);
  }

  lemma {:induction false} EligibleQtyPrefix(t: Order, ms: seq<Resting>, i: nat, k: nat)
    requires i < k <= |ms| && AllPositive(ms) && Eligible(t, ms[i])
    ensures EligibleQty(t, ms[..i]) + ms[i].order.quantity <= EligibleQty(t, ms[..k])
    decreases k
  {
    assert ms[..k][..k - 1] == ms[..k - 1];
    if i < k - 1 {
      EligibleQtyPrefix(t, ms, i, k - 1);
    }
  }

  /** Best execution: once a maker gives anything, every eligible maker ahead of it
      has given all it had. */
  lemma BestExecution(t: Order, ms: seq<Resting>, i: nat, k: nat)
    requires i < k < |ms| && t.quantity >= 0
    requires AllPositive(ms)
    requires Eligible(t, ms[i]) && Allocation(t, ms, k) > 0
    ensures Allocation(t, ms, i) == ms[i].order.quantity
    ensures Rest(ms[i], Allocation(t, ms, i)) == []
  {
    EligibleQtyPrefix(t, ms, i, k);
  }
}
