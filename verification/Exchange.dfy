/** The exchange process: its shared maps and counter, and the critical sections of its
    request handlers. */
module Exchanges {
  import opened Arithmetic
  import opened Orders
  import opened FlatMatcher
  import opened BookSpec
  import opened BookInvariant
  import opened OrderIds
  import opened ExchangeProtocol
  import opened ExchangeGuarantees
  import opened ExchangeProvenance
  import opened ExecutionReports
  import opened Executions
  import opened Depths
  import OrderBooks
  type OrderBook = OrderBooks.OrderBook

  /** A well-formed book all of whose objects are among `r`. */
  ghost predicate Owned(b: OrderBook, r: set<object>)
    reads r
  {
    && b in r && (forall l :: l in b.bids ==> l in r) && (forall l :: l in b.asks ==> l in r)
    && b.Footprint() <= r && b.Valid()
  }

  /** A book none of whose objects changed is the same book. */
  twostate lemma Stays(b: OrderBook)
    requires old(b.Valid()) && unchanged(old(b.Footprint()))
    ensures b.Valid() && b.View() == old(b.View()) && b.Footprint() == old(b.Footprint())
    ensures b.bids == old(b.bids) && b.asks == old(b.asks)
  {
  }

  lemma Covers(b: OrderBook)
    ensures b in b.Footprint()
    ensures forall l :: l in b.bids || l in b.asks ==> l in b.Footprint()
  {
  }

  datatype Response =
    | Refused                        // 400
    | NotFound(id: string)           // 404
    | Report(id: string, clientId: string, symbol: string, side: Side, status: Status,
             filled: int, price: int, leaves: int)
    | CancelledReport(id: string, clientId: string, symbol: string, side: Side, cum: int)
    | DepthReport(bids: seq<PriceLevel>, asks: seq<PriceLevel>)

  datatype Call = Submit(req: Request) | Withdraw(id: string) | Look(symbol: string)

  function ArrivalOf(call: Call): Step {
    match call
    case Submit(req) => Post(req)
    case Withdraw(id) => Delete(id)
    case Look(symbol) => Show(symbol)
  }

  /** What the client of a POST is told. */
  function PostResponse(req: Request, reply: Reply): Response {
    match reply
    case Executed(id, fills, leaves) =>
      Report(id, req.clientId, req.symbol, req.side,
             StatusOf(req.kind, req.quantity, TradedQty(fills)),
             TradedQty(fills), AveragePrice(fills), leaves)
    case _ => Refused
  }

  /** `response` is what the client sees when the handler of `call` ends with `reply`. */
  predicate Answers(call: Call, reply: Reply, response: Response) {
    match call
    case Submit(req) =>
      (reply == BadRequest || reply.Executed?) && response == PostResponse(req, reply)
    case Withdraw(id) =>
      if response.CancelledReport? then reply == CancelReport(id, response.cum) && response.id == id
      else (reply == NotTracked(id) || reply == NotCancelled(id)) && response == NotFound(id)
    case Look(symbol) =>
      && reply.Snapshot? && reply.symbol == symbol
      && response == DepthReport(Depth(reply.book.bids), Depth(reply.book.asks))
  }

  /** From `before` to `after` only handler `h` moves. */
  ghost predicate Advances(before: seq<Step>, h: nat, after: seq<Step>) {
    before <= after && forall k :: |before| <= k < |after| ==> after[k] == Advance(h)
  }

  lemma NothingTaken(id: string)
    ensures !Taken(EMPTY, id)
  {
  }

  /** What a report says, in terms of the request and of the book at its call: as much is
      filled as was on offer, the rest is left, the status says which, and the price is the
      value of the fills per unit, rounded down. */
  ghost predicate ReportedRightly(req: Request, r: Response, b: Book, b': Book)
    requires r.Report?
  {
    var theirs := if req.side == Buy then b.asks else b.bids;
    && r.clientId == req.clientId && r.symbol == req.symbol && r.side == req.side
    && r.filled == Min(req.quantity, OnOffer(req.kind, req.side, req.price, "", theirs))
    && r.filled + r.leaves == req.quantity
    && (r.status == Filled <==> r.leaves == 0)
    && (r.status == Partial <==> 0 < r.filled && r.leaves > 0)
    && (r.status == Unmatched <==> r.filled == 0 && req.kind == Market && r.leaves > 0)
    && (r.status == New <==> r.filled == 0 && req.kind == Limit && r.leaves > 0)
    && (exists fills :: PostTrades(req, r.id, fills, b, b') && TradedQty(fills) == r.filled
                        && PricedAt(fills, r.price))
  }

  ghost predicate PricedAt(fills: seq<Fill>, price: int) {
    if fills == [] then price == 0
    else price * TradedQty(fills) <= Value(fills) < (price + 1) * TradedQty(fills)
  }

  lemma ReportIsRight(req: Request, id: string, fills: seq<Fill>, b: Book, b': Book)
    requires req.quantity > 0 && PostTrades(req, id, fills, b, b') && Inv(b)
    ensures ReportedRightly(req, PostResponse(req, Executed(id, fills, req.quantity - TradedQty(fills))),
                            b, b')
  {
    hide OnOffer, AveragePrice, Value, Inv, PricedAt;
    var r := PostResponse(req, Executed(id, fills, req.quantity - TradedQty(fills)));
    var theirs := if req.side == Buy then b.asks else b.bids;
    FloorPriced(id, theirs, fills, b, if req.side == Buy then Sell else Buy);
    OfferNonNegative(req, b);
    assert PostTrades(req, r.id, fills, b, b') && PricedAt(fills, r.price);
  }

  lemma FloorPriced(id: string, ms: seq<Resting>, fills: seq<Fill>, b: Book, s: Side)
    requires Inv(b) && ms == OnSide(b, s) && FillsName(id, ms, fills)
    ensures PricedAt(fills, AveragePrice(fills))
  {
    hide Inv;
    MakersPositive(b, s);
    var hi := Highest(ms);
    forall f | f in fills ensures f.quantity > 0 && 0 <= f.price <= hi {
      var m :| m in ms && m.order.id == f.makerId && m.order.price == f.price
               && 0 < f.quantity <= m.order.quantity;
    }
    if fills != [] {
      AverageIsFloor(fills, hi);
    }
  }

  lemma OfferNonNegative(req: Request, b: Book)
    requires Inv(b)
    ensures OnOffer(req.kind, req.side, req.price, "", if req.side == Buy then b.asks else b.bids) >= 0
  {
    hide OnOffer, Inv;
    var o := OrderOf(req, "");
    var ms := OnSide(b, Opposite(req.side));
    InvSorted(b);
    EligibleIsOnOffer(o, ms);
    EligibleQtyNonNegative(o, ms);
  }

  class Exchange {
    var books: map<string, OrderBook>
    var index: map<string, Tracker>
    var counter: nat
    ghost var steps: seq<Step>       // the run of the step system so far
    ghost var repr: set<object>

    constructor ()
      ensures Valid() && steps == [] && fresh(repr)
    {
      books, index, counter := map[], map[], 0;
      steps, repr := [], {};
    }

    /** No two books share an object. */
    ghost predicate Separate()
      reads this`books, this`repr, repr
    {
      && this !in repr
      && (forall sym :: sym in books ==> Owned(books[sym], repr))
      && (forall s1, s2 :: s1 in books && s2 in books && s1 != s2 ==>
            books[s1].Footprint() !! books[s2].Footprint())
    }

    /** What the fields hold, the books as values. */
    ghost predicate Shows(bs: map<string, Book>, ix: map<string, Tracker>, n: nat)
      requires Separate()
      reads this`books, this`index, this`counter, this`repr, repr
    {
      && books.Keys == bs.Keys && index == ix && counter == n
      && (forall sym :: sym in books ==> books[sym].View() == bs[sym])
    }

    ghost predicate Valid()
      reads this, repr
    {
      Separate() && Shows(Reach(steps).books, Reach(steps).index, Reach(steps).counter)
    }

    ghost function Handlers(): seq<Handler>
      reads this`steps
    {
      Reach(steps).handlers
    }

    /** The books as values. */
    ghost function Books(): map<string, Book>
      reads this`steps
    {
      Reach(steps).books
    }

    ghost predicate At(h: nat, g: Handler)
      reads this`steps
    {
      h < |Handlers()| && Handlers()[h] == g
    }

    // ---- Calls into one book ----

    method AddIn(symbol: string, o: Order) returns (r: AddResult)
      requires Separate() && symbol in books
      modifies `repr, repr
      ensures Separate() && fresh(repr - old(repr)) && old(repr) <= repr
      ensures unchanged(`books) && unchanged(`index) && unchanged(`counter) && unchanged(`steps)
      ensures r == AddVerdict(old(books[symbol].View()), o, "")
      ensures books[symbol].View() == Add(old(books[symbol].View()), o, "")
      ensures forall sym :: sym in books && sym != symbol ==>
                books[sym].View() == old(books[sym].View())
    {
      hide Add, AddVerdict, Shows, OrderBooks.Flat, OrderBooks.OrderBook.WellFormed,
           OrderBooks.OrderBook.Valid, OrderBooks.OrderBook.View,
           OrderBooks.Parts, OrderBooks.OrderBook.Footprint;
      var b := books[symbol];
      assert Owned(b, repr);
      label before:
      r := b.AddOrder(o, "");
      forall sym | sym in books && sym != symbol
        ensures Owned(books[sym], repr) && books[sym].View() == old(books[sym].View())
        ensures books[sym].Footprint() == old(books[sym].Footprint())
      {
        Stays@before(books[sym]);
      }
      Covers(b);
      Enlarge(symbol);
    }

    /** The objects of one book, new ones included, are the exchange's. */
    ghost method Enlarge(symbol: string)
      requires symbol in books && this !in repr && this !in books[symbol].Footprint()
      requires forall sym :: sym in books && sym != symbol ==> Owned(books[sym], repr)
      requires Owned(books[symbol], repr + books[symbol].Footprint())
      requires forall s1, s2 :: s1 in books && s2 in books && s1 != s2 ==>
                 books[s1].Footprint() !! books[s2].Footprint()
      modifies `repr
      ensures Separate() && repr == old(repr) + old(books[symbol].Footprint())
      ensures forall sym :: sym in books ==> books[sym].View() == old(books[sym].View())
    {
      hide OrderBooks.OrderBook.Valid, OrderBooks.OrderBook.View,
           OrderBooks.Parts, OrderBooks.OrderBook.Footprint;
      repr := repr + books[symbol].Footprint();
    }

    method CancelIn(symbol: string, id: string) returns (found: bool)
      requires Separate() && symbol in books
      modifies repr
      ensures Separate() && books == old(books) && unchanged(this)
      ensures found <==> Known(old(books[symbol].View()), id)
      ensures books[symbol].View() == Cancel(old(books[symbol].View()), id)
      ensures forall sym :: sym in books && sym != symbol ==>
                books[sym].View() == old(books[sym].View())
    {
      hide Cancel, Known, OrderBooks.OrderBook.Valid, OrderBooks.OrderBook.View,
           OrderBooks.Parts, OrderBooks.OrderBook.Footprint;
      var b := books[symbol];
      assert Owned(b, repr);
      label before:
      found := b.CancelOrder(id);
      forall sym | sym in books && sym != symbol
        ensures Owned(books[sym], repr) && books[sym].View() == old(books[sym].View())
        ensures books[sym].Footprint() == old(books[sym].Footprint())
      {
        Stays@before(books[sym]);
      }
      Covers(b);
    }

    method Adopt(symbol: string, b: OrderBook)
      requires Separate() && symbol !in books && b.Valid() && this !in b.Footprint()
      requires repr !! b.Footprint()
      requires forall l :: l in b.bids || l in b.asks ==> l in b.Footprint()
      requires b in b.Footprint()
      modifies `books, `repr
      ensures Separate() && repr == old(repr) + b.Footprint()
      ensures books == old(books)[symbol := b] && b.View() == old(b.View())
      ensures forall sym :: sym in old(books) ==> books[sym].View() == old(books[sym].View())
    {
      hide OrderBooks.OrderBook.Valid, OrderBooks.OrderBook.View,
           OrderBooks.Parts, OrderBooks.OrderBook.Footprint;
      label before:
      ghost var all := books[symbol := b];
      forall sym | sym in books ensures Owned(books[sym], repr) {
      }
      books := books[symbol := b];
      repr := repr + b.Footprint();
      forall sym | sym in all
        ensures Owned(all[sym], repr) && all[sym].View() == old(all[sym].View())
        ensures all[sym].Footprint() == old(all[sym].Footprint())
      {
        Stays@before(all[sym]);
      }
    }

    method GetOrCreateBook(symbol: string)
      requires Separate()
      modifies `books, `repr
      ensures Separate() && fresh(repr - old(repr)) && old(repr) <= repr
      ensures books.Keys == old(books.Keys) + {symbol}
      ensures forall sym :: sym in old(books) ==>
                books[sym] == old(books[sym]) && books[sym].View() == old(books[sym].View())
      ensures symbol !in old(books) ==> books[symbol].View() == EMPTY
    {
      hide OrderBooks.OrderBook.Valid, OrderBooks.OrderBook.View,
           OrderBooks.Parts, OrderBooks.OrderBook.Footprint, Owned;
      if symbol !in books {
        var b := new OrderBooks.OrderBook(symbol);
        Covers(b);
        Adopt(symbol, b);
      }
    }

    method BookFor(symbol: string, ghost s: State)
      requires Separate() && Shows(s.books, s.index, s.counter)
      modifies `books, `repr
      ensures Separate() && Shows(WithBook(s, symbol).books, s.index, s.counter)
      ensures fresh(repr - old(repr)) && old(repr) <= repr
    {
      hide OrderBooks.OrderBook.View, Owned, Separate;
      GetOrCreateBook(symbol);
    }

    method AddFor(symbol: string, o: Order, ghost s: State) returns (r: AddResult)
      requires Separate() && Shows(s.books, s.index, s.counter) && symbol in s.books
      modifies `repr, repr
      ensures Separate() && fresh(repr - old(repr)) && old(repr) <= repr
      ensures unchanged(`steps)
      ensures r == AddVerdict(s.books[symbol], o, "")
      ensures Shows(s.books[symbol := Add(s.books[symbol], o, "")], s.index, s.counter)
    {
      hide OrderBooks.OrderBook.View, Owned, Separate, AddVerdict, Add;
      r := AddIn(symbol, o);
    }

    method CancelFor(symbol: string, id: string, ghost s: State) returns (found: bool)
      requires Separate() && Shows(s.books, s.index, s.counter) && symbol in s.books
      modifies repr
      ensures Separate() && unchanged(this)
      ensures found <==> Known(s.books[symbol], id)
      ensures Shows(s.books[symbol := Cancel(s.books[symbol], id)], s.index, s.counter)
    {
      hide OrderBooks.OrderBook.View, Owned, Separate, Known, Cancel;
      found := CancelIn(symbol, id);
    }

    lemma IndexIs(s: State)
      requires Separate() && Shows(s.books, s.index, s.counter)
      ensures index == s.index && counter == s.counter
    {
    }

    method SetIndex(next: map<string, Tracker>, ghost s: State)
      requires Separate() && Shows(s.books, s.index, s.counter)
      modifies `index
      ensures index == next && Separate() && Shows(s.books, next, s.counter)
    {
      hide OrderBooks.OrderBook.View, Owned;
      index := next;
    }

    method Count(ghost s: State) returns (n: nat)
      requires Separate() && Shows(s.books, s.index, s.counter)
      modifies `counter
      ensures n == counter == s.counter + 1 && Separate() && Shows(s.books, s.index, counter)
    {
      hide OrderBooks.OrderBook.View, Owned;
      counter := counter + 1;
      n := counter;
    }

    // ---- Critical sections: each is one step of the step system ----

    ghost method Took(step: Step)
      requires Valid()
      modifies `steps
      ensures steps == old(steps) + [step]
      ensures Reach(steps) == Next(old(Reach(steps)), step)
      ensures var s := old(Reach(steps)); Separate() && Shows(s.books, s.index, s.counter)
    {
      hide OrderBooks.OrderBook.View, Owned, Reach;
      ReachNext(steps, step);
      steps := steps + [step];
    }

    ghost method Arrive(step: Step)
      requires Valid() && !step.Advance?
      modifies `steps
      ensures Valid() && steps == old(steps) + [step]
      ensures Handlers() == old(Handlers()) + [match step
                                               case Post(req) => Posted(req)
                                               case Delete(id) => Asked(id)
                                               case Show(symbol) => Showing(symbol)]
      ensures Books() == old(Books())
    {
      hide Reach, Separate, Shows;
      Took(step);
    }

    /** Validation, and the book of the symbol. */
    method Admit(req: Request, ghost h: nat) returns (ok: bool)
      requires Valid() && At(h, Posted(req))
      modifies `books, `repr, `steps
      ensures Valid() && fresh(repr - old(repr)) && old(repr) <= repr
      ensures steps == old(steps) + [Advance(h)]
      ensures ok <==> req.quantity > 0 && (req.kind == Market || req.price > 0)
      ensures Handlers() == old(Handlers())[h := if ok then Checked(req) else Done(BadRequest)]
      ensures Books() == if ok && req.symbol !in old(Books())
                         then old(Books())[req.symbol := EMPTY] else old(Books())
    {
      hide Reach, Separate, Shows;
      if req.quantity <= 0 || (req.kind == Limit && req.price <= 0) {
        Took(Advance(h));
        return false;
      }
      ghost var s := Reach(steps);
      Took(Advance(h));
      BookFor(req.symbol, s);
      return true;
    }

    method DrawId(req: Request, ghost h: nat) returns (id: string)
      requires Valid() && At(h, Checked(req))
      modifies `counter, `steps
      ensures Valid()
      ensures steps == old(steps) + [Advance(h)]
      ensures Handlers() == old(Handlers())[h := Numbered(req, id)] && Books() == old(Books())
    {
      hide Reach, Separate, Shows;
      ghost var s := Reach(steps);
      Took(Advance(h));
      var n := Count(s);
      id := OrderId(req.symbol, n);
    }

    /** The call of the book's `add_order`, which never refuses. */
    method BookOrder(req: Request, id: string, ghost h: nat) returns (fills: seq<Fill>)
      requires Valid() && At(h, Numbered(req, id))
      modifies `repr, `steps, repr
      ensures Valid() && fresh(repr - old(repr))
      ensures steps == old(steps) + [Advance(h)]
      ensures Handlers() == old(Handlers())[h := Updating(req, id, fills, fills)]
      ensures req.symbol in old(Books()) && req.symbol in Books()
      ensures PostTrades(req, id, fills, old(Books())[req.symbol], Books()[req.symbol])
    {
      hide Reach, Separate, Shows, AddVerdict, Add, PostTrades;
      Numbers(h, req, id);
      BookCalled(h);
      ghost var s := Reach(steps);
      Took(Advance(h));
      var r := AddFor(req.symbol, OrderOf(req, id), s);
      fills := r.fills;
    }

    lemma HasInv(symbol: string)
      requires symbol in Books()
      ensures Inv(Books()[symbol])
    {
      AlwaysOk(steps);
      BookInv(Reach(steps), symbol);
    }

    lemma BookCalled(h: nat)
      requires h < |Handlers()| && Handlers()[h].Numbered?
      ensures var s, g := Reach(steps), Handlers()[h];
              var s' := Next(s, Advance(h));
              && g.req.symbol in s.books && g.req.symbol in s'.books && h < |s'.handlers|
              && s'.handlers[h].Updating?
              && PostTrades(g.req, g.id, s'.handlers[h].fills, s.books[g.req.symbol],
                            s'.books[g.req.symbol])
    {
      hide Reach, Ok, PostTrades, Advanced;
      AlwaysOk(steps);
      BookCallTrades(Reach(steps), h);
      AdvanceIs(Reach(steps), h);
    }

    lemma Numbers(h: nat, req: Request, id: string)
      requires At(h, Numbered(req, id))
      ensures var s := Reach(steps);
              req.symbol in s.books
              && AddVerdict(s.books[req.symbol], OrderOf(req, id), "").Accepted?
    {
      AlwaysOk(steps);
      HandlerAt(Reach(steps), h);
      NeverRejected(Reach(steps), h, req, id);
    }

    /** One turn of the loop over the fills: the maker's tracker entry. */
    method ApplyFill(f: Fill, ghost h: nat)
      requires Valid() && h < |Handlers()| && Handlers()[h].Updating?
      requires Handlers()[h].todo != [] && Handlers()[h].todo[0] == f
      modifies `index, `steps
      ensures Valid()
      ensures steps == old(steps) + [Advance(h)]
      ensures var g := old(Handlers()[h]);
              Handlers() == old(Handlers())[h := g.(todo := g.todo[1..])]
      ensures Books() == old(Books())
    {
      hide Reach, Separate, Shows;
      ghost var s := Reach(steps);
      Took(Advance(h));
      ReduceTracker(f, s);
    }

    method ReduceTracker(f: Fill, ghost s: State)
      requires Separate() && Shows(s.books, s.index, s.counter)
      modifies `index
      ensures Separate() && Shows(s.books, index, s.counter)
      ensures f.makerId !in s.index ==> index == s.index
      ensures f.makerId in s.index ==>
                var t := s.index[f.makerId];
                var left := t.remaining - f.quantity;
                index == if left <= 0 then s.index - {f.makerId}
                         else s.index[f.makerId := t.(remaining := left)]
    {
      hide Separate, Shows;
      IndexIs(s);
      if f.makerId in index {
        var t := index[f.makerId];
        var left := t.remaining - f.quantity;
        if left <= 0 {
          SetIndex(index - {f.makerId}, s);
        } else {
          SetIndex(index[f.makerId := t.(remaining := left)], s);
        }
      }
    }

    method UpdateMakers(req: Request, id: string, fills: seq<Fill>, ghost h: nat)
      requires Valid() && At(h, Updating(req, id, fills, fills))
      modifies `index, `steps
      ensures Valid() && Advances(old(steps), h, steps)
      ensures Handlers() == old(Handlers())[h := Updating(req, id, fills, [])]
      ensures Books() == old(Books())
    {
      hide Reach, Separate, Shows;
      ghost var hs := Handlers();
      var i: nat := 0;
      while i < |fills|
        invariant Valid() && i <= |fills| && Advances(old(steps), h, steps)
        invariant Handlers() == hs[h := Updating(req, id, fills, fills[i..])]
        invariant Books() == old(Books())
      {
        ApplyFill(fills[i], h);
        i := i + 1;
      }
      assert fills[i..] == [];
    }

    method Track(req: Request, id: string, leaves: int, ghost h: nat)
      requires Valid() && h < |Handlers()| && Handlers()[h].Updating?
      requires var g := Handlers()[h];
               g.req == req && g.id == id && g.todo == [] && leaves == Leaves(req, g.fills)
      modifies `index, `steps
      ensures Valid()
      ensures steps == old(steps) + [Advance(h)]
      ensures Handlers() ==
              old(Handlers())[h := Done(Executed(id, old(Handlers()[h].fills), leaves))]
      ensures Books() == old(Books())
    {
      hide Reach, Separate, Shows;
      ghost var s := Reach(steps);
      Took(Advance(h));
      IndexIs(s);
      if req.kind == Limit && leaves > 0 {
        var t := Tracker(req.clientId, req.side, req.symbol, req.quantity, leaves);
        SetIndex(index[id := t], s);
      }
    }

    /** The lookup of a DELETE: the entry is copied. */
    method Lookup(id: string, ghost h: nat) returns (found: bool, seen: Tracker)
      requires Valid() && At(h, Asked(id))
      modifies `steps
      ensures Valid()
      ensures steps == old(steps) + [Advance(h)]
      ensures (found <==> id in index) && Books() == old(Books())
      ensures found ==> seen == index[id]
      ensures Handlers() ==
              old(Handlers())[h := if found then Found(id, seen) else Done(NotTracked(id))]
    {
      hide Reach, OrderBooks.OrderBook.View, Owned;
      found := id in index;
      seen := if found then index[id] else Tracker("", Buy, "", 0, 0);
      Took(Advance(h));
    }

    method CancelBook(id: string, seen: Tracker, ghost h: nat) returns (cancelled: bool)
      requires Valid() && At(h, Found(id, seen))
      modifies `books, `repr, `steps, repr
      ensures Valid() && fresh(repr - old(repr))
      ensures steps == old(steps) + [Advance(h)]
      ensures Handlers() ==
              old(Handlers())[h := if cancelled then Erasing(id, seen) else Done(NotCancelled(id))]
      ensures cancelled <==> seen.symbol in old(Books()) && Taken(old(Books())[seen.symbol], id)
    {
      hide Reach, Separate, Shows, Known, Cancel, Taken;
      ghost var s := Reach(steps);
      ghost var s1 := WithBook(s, seen.symbol);
      Took(Advance(h));
      BookFor(seen.symbol, s);
      cancelled := CancelFor(seen.symbol, id, s1);
      KnownIsTaken(s1.books[seen.symbol], id);
      NothingTaken(id);
      if !cancelled {
        CancelUnknown(s1.books[seen.symbol], id);
        assert s1.books[seen.symbol := s1.books[seen.symbol]] == s1.books;
      }
    }

    method EraseTracker(id: string, seen: Tracker, ghost h: nat)
      requires Valid() && At(h, Erasing(id, seen))
      modifies `index, `steps
      ensures Valid()
      ensures steps == old(steps) + [Advance(h)]
      ensures Handlers() ==
              old(Handlers())[h := Done(CancelReport(id, seen.orig - seen.remaining))]
    {
      hide Reach, Separate, Shows;
      ghost var s := Reach(steps);
      Took(Advance(h));
      IndexIs(s);
      SetIndex(index - {id}, s);
    }

    /** A snapshot request first makes sure of the book of its symbol ... */
    method ShowBook(symbol: string, ghost h: nat)
      requires Valid() && At(h, Showing(symbol))
      modifies `books, `repr, `steps
      ensures Valid() && fresh(repr - old(repr)) && old(repr) <= repr
      ensures steps == old(steps) + [Advance(h)]
      ensures Handlers() == old(Handlers())[h := Reading(symbol)]
    {
      hide Reach, Separate, Shows;
      ghost var s := Reach(steps);
      Took(Advance(h));
      BookFor(symbol, s);
    }

    /** ... and then reads it under the book's own lock. */
    method ReadBook(symbol: string, ghost h: nat)
      returns (bids: seq<PriceLevel>, asks: seq<PriceLevel>)
      requires Valid() && At(h, Reading(symbol))
      modifies `steps
      ensures Valid()
      ensures steps == old(steps) + [Advance(h)]
      ensures symbol in Reach(steps).books
      ensures var b := Reach(steps).books[symbol];
              && Handlers() == old(Handlers())[h := Done(Snapshot(symbol, b))]
              && bids == Depth(b.bids) && asks == Depth(b.asks)
    {
      hide Reach, Separate, Shows;
      ghost var s := Reach(steps);
      ReadingHasBook(h, symbol);
      Took(Advance(h));
      bids, asks := DepthFor(symbol, s);
    }

    lemma ReadingHasBook(h: nat, symbol: string)
      requires At(h, Reading(symbol))
      ensures symbol in Reach(steps).books
    {
      AlwaysOk(steps);
      HandlerAt(Reach(steps), h);
    }

    method DepthFor(symbol: string, ghost s: State)
      returns (bids: seq<PriceLevel>, asks: seq<PriceLevel>)
      requires Separate() && Shows(s.books, s.index, s.counter) && symbol in s.books
      ensures bids == Depth(s.books[symbol].bids) && asks == Depth(s.books[symbol].asks)
    {
      hide OrderBooks.OrderBook.Valid, OrderBooks.OrderBook.Footprint, Depth;
      var b := books[symbol];
      assert Owned(b, repr);
      bids, asks := b.GetSnapshot();
    }

    // ---- Whole requests, one after another ----

    /** A POST served without interruption: a run of the step system in which one handler
        arrives and advances until it is done. */
    method PostOrder(req: Request) returns (response: Response)
      requires Valid()
      modifies this, repr
      ensures Valid() && fresh(repr - old(repr))
      ensures Advances(old(steps) + [Post(req)], |old(Handlers())|, steps)
      ensures exists reply :: Handlers() == old(Handlers()) + [Done(reply)]
                              && Answers(Submit(req), reply, response)
      ensures if req.quantity > 0 && (req.kind == Market || req.price > 0)
              then response.Report? else response == Refused
      ensures response.Report? ==>
                var before := if req.symbol in old(Books()) then old(Books())[req.symbol] else EMPTY;
                && req.symbol in Books()
                && ReportedRightly(req, response, before, Books()[req.symbol])
    {
      hide Reach, Valid, Handlers, Books, ReportedRightly;
      ghost var h := |Handlers()|;
      ghost var hs := Handlers();
      Arrive(Post(req));
      var ok := Admit(req, h);
      if !ok {
        assert Handlers() == hs + [Done(BadRequest)];
        return Refused;
      }
      ghost var id, fills;
      response, id, fills := Execute(req, h);
      assert Handlers() == hs + [Done(Executed(id, fills, req.quantity - TradedQty(fills)))];
    }

    /** The rest of a POST that passed validation. */
    method Execute(req: Request, ghost h: nat)
      returns (response: Response, ghost id: string, ghost fills: seq<Fill>)
      requires Valid() && At(h, Checked(req)) && req.quantity > 0 && req.symbol in Books()
      modifies this, repr
      ensures Valid() && fresh(repr - old(repr)) && Advances(old(steps), h, steps)
      ensures var reply := Executed(id, fills, req.quantity - TradedQty(fills));
              Handlers() == old(Handlers())[h := Done(reply)] && response == PostResponse(req, reply)
      ensures req.symbol in Books()
      ensures ReportedRightly(req, response, old(Books())[req.symbol], Books()[req.symbol])
    {
      hide Reach, Valid, Handlers, Books, PostTrades, ReportedRightly, PostResponse;
      ghost var before := Books()[req.symbol];
      HasInv(req.symbol);
      var orderId := DrawId(req, h);
      var made := BookOrder(req, orderId, h);
      ReportIsRight(req, orderId, made, before, Books()[req.symbol]);
      response := Conclude(req, orderId, made, h);
      id, fills := orderId, made;
    }

    /** What a POST does after its book call. */
    method Conclude(req: Request, id: string, fills: seq<Fill>, ghost h: nat)
      returns (response: Response)
      requires Valid() && At(h, Updating(req, id, fills, fills))
      modifies `index, `steps
      ensures Valid() && Advances(old(steps), h, steps) && Books() == old(Books())
      ensures var reply := Executed(id, fills, req.quantity - TradedQty(fills));
              Handlers() == old(Handlers())[h := Done(reply)] && response == PostResponse(req, reply)
    {
      hide Reach, Valid, Handlers, Books;
      var filled, value, price := Totals(fills);
      var leaves := req.quantity - filled;
      UpdateMakers(req, id, fills, h);
      Track(req, id, leaves, h);
      var status := StatusOf(req.kind, req.quantity, filled);
      return Report(id, req.clientId, req.symbol, req.side, status, filled, price, leaves);
    }

    method DeleteOrder(id: string) returns (response: Response)
      requires Valid()
      modifies this, repr
      ensures Valid() && fresh(repr - old(repr))
      ensures Advances(old(steps) + [Delete(id)], |old(Handlers())|, steps)
      ensures exists reply :: Handlers() == old(Handlers()) + [Done(reply)]
                              && Answers(Withdraw(id), reply, response)
      ensures if id in old(index) && old(index)[id].symbol in old(Books())
                 && Taken(old(Books())[old(index)[id].symbol], id)
              then var t := old(index)[id];
                   response == CancelledReport(id, t.clientId, t.symbol, t.side, t.orig - t.remaining)
              else response == NotFound(id)
    {
      hide Reach, Valid, Handlers, Books, Taken;
      ghost var h := |Handlers()|;
      ghost var hs := Handlers();
      Arrive(Delete(id));
      var found, seen := Lookup(id, h);
      if !found {
        assert Handlers() == hs + [Done(NotTracked(id))];
        return NotFound(id);
      }
      var cancelled := CancelBook(id, seen, h);
      if !cancelled {
        assert Handlers() == hs + [Done(NotCancelled(id))];
        return NotFound(id);
      }
      EraseTracker(id, seen, h);
      assert Handlers() == hs + [Done(CancelReport(id, seen.orig - seen.remaining))];
      return CancelledReport(id, seen.clientId, seen.symbol, seen.side, seen.orig - seen.remaining);
    }

    method GetDepth(symbol: string) returns (response: Response)
      requires Valid()
      modifies this, repr
      ensures Valid() && fresh(repr - old(repr))
      ensures Advances(old(steps) + [Show(symbol)], |old(Handlers())|, steps)
      ensures symbol in Reach(steps).books
      ensures var b := Reach(steps).books[symbol];
              && Handlers() == old(Handlers()) + [Done(Snapshot(symbol, b))]
              && response == DepthReport(Depth(b.bids), Depth(b.asks))
    {
      hide Reach, Separate, Shows, Depth;
      ghost var h := |Handlers()|;
      ghost var hs := Handlers();
      Arrive(Show(symbol));
      ShowBook(symbol, h);
      var bids, asks := ReadBook(symbol, h);
      assert Handlers() == hs + [Done(Snapshot(symbol, Reach(steps).books[symbol]))];
      return DepthReport(bids, asks);
    }

    method Handle(call: Call) returns (response: Response)
      requires Valid()
      modifies this, repr
      ensures Valid() && fresh(repr - old(repr))
      ensures Advances(old(steps) + [ArrivalOf(call)], |old(Handlers())|, steps)
      ensures exists reply :: Handlers() == old(Handlers()) + [Done(reply)]
                              && Answers(call, reply, response)
      ensures response.CancelledReport? ==>
                var id := response.id;
                && id in old(index) && response.clientId == old(index)[id].clientId
                && response.symbol == old(index)[id].symbol && response.side == old(index)[id].side
    {
      hide Reach, Separate, Shows, Depth;
      match call {
        case Submit(req) => response := PostOrder(req);
        case Withdraw(id) => response := DeleteOrder(id);
        case Look(symbol) =>
          ghost var hs := Handlers();
          response := GetDepth(symbol);
          assert Handlers() == hs + [Done(Snapshot(symbol, Reach(steps).books[symbol]))];
      }
    }
  }

  /** A request added after everything before it is done. */
  lemma SerialExtends(before: seq<Step>, arrival: Step, h: nat, after: seq<Step>)
    requires Serial(before) && AllDone(Reach(before)) && Advances(before + [arrival], h, after)
    ensures Serial(after)
  {
    hide AllDone, Reach;
    forall k | 0 <= k < |after| && !after[k].Advance? ensures AllDone(Reach(after[..k])) {
      assert (before + [arrival])[k] == after[k];
      if k < |before| {
        assert after[..k] == before[..k];
        assert !before[k].Advance?;
      } else {
        assert after[..k] == before;
      }
    }
  }

  /** In every interleaving: what a POST reports as its price honours its limit, and the value
      summed up on the way never exceeds quantity times the highest opposite price at the call. */
  lemma ReportedPriceSound(steps: seq<Step>, h: nat)
    requires h < |Reach(steps).handlers| && Reach(steps).handlers[h].Numbered?
    ensures var s := Reach(steps);
            var req := s.handlers[h].req;
            var u := Next(s, Advance(h)).handlers[h];
            && u.Updating? && req.symbol in s.books
            && (req.kind == Limit && u.fills != [] ==>
                  if req.side == Buy then 0 < AveragePrice(u.fills) <= req.price
                  else AveragePrice(u.fills) >= req.price)
            && (forall k :: 0 <= k <= |u.fills| ==>
                  0 <= Value(u.fills[..k])
                    <= req.quantity * Highest(OnSide(s.books[req.symbol], Opposite(req.side))))
  {
    hide Reach, Inv, AveragePrice, Value, Match;
    var s := Reach(steps);
    AlwaysOk(steps);
    HandlerAt(s, h);
    var g := s.handlers[h];
    NeverRejected(s, h, g.req, g.id);
    var b := s.books[g.req.symbol];
    var o := OrderOf(g.req, g.id);
    assert BookOk(s, g.req.symbol);
    assert WithId(o, "") == o;
    var fills := Matched(b, o).fills;
    assert Next(s, Advance(h)).handlers[h] == Updating(g.req, g.id, fills, fills);
    forall k | 0 <= k <= |fills|
      ensures 0 <= Value(fills[..k]) <= g.req.quantity * Highest(OnSide(b, Opposite(g.req.side)))
    {
      RunningValueBounded(b, o, k);
    }
    if g.req.kind == Limit && fills != [] {
      AverageHonoursLimit(b, o);
    }
  }

  lemma {:induction false} ArrivalsExtend(before: seq<Step>, arrival: Step, h: nat, after: seq<Step>)
    requires Advances(before + [arrival], h, after) && !arrival.Advance?
    ensures Arrivals(after) == Arrivals(before) + [arrival]
    decreases |after|
  {
    if |after| == |before| + 1 {
      assert after == before + [arrival] && after[..|after| - 1] == before;
    } else {
      var most := after[..|after| - 1];
      assert Advances(before + [arrival], h, most) by {
        assert forall k :: |before| + 1 <= k < |most| ==> most[k] == after[k];
      }
      ArrivalsExtend(before, arrival, h, most);
      assert after[|after| - 1] == Advance(h);
    }
  }

  /** The arrivals of a run are those of `calls`, in their order. */
  ghost predicate ArrivedAs(steps: seq<Step>, calls: seq<Call>) {
    && |Arrivals(steps)| == |calls|
    && forall k :: 0 <= k < |calls| ==> Arrivals(steps)[k] == ArrivalOf(calls[k])
  }

  /** Handler by handler, the responses are what the calls were answered. */
  ghost predicate AllAnswered(handlers: seq<Handler>, calls: seq<Call>, responses: seq<Response>) {
    && |handlers| == |calls| == |responses|
    && forall k :: 0 <= k < |calls| ==>
         handlers[k].Done? && Answers(calls[k], handlers[k].reply, responses[k])
  }

  lemma ArrivedNext(before: seq<Step>, call: Call, h: nat, after: seq<Step>, calls: seq<Call>)
    requires ArrivedAs(before, calls) && Advances(before + [ArrivalOf(call)], h, after)
    ensures ArrivedAs(after, calls + [call])
  {
    hide Arrivals;
    ArrivalsExtend(before, ArrivalOf(call), h, after);
  }

  /** A cancel report names the client, symbol and side of an earlier order that was reported
      under its id. */
  ghost predicate NamesOrder(calls: seq<Call>, responses: seq<Response>, c: Response) {
    exists k :: 0 <= k < |calls| && k < |responses| && NamedBy(calls[k], responses[k], c)
  }

  predicate NamedBy(call: Call, report: Response, c: Response) {
    && call.Submit? && report.Report? && c.CancelledReport? && c.id == report.id
    && c.clientId == call.req.clientId && c.symbol == call.req.symbol && c.side == call.req.side
  }

  ghost predicate CancelsNamed(calls: seq<Call>, responses: seq<Response>) {
    forall i :: 0 <= i < |responses| && responses[i].CancelledReport? ==>
      NamesOrder(calls, responses, responses[i])
  }

  lemma NamedNext(calls: seq<Call>, responses: seq<Response>, call: Call, response: Response)
    requires |calls| == |responses| && CancelsNamed(calls, responses)
    requires response.CancelledReport? ==> NamesOrder(calls, responses, response)
    ensures CancelsNamed(calls + [call], responses + [response])
  {
    var calls', responses' := calls + [call], responses + [response];
    forall i | 0 <= i < |responses'| && responses'[i].CancelledReport?
      ensures NamesOrder(calls', responses', responses'[i])
    {
      assert NamesOrder(calls, responses, responses'[i]);
      var k :| 0 <= k < |calls| && k < |responses| && NamedBy(calls[k], responses[k], responses'[i]);
      assert NamedBy(calls'[k], responses'[k], responses'[i]);
    }
  }

  /** What the tracker says of an id is what the client was told of its order. */
  lemma TrackedIsReported(steps: seq<Step>, calls: seq<Call>, responses: seq<Response>, c: Response)
    requires ArrivedAs(steps, calls) && AllAnswered(Reach(steps).handlers, calls, responses)
    requires c.CancelledReport? && c.id in Reach(steps).index
    requires var t := Reach(steps).index[c.id];
             c.clientId == t.clientId && c.symbol == t.symbol && c.side == t.side
    ensures NamesOrder(calls, responses, c)
  {
    hide Reach, Arrivals;
    var h, req := TrackedIsPosted(steps, c.id);
    assert Answers(calls[h], Reach(steps).handlers[h].reply, responses[h]);
    assert NamedBy(calls[h], responses[h], c);
  }

  lemma NothingYet()
    ensures Serial([]) && Reach([]) == START && ArrivedAs([], [])
  {
  }

  lemma ServedExactly(exchange: Exchange, calls: seq<Call>, responses: seq<Response>)
    requires exchange.Valid() && Serial(exchange.steps)
    requires AllAnswered(exchange.Handlers(), calls, responses)
    ensures AllDone(Reach(exchange.steps))
    ensures Mirrors(Reach(exchange.steps).books, exchange.index)
    ensures forall i :: 0 <= i < |calls| && responses[i].CancelledReport? ==>
              var ledger := Reach(exchange.steps).ledger;
              responses[i].id in ledger && responses[i].cum == ledger[responses[i].id].executed
  {
    hide Exchange.Separate, Reach, Serial, Mirrors;
    SerialIndexMirrors(exchange.steps);
    forall i | 0 <= i < |calls| && responses[i].CancelledReport?
      ensures responses[i].id in Reach(exchange.steps).ledger
      ensures responses[i].cum == Reach(exchange.steps).ledger[responses[i].id].executed
    {
      SerialCancelExact(exchange.steps, i);
    }
  }

  /** Any sequence of requests, one after another, on a new exchange: the tracker ends as an
      exact image of the books, and every cancel reported exactly what was executed. */
  method Serve(calls: seq<Call>) returns (exchange: Exchange, responses: seq<Response>)
    ensures exchange.Valid() && fresh(exchange)
    ensures Serial(exchange.steps) && AllDone(Reach(exchange.steps))
    ensures Mirrors(Reach(exchange.steps).books, exchange.index)
    ensures ArrivedAs(exchange.steps, calls) && CancelsNamed(calls, responses)
    ensures AllAnswered(Reach(exchange.steps).handlers, calls, responses)
    ensures forall i :: 0 <= i < |calls| && responses[i].CancelledReport? ==>
              var ledger := Reach(exchange.steps).ledger;
              responses[i].id in ledger && responses[i].cum == ledger[responses[i].id].executed
  {
    hide Exchange.Separate, Exchange.Shows, Reach, Serial, Mirrors, ArrivedAs, Answers, NamesOrder;
    exchange := new Exchange();
    NothingYet();
    responses := [];
    var i: nat := 0;
    while i < |calls|
      invariant exchange.Valid() && fresh(exchange) && fresh(exchange.repr)
      invariant i <= |calls| && Serial(exchange.steps) && ArrivedAs(exchange.steps, calls[..i])
      invariant AllAnswered(exchange.Handlers(), calls[..i], responses)
      invariant CancelsNamed(calls[..i], responses)
    {
      ghost var before := exchange.steps;
      exchange.IndexIs(Reach(before));
      label call:
      var response := exchange.Handle(calls[i]);
      forall x | x in exchange.repr && x !in old@call(exchange.repr) ensures fresh(x) {
        assert !old@call(allocated(x));
      }
      SerialExtends(before, ArrivalOf(calls[i]), i, exchange.steps);
      ArrivedNext(before, calls[i], i, exchange.steps, calls[..i]);
      if response.CancelledReport? {
        TrackedIsReported(before, calls[..i], responses, response);
      }
      NamedNext(calls[..i], responses, calls[i], response);
      assert calls[..i + 1] == calls[..i] + [calls[i]];
      responses := responses + [response];
      i := i + 1;
    }
    assert calls[..i] == calls;
    ServedExactly(exchange, calls, responses);
  }
}
