/** The exchange as a step system: any number of POST and DELETE handlers in flight, each
    executing its critical sections one at a time, in any interleaving. */
module ExchangeProtocol {
  import opened Arithmetic
  import opened Orders
  import opened FlatMatcher
  import opened BookSpec
  import opened BookInvariant
  import opened BookRuns
  import opened OrderIds

  datatype Request = Request(symbol: string, side: Side, kind: OrderType, quantity: int,
                             price: int, clientId: string)

  datatype Tracker = Tracker(clientId: string, side: Side, symbol: string, orig: int,
                             remaining: int)

  datatype Reply =
    | BadRequest
    | Executed(id: string, fills: seq<Fill>, leaves: int)
    | NotTracked(id: string)
    | NotCancelled(id: string)
    | CancelReport(id: string, cum: int)
    | Snapshot(symbol: string, book: Book)

  /** A handler between two of its critical sections. */
  datatype Handler =
    | Posted(req: Request)
    | Checked(req: Request)                                        // validated, book exists
    | Numbered(req: Request, id: string)                           // id drawn
    | Updating(req: Request, id: string, fills: seq<Fill>, todo: seq<Fill>)  // book called
    | Showing(symbol: string)                                      // a snapshot request
    | Reading(symbol: string)                                      // its book exists
    | Asked(id: string)
    | Found(id: string, seen: Tracker)                             // tracker entry copied
    | Erasing(id: string, seen: Tracker)                           // cancelled in the book
    | Done(reply: Reply)

  /** What happened to an id so far: whether its POST is over, quantity executed (as maker or
      taker), quantity cancelled, and quantity of fills that found no tracker entry to update. */
  datatype History = History(symbol: string, settled: bool, executed: int, cancelled: int, lost: int)

  datatype State = State(
    books: map<string, Book>, index: map<string, Tracker>, counter: nat,
    handlers: seq<Handler>, ledger: map<string, History>)

  const START := State(map[], map[], 0, [], map[])

  datatype Step = Post(req: Request) | Delete(id: string) | Show(symbol: string) | Advance(h: nat)

  function OrderOf(req: Request, id: string): Order {
    Order(id, "", req.side, req.kind, req.price, req.quantity)
  }

  predicate ValidRequest(req: Request) {
    req.quantity > 0 && (req.kind == Limit ==> req.price > 0)
  }

  function Leaves(req: Request, fills: seq<Fill>): int {
    req.quantity - TradedQty(fills)
  }

  function WithBook(s: State, symbol: string): State {
    if symbol in s.books then s else s.(books := s.books[symbol := EMPTY])
  }

  function Moved(s: State, h: nat, x: Handler): State
    requires h < |s.handlers|
  {
    s.(handlers := s.handlers[h := x])
  }

  ghost function Charged(ledger: map<string, History>, id: string, fills: seq<Fill>): map<string, History> {
    map x | x in ledger ::
      ledger[x].(executed := ledger[x].executed + MadeIn(iset{x}, fills)
                             + (if x == id then TradedQty(fills) else 0))
  }

  /** The book call of a POST. */
  ghost function AfterAdd(s: State, h: nat, req: Request, id: string): State
    requires h < |s.handlers| && req.symbol in s.books
  {
    var b := s.books[req.symbol];
    var o := OrderOf(req, id);
    match AddVerdict(b, o, "")
    case Rejected(_) => Moved(s, h, Done(BadRequest))
    case Accepted(fills) =>
      Moved(s, h, Updating(req, id, fills, fills)).(
        books := s.books[req.symbol := Add(b, o, "")],
        ledger := Charged(s.ledger, id, fills))
  }

  /** One maker update of a POST. */
  function AfterUpdate(s: State, h: nat): State
    requires h < |s.handlers| && s.handlers[h].Updating? && s.handlers[h].todo != []
  {
    var u := s.handlers[h];
    var f := u.todo[0];
    var s1 := Moved(s, h, u.(todo := u.todo[1..]));
    if f.makerId in s.index then
      var t := s.index[f.makerId];
      if t.remaining - f.quantity <= 0 then s1.(index := s.index - {f.makerId})
      else s1.(index := s.index[f.makerId := t.(remaining := t.remaining - f.quantity)])
    else if f.makerId in s.ledger then
      var r := s.ledger[f.makerId];
      s1.(ledger := s.ledger[f.makerId := r.(lost := r.lost + f.quantity)])
    else s1
  }

  /** The last section of a POST: a limit order with leaves is tracked. */
  function AfterTrack(s: State, h: nat): State
    requires h < |s.handlers| && s.handlers[h].Updating?
  {
    var u := s.handlers[h];
    var leaves := Leaves(u.req, u.fills);
    var s0 := Moved(s, h, Done(Executed(u.id, u.fills, leaves)));
    var s1 := if u.id in s.ledger
              then s0.(ledger := s.ledger[u.id := s.ledger[u.id].(settled := true)]) else s0;
    if u.req.kind == Limit && leaves > 0 then
      s1.(index := s.index[u.id := Tracker(u.req.clientId, u.req.side, u.req.symbol,
                                           u.req.quantity, leaves)])
    else s1
  }

  /** The book call of a DELETE. */
  ghost function AfterCancel(s: State, h: nat): State
    requires h < |s.handlers| && s.handlers[h].Found?
  {
    var d := s.handlers[h];
    var s0 := WithBook(s, d.seen.symbol);
    var b := s0.books[d.seen.symbol];
    if Known(b, d.id) then
      var gone := BookQty(iset{d.id}, b);
      var s1 := Moved(s0, h, Erasing(d.id, d.seen)).(
                  books := s0.books[d.seen.symbol := Cancel(b, d.id)]);
      if d.id in s.ledger then
        var r := s.ledger[d.id];
        s1.(ledger := s.ledger[d.id := r.(cancelled := r.cancelled + gone)])
      else s1
    else Moved(s0, h, Done(NotCancelled(d.id)))
  }

  ghost function Advanced(s: State, h: nat): State
    requires h < |s.handlers|
  {
    match s.handlers[h]
    case Posted(req) =>
      if ValidRequest(req) then Moved(WithBook(s, req.symbol), h, Checked(req))
      else Moved(s, h, Done(BadRequest))
    case Checked(req) =>
      var id := OrderId(req.symbol, s.counter + 1);
      Moved(s, h, Numbered(req, id)).(
        counter := s.counter + 1,
        ledger := s.ledger[id := History(req.symbol, false, 0, 0, 0)])
    case Numbered(req, id) => if req.symbol in s.books then AfterAdd(s, h, req, id) else s
    case Updating(_, _, _, todo) => if todo != [] then AfterUpdate(s, h) else AfterTrack(s, h)
    case Showing(symbol) => Moved(WithBook(s, symbol), h, Reading(symbol))
    case Reading(symbol) =>
      if symbol in s.books then Moved(s, h, Done(Snapshot(symbol, s.books[symbol]))) else s
    case Asked(id) =>
      Moved(s, h, if id in s.index then Found(id, s.index[id]) else Done(NotTracked(id)))
    case Found(_, _) => AfterCancel(s, h)
    case Erasing(id, seen) =>
      Moved(s, h, Done(CancelReport(id, seen.orig - seen.remaining))).(index := s.index - {id})
    case Done(_) => s
  }

  ghost function Next(s: State, step: Step): State {
    match step
    case Post(req) => s.(handlers := s.handlers + [Posted(req)])
    case Delete(id) => s.(handlers := s.handlers + [Asked(id)])
    case Show(symbol) => s.(handlers := s.handlers + [Showing(symbol)])
    case Advance(h) => if h < |s.handlers| then Advanced(s, h) else s
  }

  ghost function Reach(steps: seq<Step>): State {
    if steps == [] then START
    else Next(Reach(steps[..|steps| - 1]), steps[|steps| - 1])
  }

  // ---- The invariant ----

  /** Quantity of `x` resting in the book of its symbol. */
  ghost function AtRest(s: State, x: string): int
    requires x in s.ledger
  {
    if s.ledger[x].symbol in s.books then BookQty(iset{x}, s.books[s.ledger[x].symbol]) else 0
  }

  ghost function TodoOf(x: string, h: Handler): int {
    if h.Updating? then MadeIn(iset{x}, h.todo) else 0
  }

  /** Fills against `x` that some handler has still to apply to the tracker. */
  ghost function Pending(x: string, hs: seq<Handler>): int {
    if hs == [] then 0 else TodoOf(x, hs[0]) + Pending(x, hs[1..])
  }

  /** What a tracker entry of `x` is to say: the rest, the fills still to be applied, and what
      was cancelled or filled without an entry being there to update. */
  ghost function Owed(s: State, x: string): int
    requires x in s.ledger
  {
    AtRest(s, x) + Pending(x, s.handlers) + s.ledger[x].lost + s.ledger[x].cancelled
  }

  ghost function Whole(s: State, x: string): int
    requires x in s.ledger
  {
    s.ledger[x].executed + AtRest(s, x) + s.ledger[x].cancelled
  }

  ghost predicate Owns(h: Handler, x: string) {
    (h.Numbered? || h.Updating?) && h.id == x
  }

  ghost predicate BookOk(s: State, symbol: string)
    requires symbol in s.books
  {
    var b := s.books[symbol];
    && Inv(b) && Uncrossed(b) && Anonymous(b)
    && (forall r :: r in b.bids || r in b.asks ==>
          r.order.id in s.ledger && s.ledger[r.order.id].symbol == symbol)
  }

  /** Some DELETE has cancelled `x` in the book and has still to erase its tracker entry. */
  ghost predicate EraseDue(hs: seq<Handler>, x: string) {
    exists i :: 0 <= i < |hs| && hs[i].Erasing? && hs[i].id == x
  }

  ghost predicate HasOwner(hs: seq<Handler>, x: string) {
    exists i :: 0 <= i < |hs| && Owns(hs[i], x)
  }

  ghost predicate IdOk(s: State, x: string)
    requires x in s.ledger
  {
    var r := s.ledger[x];
    && (r.settled || HasOwner(s.handlers, x))
    && r.executed >= 0 && r.cancelled >= 0 && r.lost >= 0 && r.symbol in s.books
    && (exists n: nat :: n <= s.counter && x == OrderId(r.symbol, n))
    && (r.cancelled > 0 ==> r.settled && AtRest(s, x) == 0)
    && (r.cancelled > 0 && x in s.index ==> EraseDue(s.handlers, x))
    && (AtRest(s, x) > 0 && r.settled ==> x in s.index)
  }

  ghost predicate SeenOk(s: State, id: string, seen: Tracker) {
    && id in s.ledger && s.ledger[id].settled && seen.symbol == s.ledger[id].symbol
    && 0 <= seen.orig - seen.remaining <= s.ledger[id].executed
  }

  ghost predicate HandlerOk(s: State, h: Handler) {
    match h
    case Posted(_) => true
    case Checked(req) => ValidRequest(req) && req.symbol in s.books
    case Numbered(req, id) =>
      && ValidRequest(req) && req.symbol in s.books
      && id in s.ledger && s.ledger[id].symbol == req.symbol && !s.ledger[id].settled
      && Owed(s, id) == 0 && Whole(s, id) == 0
    case Updating(req, id, fills, todo) =>
      && id in s.ledger && s.ledger[id].symbol == req.symbol && !s.ledger[id].settled
      && (forall f :: f in todo ==> f.quantity > 0 && f.makerId in s.ledger)
      && 0 <= Leaves(req, fills) <= req.quantity
      && (req.kind == Limit && Leaves(req, fills) > 0 ==>
            Owed(s, id) == Leaves(req, fills) && Whole(s, id) == req.quantity)
      && (req.kind == Market || Leaves(req, fills) == 0 ==> AtRest(s, id) == 0)
    case Showing(_) => true
    case Reading(symbol) => symbol in s.books
    case Asked(_) => true
    case Found(id, seen) => SeenOk(s, id, seen)
    case Erasing(id, seen) => SeenOk(s, id, seen) && AtRest(s, id) == 0
    case Done(CancelReport(id, cum)) => id in s.ledger && 0 <= cum <= s.ledger[id].executed
    case Done(_) => true
  }

  ghost predicate TrackerOk(s: State, x: string)
    requires x in s.index
  {
    && x in s.ledger && s.ledger[x].settled && s.index[x].symbol == s.ledger[x].symbol
    && 0 < s.index[x].remaining == Owed(s, x)
    && s.index[x].remaining <= s.index[x].orig == Whole(s, x)
  }

  ghost predicate OneOwner(hs: seq<Handler>) {
    forall i, j, x :: 0 <= i < j < |hs| && Owns(hs[i], x) ==> !Owns(hs[j], x)
  }

  ghost predicate BooksOk(s: State) {
    forall sym :: sym in s.books ==> BookOk(s, sym)
  }

  ghost predicate IdsOk(s: State) {
    forall x :: x in s.ledger ==> IdOk(s, x)
  }

  ghost predicate TrackersOk(s: State) {
    forall x :: x in s.index ==> TrackerOk(s, x)
  }

  ghost predicate HandlersOk(s: State) {
    forall i :: 0 <= i < |s.handlers| ==> HandlerOk(s, s.handlers[i])
  }

  ghost predicate Ok(s: State) {
    BooksOk(s) && IdsOk(s) && TrackersOk(s) && HandlersOk(s) && OneOwner(s.handlers)
  }

  // ---- Sums over handlers ----

  lemma {:induction false} PendingAppend(x: string, hs: seq<Handler>, h: Handler)
    ensures Pending(x, hs + [h]) == Pending(x, hs) + TodoOf(x, h)
  {
    if hs == [] {
      assert [] + [h] == [h];
    } else {
      assert (hs + [h])[1..] == hs[1..] + [h];
      PendingAppend(x, hs[1..], h);
    }
  }

  lemma {:induction false} PendingSwap(x: string, hs: seq<Handler>, i: nat, h: Handler)
    requires i < |hs|
    ensures Pending(x, hs[i := h]) == Pending(x, hs) - TodoOf(x, hs[i]) + TodoOf(x, h)
  {
    if i == 0 {
      assert hs[0 := h][1..] == hs[1..];
    } else {
      assert hs[i := h][1..] == hs[1..][i - 1 := h];
      PendingSwap(x, hs[1..], i - 1, h);
    }
  }

  ghost predicate TodosPositive(hs: seq<Handler>) {
    forall i, f :: 0 <= i < |hs| && hs[i].Updating? && f in hs[i].todo ==> f.quantity > 0
  }

  lemma {:induction false} PendingNonNegative(x: string, hs: seq<Handler>)
    requires TodosPositive(hs)
    ensures Pending(x, hs) >= 0
    ensures forall i :: 0 <= i < |hs| ==> TodoOf(x, hs[i]) <= Pending(x, hs)
  {
    if hs != [] {
      assert TodosPositive(hs[1..]) by {
        forall i, f | 0 <= i < |hs[1..]| && hs[1..][i].Updating? && f in hs[1..][i].todo
          ensures f.quantity > 0
        {
          assert hs[1..][i] == hs[i + 1];
        }
      }
      PendingNonNegative(x, hs[1..]);
      if hs[0].Updating? {
        FillsNonNegative(iset{x}, hs[0].todo);
      }
      forall i | 0 <= i < |hs| ensures TodoOf(x, hs[i]) <= Pending(x, hs) {
        if i > 0 {
          assert hs[i] == hs[1..][i - 1];
        }
      }
    }
  }

  lemma OkTodos(s: State)
    requires Ok(s)
    ensures TodosPositive(s.handlers)
  {
    forall i, f | 0 <= i < |s.handlers| && s.handlers[i].Updating? && f in s.handlers[i].todo
      ensures f.quantity > 0
    {
      assert HandlerOk(s, s.handlers[i]);
    }
  }

  lemma AtRestNonNegative(s: State, x: string)
    requires Ok(s) && x in s.ledger
    ensures AtRest(s, x) >= 0 && Pending(x, s.handlers) >= 0
  {
    assert IdOk(s, x);
    var sym := s.ledger[x].symbol;
    assert BookOk(s, sym);
    QtyInNonNegative(iset{x}, s.books[sym].bids);
    QtyInNonNegative(iset{x}, s.books[sym].asks);
    OkTodos(s);
    PendingNonNegative(x, s.handlers);
  }

  // ---- How a step may change the numbers of an id ----

  /** Execution only grows, and a settled order only loses rest. */
  ghost predicate Mono(s: State, s': State, x: string)
    requires x in s.ledger
  {
    && x in s'.ledger && s'.ledger[x].symbol == s.ledger[x].symbol
    && (s.ledger[x].settled ==> s'.ledger[x].settled && AtRest(s', x) <= AtRest(s, x))
    && s.ledger[x].executed <= s'.ledger[x].executed
    && 0 <= AtRest(s', x)
  }

  /** Quantity moves between resting, pending, lost, cancelled and executed; nothing else. */
  ghost predicate Flow(s: State, s': State, x: string)
    requires x in s.ledger
  {
    && Mono(s, s', x) && s'.ledger[x].settled == s.ledger[x].settled
    && AtRest(s', x) <= AtRest(s, x)
    && Owed(s', x) == Owed(s, x) && Whole(s', x) == Whole(s, x)
  }

  ghost predicate OnlyHandler(s: State, s': State, h: nat) {
    h < |s.handlers| == |s'.handlers| && s'.handlers == s.handlers[h := s'.handlers[h]]
  }

  lemma HandlerKept(s: State, s': State, h: Handler)
    requires HandlerOk(s, h)
    requires forall x :: x in s.ledger ==> Mono(s, s', x)
    requires forall x :: x in s.ledger && Owns(h, x) ==> Flow(s, s', x)
    requires forall sym :: sym in s.books ==> sym in s'.books
    ensures HandlerOk(s', h)
  {
    match h
    case Numbered(_, id) => assert Owns(h, id) && Flow(s, s', id);
    case Updating(_, id, _, todo) =>
      assert Owns(h, id) && Flow(s, s', id);
      forall f | f in todo ensures f.makerId in s'.ledger {
        assert Mono(s, s', f.makerId);
      }
    case Found(id, _) => assert Mono(s, s', id);
    case Erasing(id, _) => assert Mono(s, s', id);
    case Done(CancelReport(id, _)) => assert Mono(s, s', id);
    case _ =>
  }

  /** All handlers but the one that moved are as well off as before, when every id either
      flows, or belongs to that handler, or is settled. */
  lemma OthersKept(s: State, s': State, h: nat)
    requires Ok(s) && OnlyHandler(s, s', h)
    requires forall x :: x in s.ledger ==> Mono(s, s', x)
    requires forall x :: x in s.ledger ==>
               Flow(s, s', x) || Owns(s.handlers[h], x) || s.ledger[x].settled
    requires forall sym :: sym in s.books ==> sym in s'.books
    requires HandlerOk(s', s'.handlers[h])
    ensures HandlersOk(s')
  {
    hide Mono, Flow;
    forall i | 0 <= i < |s'.handlers| ensures HandlerOk(s', s'.handlers[i]) {
      if i != h {
        var g := s.handlers[i];
        assert HandlerOk(s, g) && s'.handlers[i] == g;
        forall x | x in s.ledger && Owns(g, x) ensures Flow(s, s', x) {
          assert !Owns(s.handlers[h], x);
        }
        HandlerKept(s, s', g);
      }
    }
  }

  lemma EraseDueKept(hs: seq<Handler>, h: nat, g: Handler, x: string)
    requires h < |hs| && !(hs[h].Erasing? && hs[h].id == x)
    ensures EraseDue(hs, x) ==> EraseDue(hs[h := g], x)
    ensures g.Erasing? && g.id == x ==> EraseDue(hs[h := g], x)
  {
    if EraseDue(hs, x) {
      var i :| 0 <= i < |hs| && hs[i].Erasing? && hs[i].id == x;
      assert hs[h := g][i] == hs[i];
    }
    if g.Erasing? && g.id == x {
      assert hs[h := g][h] == g;
    }
  }

  lemma HasOwnerKept(hs: seq<Handler>, h: nat, g: Handler, x: string)
    requires h < |hs| && (Owns(hs[h], x) ==> Owns(g, x))
    ensures HasOwner(hs, x) || Owns(g, x) ==> HasOwner(hs[h := g], x)
  {
    if HasOwner(hs, x) {
      var i :| 0 <= i < |hs| && Owns(hs[i], x);
      assert hs[h := g][i] == if i == h then g else hs[i];
    }
    if Owns(g, x) {
      assert hs[h := g][h] == g;
    }
  }

  lemma OneOwnerKept(hs: seq<Handler>, h: nat, g: Handler)
    requires OneOwner(hs) && h < |hs|
    requires forall x :: Owns(g, x) ==> Owns(hs[h], x)
    ensures OneOwner(hs[h := g])
  {
  }

  // ---- Steps that move a handler and no number ----

  /** Books only appear, empty. */
  ghost predicate BooksGrow(s: State, s': State) {
    && (forall sym :: sym in s.books ==> sym in s'.books && s'.books[sym] == s.books[sym])
    && (forall sym :: sym in s'.books && sym !in s.books ==> s'.books[sym] == EMPTY)
  }

  lemma SameFlow(s: State, s': State, h: nat, x: string)
    requires Ok(s) && OnlyHandler(s, s', h) && BooksGrow(s, s')
    requires x in s.ledger && x in s'.ledger && s'.ledger[x] == s.ledger[x]
    requires TodoOf(x, s'.handlers[h]) == TodoOf(x, s.handlers[h])
    ensures Flow(s, s', x) && AtRest(s', x) == AtRest(s, x)
  {
    AtRestNonNegative(s, x);
    assert IdOk(s, x);
    PendingSwap(x, s.handlers, h, s'.handlers[h]);
  }

  lemma BooksStay(s: State, s': State)
    requires BooksOk(s) && BooksGrow(s, s')
    requires forall x :: x in s.ledger ==> x in s'.ledger && s'.ledger[x].symbol == s.ledger[x].symbol
    ensures BooksOk(s')
  {
    forall sym | sym in s'.books ensures BookOk(s', sym) {
      assert sym in s.books ==> BookOk(s, sym);
    }
  }

  /** An id whose numbers flow, whose tracker entry neither comes nor goes, and that is not
      newly cancelled. */
  lemma IdFlows(s: State, s': State, h: nat, x: string)
    requires x in s.ledger && IdOk(s, x) && OnlyHandler(s, s', h)
    requires Flow(s, s', x) && s'.ledger[x].cancelled == s.ledger[x].cancelled
    requires s.ledger[x].lost <= s'.ledger[x].lost
    requires s.counter <= s'.counter && (x in s.index <==> x in s'.index)
    requires s.ledger[x].symbol in s'.books
    requires !(s.handlers[h].Erasing? && s.handlers[h].id == x)
    requires Owns(s.handlers[h], x) ==> Owns(s'.handlers[h], x)
    ensures IdOk(s', x)
  {
    hide AtRest, Pending;
    HasOwnerKept(s.handlers, h, s'.handlers[h], x);
    EraseDueKept(s.handlers, h, s'.handlers[h], x);
    var n: nat :| n <= s.counter && x == OrderId(s.ledger[x].symbol, n);
  }

  lemma TrackerFlows(s: State, s': State, x: string)
    requires x in s.index && TrackerOk(s, x) && Flow(s, s', x)
    requires x in s'.index && s'.index[x] == s.index[x]
    ensures TrackerOk(s', x)
  {
  }

  lemma FlowIsMono(s: State, s': State, x: string)
    requires x in s.ledger && Flow(s, s', x)
    ensures Mono(s, s', x)
  {
  }

  /** Of an id that keeps its numbers and its tracker entry, all is as before. */
  lemma SameOther(s: State, s': State, h: nat, x: string)
    requires Ok(s) && OnlyHandler(s, s', h) && BooksGrow(s, s') && s.counter <= s'.counter
    requires x in s.ledger && x in s'.ledger && s'.ledger[x] == s.ledger[x]
    requires TodoOf(x, s'.handlers[h]) == TodoOf(x, s.handlers[h])
    requires x in s.index <==> x in s'.index
    requires x in s.index ==> s'.index[x] == s.index[x]
    requires !(s.handlers[h].Erasing? && s.handlers[h].id == x)
    requires Owns(s.handlers[h], x) ==> Owns(s'.handlers[h], x)
    ensures Flow(s, s', x) && Mono(s, s', x) && IdOk(s', x)
    ensures x in s'.index ==> TrackerOk(s', x)
  {
    hide AtRest, Pending, IdOk, TrackerOk, BookOk, OneOwner, HandlerOk, Flow, Mono, Owns;
    SameFlow(s, s', h, x);
    FlowIsMono(s, s', x);
    SymbolHasBook(s, x);
    IdFlows(s, s', h, x);
    if x in s'.index {
      TrackerFlows(s, s', x);
    }
  }

  /** The parts of the invariant, put together after one handler has moved. */
  lemma Assemble(s: State, s': State, h: nat)
    requires Ok(s) && OnlyHandler(s, s', h)
    requires BooksOk(s') && HandlerOk(s', s'.handlers[h]) && OneOwner(s'.handlers)
    requires forall sym :: sym in s.books ==> sym in s'.books
    requires forall x :: x in s.ledger ==> Mono(s, s', x)
    requires forall x :: x in s.ledger ==>
               Flow(s, s', x) || Owns(s.handlers[h], x) || s.ledger[x].settled
    requires forall x :: x in s'.ledger ==> IdOk(s', x)
    requires forall x :: x in s'.index ==> TrackerOk(s', x)
    ensures Ok(s')
  {
    hide Mono, Flow, HandlerOk, IdOk, TrackerOk, OneOwner, BookOk;
    OthersKept(s, s', h);
  }

  lemma TrackedIds(s: State)
    requires Ok(s)
    ensures forall x :: x in s.index ==> x in s.ledger && s.ledger[x].settled
  {
    forall x | x in s.index ensures x in s.ledger && s.ledger[x].settled {
      TrackerLedger(s, x);
    }
  }

  lemma QuietStep(s: State, s': State, h: nat)
    requires Ok(s) && OnlyHandler(s, s', h) && BooksGrow(s, s')
    requires s'.index == s.index && s'.ledger == s.ledger && s'.counter == s.counter
    requires !s.handlers[h].Numbered? && !s.handlers[h].Updating? && !s.handlers[h].Erasing?
    requires !s'.handlers[h].Updating? && !s'.handlers[h].Numbered?
    requires HandlerOk(s', s'.handlers[h])
    ensures Ok(s')
  {
    hide AtRest, Pending, IdOk, TrackerOk, BookOk, OneOwner, HandlerOk, Flow, Mono;
    forall x | x in s.ledger
      ensures Flow(s, s', x) && Mono(s, s', x) && IdOk(s', x)
      ensures x in s'.index ==> TrackerOk(s', x)
    {
      SameOther(s, s', h, x);
    }
    TrackedIds(s);
    OneOwnerKept(s.handlers, h, s'.handlers[h]);
    BooksStay(s, s');
    Assemble(s, s', h);
  }

  lemma SymbolHasBook(s: State, x: string)
    requires x in s.ledger && IdOk(s, x)
    ensures s.ledger[x].symbol in s.books
  {
  }

  lemma TrackerLedger(s: State, x: string)
    requires x in s.index && TrackerOk(s, x)
    ensures x in s.ledger && s.ledger[x].settled
  {
  }

  /** The id of a POST that is not over is not tracked. */
  lemma Untracked(s: State, h: nat)
    requires Ok(s) && h < |s.handlers| && (s.handlers[h].Numbered? || s.handlers[h].Updating?)
    ensures s.handlers[h].id !in s.index
  {
    assert HandlerOk(s, s.handlers[h]);
    forall x | x in s.index ensures x in s.ledger && s.ledger[x].settled {
      TrackerLedger(s, x);
    }
  }

  lemma HandlerAt(s: State, i: nat)
    requires Ok(s) && i < |s.handlers|
    ensures HandlerOk(s, s.handlers[i])
  {
  }

  lemma IdAt(s: State, x: string)
    requires Ok(s) && x in s.ledger
    ensures IdOk(s, x)
  {
  }

  // ---- Drawing an id ----

  lemma {:induction false} QtyInAbsent(x: string, rs: seq<Resting>)
    requires forall r :: r in rs ==> r.order.id != x
    ensures QtyIn(iset{x}, rs) == 0
  {
    if rs != [] {
      assert rs[0] in rs;
      QtyInAbsent(x, rs[1..]);
    }
  }

  lemma {:induction false} MadeInAbsent(x: string, fs: seq<Fill>)
    requires forall f :: f in fs ==> f.makerId != x
    ensures MadeIn(iset{x}, fs) == 0
  {
    if fs != [] {
      assert fs[0] in fs;
      MadeInAbsent(x, fs[1..]);
    }
  }

  lemma {:induction false} PendingAbsent(x: string, hs: seq<Handler>)
    requires forall i, f :: 0 <= i < |hs| && hs[i].Updating? && f in hs[i].todo ==> f.makerId != x
    ensures Pending(x, hs) == 0
  {
    if hs != [] {
      if hs[0].Updating? {
        MadeInAbsent(x, hs[0].todo);
      }
      forall i, f | 0 <= i < |hs[1..]| && hs[1..][i].Updating? && f in hs[1..][i].todo
        ensures f.makerId != x
      {
        assert hs[1..][i] == hs[i + 1];
      }
      PendingAbsent(x, hs[1..]);
    }
  }

  /** The next counter value makes an id nobody has seen. */
  lemma FreshId(s: State, symbol: string)
    requires Ok(s)
    ensures OrderId(symbol, s.counter + 1) !in s.ledger
  {
    var id := OrderId(symbol, s.counter + 1);
    if id in s.ledger {
      assert IdOk(s, id);
      var n: nat :| n <= s.counter && id == OrderId(s.ledger[id].symbol, n);
      OrderIdInjective(symbol, s.counter + 1, s.ledger[id].symbol, n);
    }
  }

  lemma KnownIsCharged(s: State, sym: string, id: string)
    requires Ok(s) && sym in s.books && Known(s.books[sym], id)
    ensures id in s.ledger
  {
    assert BookOk(s, sym);
  }

  /** Drawing an id: it is new to the ledger, to the tracker and to every book. */
  lemma DrawStep(s: State, h: nat)
    requires Ok(s) && h < |s.handlers| && s.handlers[h].Checked?
    ensures Ok(Advanced(s, h))
    ensures var id := OrderId(s.handlers[h].req.symbol, s.counter + 1);
            && Advanced(s, h).handlers[h] == Numbered(s.handlers[h].req, id)
            && id !in s.ledger && id !in s.index
            && (forall sym :: sym in s.books ==> !Known(s.books[sym], id))
  {
    hide AtRest, Pending, IdOk, TrackerOk, BookOk, OneOwner, HandlerOk, Flow, Mono, Ok, Known;
    var s' := Advanced(s, h);
    forall sym | sym in s.books
      ensures !Known(s.books[sym], OrderId(s.handlers[h].req.symbol, s.counter + 1))
    {
      FreshId(s, s.handlers[h].req.symbol);
      if Known(s.books[sym], OrderId(s.handlers[h].req.symbol, s.counter + 1)) {
        KnownIsCharged(s, sym, OrderId(s.handlers[h].req.symbol, s.counter + 1));
      }
    }
    FreshId(s, s.handlers[h].req.symbol);
    DrawnFresh(s, h);
    TrackedIds(s);
    forall x | x in s.ledger
      ensures Flow(s, s', x) && Mono(s, s', x) && IdOk(s', x)
      ensures x in s'.index ==> TrackerOk(s', x)
    {
      SameOther(s, s', h, x);
    }
    DrawOwner(s, h);
    OkBooks(s);
    BooksStay(s, s');
    Assemble(s, s', h);
  }

  lemma OkBooks(s: State)
    requires Ok(s)
    ensures BooksOk(s) && OneOwner(s.handlers)
  {
  }

  /** A drawn id has no history. */
  lemma DrawnFresh(s: State, h: nat)
    requires Ok(s) && h < |s.handlers| && s.handlers[h].Checked?
    ensures var s' := Advanced(s, h);
            var id := OrderId(s.handlers[h].req.symbol, s.counter + 1);
            && id in s'.ledger && IdOk(s', id) && HandlerOk(s', s'.handlers[h])
  {
    var s' := Advanced(s, h);
    var req := s.handlers[h].req;
    var id := OrderId(req.symbol, s.counter + 1);
    FreshId(s, req.symbol);
    assert HandlerOk(s, s.handlers[h]) && BookOk(s, req.symbol);
    QtyInAbsent(id, s.books[req.symbol].bids);
    QtyInAbsent(id, s.books[req.symbol].asks);
    forall i, f | 0 <= i < |s'.handlers| && s'.handlers[i].Updating? && f in s'.handlers[i].todo
      ensures f.makerId != id
    {
      assert s'.handlers[i] == s.handlers[i] && HandlerOk(s, s.handlers[i]);
    }
    PendingAbsent(id, s'.handlers);
    HasOwnerKept(s.handlers, h, s'.handlers[h], id);
    forall x | x in s.index ensures x in s.ledger {
      TrackerLedger(s, x);
    }
  }

  lemma DrawOwner(s: State, h: nat)
    requires Ok(s) && h < |s.handlers| && s.handlers[h].Checked?
    ensures OneOwner(Advanced(s, h).handlers)
  {
    var id := OrderId(s.handlers[h].req.symbol, s.counter + 1);
    FreshId(s, s.handlers[h].req.symbol);
    forall i | 0 <= i < |s.handlers| ensures !Owns(s.handlers[i], id) {
      assert HandlerOk(s, s.handlers[i]);
    }
  }

  // ---- The book call of a POST ----

  lemma {:induction false} QtyInMember(x: string, rs: seq<Resting>, r: Resting)
    requires r in rs && r.order.id == x && forall y :: y in rs ==> y.order.quantity > 0
    ensures QtyIn(iset{x}, rs) > 0
  {
    assert rs[0] in rs;
    QtyInNonNegative(iset{x}, rs[1..]);
    if rs[0] != r {
      QtyInMember(x, rs[1..], r);
    }
  }

  /** An id rests exactly when it rests with a positive quantity. */
  lemma RestIsKnown(b: Book, x: string)
    requires Inv(b)
    ensures Known(b, x) <==> BookQty(iset{x}, b) > 0
    ensures BookQty(iset{x}, b) >= 0
  {
    QtyInNonNegative(iset{x}, b.bids);
    QtyInNonNegative(iset{x}, b.asks);
    if Known(b, x) {
      var r :| (r in b.bids || r in b.asks) && r.order.id == x;
      if r in b.bids { QtyInMember(x, b.bids, r); } else { QtyInMember(x, b.asks, r); }
    } else {
      QtyInAbsent(x, b.bids);
      QtyInAbsent(x, b.asks);
    }
  }

  lemma {:induction false} MakersFrom(t: Order, ms: seq<Resting>, f: Fill)
    requires f in Match(t, ms).fills
    ensures exists m :: m in ms && m.order.id == f.makerId
    decreases |ms|
  {
    var t1 := if SelfTrade(t, ms[0].order) then t
              else t.(quantity := t.quantity - Min(t.quantity, ms[0].order.quantity));
    assert ms[0] in ms;
    if f in Match(t1, ms[1..]).fills {
      MakersFrom(t1, ms[1..], f);
      var m :| m in ms[1..] && m.order.id == f.makerId;
      assert m in ms;
    }
  }

  /** The setting of a POST that is about to call the book. */
  ghost predicate AboutToAdd(s: State, h: nat, req: Request, y: string) {
    Ok(s) && h < |s.handlers| && s.handlers[h] == Numbered(req, y)
  }

  /** The book never rejects an order of the exchange: its id is new, its numbers were checked. */
  lemma NeverRejected(s: State, h: nat, req: Request, y: string)
    requires AboutToAdd(s, h, req, y)
    ensures req.symbol in s.books && Inv(s.books[req.symbol]) && !Known(s.books[req.symbol], y)
    ensures y != "" && ValidRequest(req)
    ensures AddVerdict(s.books[req.symbol], OrderOf(req, y), "").Accepted?
  {
    assert HandlerOk(s, s.handlers[h]) && BookOk(s, req.symbol) && IdOk(s, y);
    AtRestNonNegative(s, y);
    RestIsKnown(s.books[req.symbol], y);
  }

  /** Makers rest in the book that was called, and are not the taker. */
  lemma AddMakers(s: State, h: nat, req: Request, y: string)
    requires AboutToAdd(s, h, req, y)
    ensures req.symbol in s.books
    ensures forall f :: f in Matched(s.books[req.symbol], OrderOf(req, y)).fills ==>
              && f.makerId != y && f.makerId in s.ledger
              && s.ledger[f.makerId].symbol == req.symbol
              && Known(s.books[req.symbol], f.makerId)
  {
    NeverRejected(s, h, req, y);
    var b := s.books[req.symbol];
    var t := OrderOf(req, y);
    assert BookOk(s, req.symbol);
    forall f | f in Matched(b, t).fills
      ensures f.makerId != y && f.makerId in s.ledger && s.ledger[f.makerId].symbol == req.symbol
      ensures Known(b, f.makerId)
    {
      MakersFrom(t, OnSide(b, Opposite(t.side)), f);
      var m :| m in OnSide(b, Opposite(t.side)) && m.order.id == f.makerId;
    }
  }

  lemma AddBook(s: State, h: nat, req: Request, y: string)
    requires AboutToAdd(s, h, req, y)
    ensures BooksOk(Advanced(s, h))
  {
    hide Ok, Match, Accept, Known, IdOk, HandlerOk;
    NeverRejected(s, h, req, y);
    OkBooks(s);
    var s' := Advanced(s, h);
    forall sym | sym in s'.books ensures BookOk(s', sym) {
      if sym == req.symbol {
        AddBookOf(s, h, req, y);
      } else {
        assert BookOk(s, sym);
      }
    }
  }

  lemma AddBookOf(s: State, h: nat, req: Request, y: string)
    requires AboutToAdd(s, h, req, y)
    ensures req.symbol in Advanced(s, h).books && BookOk(Advanced(s, h), req.symbol)
  {
    hide Ok, Match, Accept, Inv, Uncrossed, Anonymous, Known, HandlerOk;
    NeverRejected(s, h, req, y);
    OkBooks(s);
    AddShape(s, h, req, y);
    var b, t := s.books[req.symbol], OrderOf(req, y);
    assert BookOk(s, req.symbol);
    AddIdsOfBook(b, t);
    KnownInLedger(s, req.symbol);
    AddKeeps(b, t, "");
    AddUncrossed(b, t, "");
    AddAnonymous(b, t, "");
  }

  lemma KnownInLedger(s: State, symbol: string)
    requires symbol in s.books && BookOk(s, symbol)
    ensures forall x :: Known(s.books[symbol], x) ==> x in s.ledger && s.ledger[x].symbol == symbol
  {
  }

  /** An accepted order brings no other id than its own. */
  lemma AddIdsOfBook(b: Book, t: Order)
    requires Inv(b) && !Known(b, t.id) && t.quantity > 0 && (t.kind == Limit ==> t.price > 0)
    ensures var b' := Accept(b, t);
            forall r :: r in b'.bids || r in b'.asks ==> r.order.id == t.id || Known(b, r.order.id)
  {
    var b' := Accept(b, t);
    AcceptMembers(b, t);
    MatchedSide(b, t);
    forall r | r in b'.bids || r in b'.asks ensures r.order.id == t.id || Known(b, r.order.id) {
      if r in OnSide(b', Opposite(t.side)) {
        var m :| m in OnSide(b, Opposite(t.side)) && LeftOf(m, r);
      }
    }
  }

  /** Every other id flows: what its rest loses is executed and pending. */
  lemma AddFlows(s: State, h: nat, req: Request, y: string, x: string)
    requires AboutToAdd(s, h, req, y) && x in s.ledger && x != y
    ensures Flow(s, Advanced(s, h), x)
    ensures Advanced(s, h).ledger[x].cancelled == s.ledger[x].cancelled
    ensures Advanced(s, h).ledger[x].lost == s.ledger[x].lost
  {
    hide Match, Accept, Inv, BookOk, HandlerOk, IdOk, OneOwner, QtyIn, MadeIn, Ok;
    NeverRejected(s, h, req, y);
    AddRest(s, h, req, y, x);
    PendingSwap(x, s.handlers, h, Advanced(s, h).handlers[h]);
  }

  lemma AddRestNonNegative(s: State, h: nat, req: Request, y: string, x: string)
    requires AboutToAdd(s, h, req, y) && x in s.ledger && x in Advanced(s, h).ledger
    requires Advanced(s, h).ledger[x].symbol == s.ledger[x].symbol
    ensures AtRest(Advanced(s, h), x) >= 0
  {
    hide Match, Accept, HandlerOk, OneOwner, QtyIn, MadeIn, Ok, Inv;
    var s' := Advanced(s, h);
    var sym := s.ledger[x].symbol;
    AddBook(s, h, req, y);
    if sym in s'.books {
      assert BookOk(s', sym);
      RestIsKnown(s'.books[sym], x);
    }
  }

  lemma AddRest(s: State, h: nat, req: Request, y: string, x: string)
    requires AboutToAdd(s, h, req, y) && x in s.ledger && x != y
    ensures req.symbol in s.books
    ensures var made := MadeIn(iset{x}, Matched(s.books[req.symbol], OrderOf(req, y)).fills);
            && made >= 0
            && x in Advanced(s, h).ledger && Advanced(s, h).ledger[x].symbol == s.ledger[x].symbol
            && AtRest(Advanced(s, h), x) == AtRest(s, x) - made >= 0
  {
    hide Ok, Match, Inv, Charged;
    NeverRejected(s, h, req, y);
    var b, t := s.books[req.symbol], OrderOf(req, y);
    AddMakers(s, h, req, y);
    AcceptMoves(iset{x}, b, t);
    var fills := Matched(b, t).fills;
    FillsNonNegative(iset{x}, fills);
    if s.ledger[x].symbol != req.symbol {
      MadeInAbsent(x, fills);
    }
    AddShape(s, h, req, y);
    AddRestNonNegative(s, h, req, y, x);
  }

  /** What a new order leaves in the book under its own id. */
  lemma TakerShare(b: Book, t: Order)
    requires Inv(b) && !Known(b, t.id) && t.quantity > 0
    ensures var fills := Matched(b, t).fills;
            && BookQty(iset{t.id}, Accept(b, t)) ==
                 (if t.kind == Limit then t.quantity - TradedQty(fills) else 0)
            && 0 <= TradedQty(fills) <= t.quantity
            && (forall f :: f in fills ==> f.quantity > 0)
            && MadeIn(iset{t.id}, fills) == 0
  {
    var fills := Matched(b, t).fills;
    AcceptMoves(iset{t.id}, b, t);
    MatchConserves(t, OnSide(b, Opposite(t.side)));
    FillsNonNegative(iset{t.id}, fills);
    RestIsKnown(b, t.id);
    forall f | f in fills ensures f.makerId != t.id {
      MakersFrom(t, OnSide(b, Opposite(t.side)), f);
    }
    MadeInAbsent(t.id, fills);
  }

  lemma DrawnNumbers(s: State, h: nat, req: Request, y: string)
    requires AboutToAdd(s, h, req, y)
    ensures y in s.ledger && s.ledger[y] == History(req.symbol, false, 0, 0, 0)
    ensures AtRest(s, y) == 0 && Pending(y, s.handlers) == 0
  {
    HandlerAt(s, h);
    IdAt(s, y);
    AtRestNonNegative(s, y);
  }

  /** The taker's own numbers: it rests with its leaves, and executed the rest. */
  lemma AddTakerNumbers(s: State, h: nat, req: Request, y: string)
    requires AboutToAdd(s, h, req, y)
    ensures req.symbol in s.books && y in s.ledger && y in Advanced(s, h).ledger
    ensures var s' := Advanced(s, h);
            var fills := Matched(s.books[req.symbol], OrderOf(req, y)).fills;
            && s'.ledger[y] == History(req.symbol, false, TradedQty(fills), 0, 0)
            && AtRest(s', y) == (if req.kind == Limit then Leaves(req, fills) else 0)
            && 0 <= Leaves(req, fills) <= req.quantity
            && Pending(y, s'.handlers) == 0
            && (forall f :: f in fills ==> f.quantity > 0)
  {
    hide Match, Accept, Inv, QtyIn, MadeIn, Ok;
    NeverRejected(s, h, req, y);
    var s' := Advanced(s, h);
    var b, t := s.books[req.symbol], OrderOf(req, y);
    DrawnNumbers(s, h, req, y);
    TakerShare(b, t);
    PendingSwap(y, s.handlers, h, s'.handlers[h]);
  }

  lemma AddTaker(s: State, h: nat, req: Request, y: string)
    requires AboutToAdd(s, h, req, y)
    ensures var s' := Advanced(s, h);
            Mono(s, s', y) && IdOk(s', y) && HandlerOk(s', s'.handlers[h])
  {
    hide Match, Accept, Inv, QtyIn, MadeIn, Ok, AtRest, Pending;
    NeverRejected(s, h, req, y);
    AddMakers(s, h, req, y);
    AddTakerNumbers(s, h, req, y);
    DrawnNumbers(s, h, req, y);
    HandlerAt(s, h);
    IdAt(s, y);
    Untracked(s, h);
    HasOwnerKept(s.handlers, h, Advanced(s, h).handlers[h], y);
  }

  lemma AddOther(s: State, h: nat, req: Request, y: string, x: string)
    requires AboutToAdd(s, h, req, y) && x in s.ledger && x != y
    ensures var s' := Advanced(s, h);
            && Flow(s, s', x) && Mono(s, s', x) && IdOk(s', x)
            && (x in s'.index ==> TrackerOk(s', x))
  {
    hide AtRest, Pending, IdOk, TrackerOk, BookOk, OneOwner, HandlerOk, Flow, Mono, Match, Accept;
    var s' := Advanced(s, h);
    NeverRejected(s, h, req, y);
    AddFlows(s, h, req, y, x);
    FlowIsMono(s, s', x);
    SymbolHasBook(s, x);
    IdFlows(s, s', h, x);
    if x in s'.index {
      TrackerFlows(s, s', x);
    }
  }

  lemma AddShape(s: State, h: nat, req: Request, y: string)
    requires AboutToAdd(s, h, req, y)
    ensures var s' := Advanced(s, h);
            && OnlyHandler(s, s', h) && s'.index == s.index && s'.ledger.Keys == s.ledger.Keys
            && s'.books.Keys == s.books.Keys && y in s.ledger
            && s'.handlers[h].Updating? && s'.handlers[h].id == y
            && s.ledger[y].symbol == req.symbol
            && (forall x :: x in s.ledger ==> s'.ledger[x].symbol == s.ledger[x].symbol)
  {
    NeverRejected(s, h, req, y);
    HandlerAt(s, h);
  }

  lemma AddStep(s: State, h: nat, req: Request, y: string)
    requires AboutToAdd(s, h, req, y)
    ensures Ok(Advanced(s, h))
  {
    hide AtRest, Pending, IdOk, TrackerOk, BookOk, OneOwner, HandlerOk, Flow, Mono, Ok, Advanced;
    var s' := Advanced(s, h);
    AddShape(s, h, req, y);
    AddBook(s, h, req, y);
    AddTaker(s, h, req, y);
    Untracked(s, h);
    TrackedIds(s);
    forall x | x in s.ledger && x != y
      ensures Flow(s, s', x) && Mono(s, s', x) && IdOk(s', x)
      ensures x in s'.index ==> TrackerOk(s', x)
    {
      AddOther(s, h, req, y, x);
    }
    OkBooks(s);
    OneOwnerKept(s.handlers, h, s'.handlers[h]);
    Assemble(s, s', h);
  }

  // ---- One maker update of a POST ----

  ghost predicate AboutToUpdate(s: State, h: nat) {
    Ok(s) && h < |s.handlers| && s.handlers[h].Updating? && s.handlers[h].todo != []
  }

  /** The tracker entry of a maker covers the fill about to be applied: it never goes negative,
      and it is erased only when nothing of the order rests and no other fill is pending. */
  lemma EntryCovers(s: State, h: nat)
    requires AboutToUpdate(s, h) && s.handlers[h].todo[0].makerId in s.index
    ensures var f := s.handlers[h].todo[0];
            var s' := AfterUpdate(s, h);
            && f.makerId in s.ledger && f.makerId in s'.ledger
            && f.quantity > 0
            && s.index[f.makerId].remaining - f.quantity == Owed(s', f.makerId) >= 0
            && Pending(f.makerId, s'.handlers) == Pending(f.makerId, s.handlers) - f.quantity >= 0
            && AtRest(s', f.makerId) == AtRest(s, f.makerId) >= 0
            && (s.index[f.makerId].remaining <= f.quantity ==>
                  AtRest(s', f.makerId) == 0 && Pending(f.makerId, s'.handlers) == 0
                  && s.ledger[f.makerId].cancelled == 0)
  {
    var u := s.handlers[h];
    var f := u.todo[0];
    var m := f.makerId;
    var s' := AfterUpdate(s, h);
    assert HandlerOk(s, u) && f in u.todo && TrackerOk(s, m) && IdOk(s, m);
    AtRestNonNegative(s, m);
    PendingSwap(m, s.handlers, h, s'.handlers[h]);
    OkTodos(s);
    TodosShrink(s, h);
    PendingNonNegative(m, s'.handlers);
  }

  lemma TodosShrink(s: State, h: nat)
    requires AboutToUpdate(s, h)
    ensures TodosPositive(AfterUpdate(s, h).handlers)
  {
    hide Ok, AtRest, Pending;
    var s' := AfterUpdate(s, h);
    OkTodos(s);
    forall i, f | 0 <= i < |s'.handlers| && s'.handlers[i].Updating? && f in s'.handlers[i].todo
      ensures f.quantity > 0
    {
      assert f in s.handlers[i].todo;
    }
  }

  lemma UpdateMaker(s: State, h: nat)
    requires AboutToUpdate(s, h)
    ensures var s' := AfterUpdate(s, h);
            var m := s.handlers[h].todo[0].makerId;
            && m in s.ledger && Mono(s, s', m) && IdOk(s', m)
            && (m in s.index ==> s.ledger[m].settled)
            && (m !in s.index ==> Flow(s, s', m))
            && (m in s'.index ==> TrackerOk(s', m))
  {
    var s' := AfterUpdate(s, h);
    var u := s.handlers[h];
    var f := u.todo[0];
    var m := f.makerId;
    assert HandlerOk(s, u) && f in u.todo && IdOk(s, m);
    AtRestNonNegative(s, m);
    EraseDueKept(s.handlers, h, s'.handlers[h], m);
    HasOwnerKept(s.handlers, h, s'.handlers[h], m);
    if m in s.index {
      EntryCovers(s, h);
      assert TrackerOk(s, m);
    } else {
      PendingSwap(m, s.handlers, h, s'.handlers[h]);
    }
  }

  lemma UpdateShape(s: State, h: nat)
    requires AboutToUpdate(s, h)
    ensures var s' := AfterUpdate(s, h);
            && OnlyHandler(s, s', h) && s'.books == s.books && s'.ledger.Keys == s.ledger.Keys
            && (forall x :: x in s'.index ==> x in s.index)
            && (forall x :: x in s.index && x != s.handlers[h].todo[0].makerId ==>
                  x in s'.index && s'.index[x] == s.index[x])
            && s'.handlers[h] == s.handlers[h].(todo := s.handlers[h].todo[1..])
            && s'.counter == s.counter
            && (forall x :: x in s.ledger ==> s'.ledger[x].symbol == s.ledger[x].symbol)
  {
    hide Ok;
  }

  lemma UpdateOther(s: State, h: nat, x: string)
    requires AboutToUpdate(s, h) && x in s.ledger && x != s.handlers[h].todo[0].makerId
    ensures var s' := AfterUpdate(s, h);
            && Flow(s, s', x) && Mono(s, s', x) && IdOk(s', x)
            && (x in s'.index ==> TrackerOk(s', x))
  {
    hide AtRest, Pending, IdOk, TrackerOk, BookOk, OneOwner, HandlerOk, Flow, Mono;
    UpdateShape(s, h);
    SameOther(s, AfterUpdate(s, h), h, x);
  }

  /** The handler itself: one fill fewer to apply. */
  lemma UpdateSelf(s: State, h: nat)
    requires AboutToUpdate(s, h)
    ensures HandlerOk(AfterUpdate(s, h), AfterUpdate(s, h).handlers[h])
  {
    hide AtRest, Pending, IdOk, TrackerOk, BookOk, OneOwner, Flow, Mono, Ok, AfterUpdate;
    var s' := AfterUpdate(s, h);
    UpdateShape(s, h);
    HandlerAt(s, h);
    UpdateMaker(s, h);
    Untracked(s, h);
    forall x | x in s.ledger && x != s.handlers[h].todo[0].makerId
      ensures Flow(s, s', x) && Mono(s, s', x)
    {
      UpdateOther(s, h, x);
    }
    HandlerKept(s, s', s.handlers[h]);
  }

  lemma UpdateStep(s: State, h: nat)
    requires AboutToUpdate(s, h)
    ensures Ok(AfterUpdate(s, h))
  {
    hide AtRest, Pending, IdOk, TrackerOk, BookOk, OneOwner, HandlerOk, Flow, Mono, Ok, AfterUpdate;
    var s' := AfterUpdate(s, h);
    var m := s.handlers[h].todo[0].makerId;
    UpdateShape(s, h);
    UpdateMaker(s, h);
    UpdateSelf(s, h);
    TrackedIds(s);
    forall x | x in s.ledger && x != m
      ensures Flow(s, s', x) && Mono(s, s', x) && IdOk(s', x)
      ensures x in s'.index ==> TrackerOk(s', x)
    {
      UpdateOther(s, h, x);
    }
    OkBooks(s);
    OneOwnerKept(s.handlers, h, s'.handlers[h]);
    BooksStay(s, s');
    Assemble(s, s', h);
  }

  // ---- Tracking ----

  lemma TrackTaker(s: State, h: nat)
    requires Ok(s) && h < |s.handlers| && s.handlers[h].Updating? && s.handlers[h].todo == []
    ensures var s' := AfterTrack(s, h);
            var y := s.handlers[h].id;
            && y in s.ledger && y !in s.index && Mono(s, s', y) && IdOk(s', y)
            && (y in s'.index ==> TrackerOk(s', y))
  {
    var s' := AfterTrack(s, h);
    var y := s.handlers[h].id;
    HandlerAt(s, h);
    IdAt(s, y);
    AtRestNonNegative(s, y);
    Untracked(s, h);
    PendingSwap(y, s.handlers, h, s'.handlers[h]);
  }

  lemma TrackOther(s: State, h: nat, x: string)
    requires Ok(s) && h < |s.handlers| && s.handlers[h].Updating? && s.handlers[h].todo == []
    requires x in s.ledger && x != s.handlers[h].id
    ensures var s' := AfterTrack(s, h);
            && Flow(s, s', x) && Mono(s, s', x) && IdOk(s', x)
            && (x in s'.index ==> x in s.index && TrackerOk(s', x))
  {
    hide AtRest, Pending, IdOk, TrackerOk, BookOk, OneOwner, HandlerOk, Flow, Mono;
    SameOther(s, AfterTrack(s, h), h, x);
  }

  /** What `AfterTrack` leaves alone. */
  lemma TrackShape(s: State, h: nat)
    requires Ok(s) && h < |s.handlers| && s.handlers[h].Updating? && s.handlers[h].todo == []
    ensures var s' := AfterTrack(s, h);
            var y := s.handlers[h].id;
            && OnlyHandler(s, s', h) && s'.books == s.books
            && s'.handlers[h].Done? && s'.handlers[h].reply.Executed?
            && HandlerOk(s', s'.handlers[h]) && Owns(s.handlers[h], y)
            && s'.ledger.Keys == s.ledger.Keys
            && (forall x :: x in s.ledger ==> s'.ledger[x].symbol == s.ledger[x].symbol)
            && (forall x :: x in s'.index && x != y ==> x in s.ledger)
  {
    HandlerAt(s, h);
    forall x | x in s.index ensures x in s.ledger {
      TrackerLedger(s, x);
    }
  }

  lemma TrackStep(s: State, h: nat)
    requires Ok(s) && h < |s.handlers| && s.handlers[h].Updating? && s.handlers[h].todo == []
    ensures Ok(AfterTrack(s, h))
  {
    hide AtRest, Pending, IdOk, TrackerOk, BookOk, OneOwner, HandlerOk, Flow, Mono, AfterTrack;
    var s' := AfterTrack(s, h);
    TrackTaker(s, h);
    TrackShape(s, h);
    forall x | x in s.ledger && x != s.handlers[h].id
      ensures Flow(s, s', x) && Mono(s, s', x) && IdOk(s', x)
      ensures x in s'.index ==> TrackerOk(s', x)
    {
      TrackOther(s, h, x);
    }
    OneOwnerKept(s.handlers, h, s'.handlers[h]);
    BooksStay(s, s');
    Assemble(s, s', h);
  }

  // ---- The two sections of a DELETE that change something ----

  /** A DELETE that found a tracker entry and still finds the order in the book. */
  ghost predicate AboutToCancel(s: State, h: nat) {
    && Ok(s) && h < |s.handlers| && s.handlers[h].Found?
    && s.handlers[h].id in s.ledger && s.handlers[h].seen.symbol in s.books
    && s.handlers[h].seen.symbol == s.ledger[s.handlers[h].id].symbol
    && Known(s.books[s.handlers[h].seen.symbol], s.handlers[h].id)
  }

  lemma CancelBook(s: State, h: nat)
    requires AboutToCancel(s, h)
    ensures BooksOk(AfterCancel(s, h))
  {
    var s' := AfterCancel(s, h);
    var d := s.handlers[h];
    var b := s.books[d.seen.symbol];
    assert BookOk(s, d.seen.symbol);
    CancelKeeps(b, d.id);
    CancelUncrossed(b, d.id);
    CancelAnonymous(b, d.id);
    WithoutKeeps(Buy, b.bids, d.id);
    WithoutKeeps(Sell, b.asks, d.id);
    forall sym | sym in s'.books ensures BookOk(s', sym) {
      if sym != d.seen.symbol {
        assert BookOk(s, sym);
      }
    }
  }

  lemma CancelFlows(s: State, h: nat, x: string)
    requires AboutToCancel(s, h) && x in s.ledger
    ensures var s' := AfterCancel(s, h);
            && Flow(s, s', x)
            && (x == s.handlers[h].id ==> AtRest(s', x) == 0)
            && (x != s.handlers[h].id ==> s'.ledger[x] == s.ledger[x])
  {
    hide Ok, Inv, Without, QtyIn;
    var s' := AfterCancel(s, h);
    var d := s.handlers[h];
    var b := s.books[d.seen.symbol];
    WithoutMoves(iset{x}, b.bids, d.id);
    WithoutMoves(iset{x}, b.asks, d.id);
    AtRestNonNegative(s, x);
    IdAt(s, x);
    PendingSwap(x, s.handlers, h, s'.handlers[h]);
  }

  lemma CancelId(s: State, h: nat)
    requires AboutToCancel(s, h)
    ensures var s' := AfterCancel(s, h);
            && IdOk(s', s.handlers[h].id) && HandlerOk(s', s'.handlers[h])
  {
    var s' := AfterCancel(s, h);
    var x := s.handlers[h].id;
    HandlerAt(s, h);
    IdAt(s, x);
    CancelFlows(s, h, x);
    AtRestNonNegative(s, x);
    EraseDueKept(s.handlers, h, s'.handlers[h], x);
    HasOwnerKept(s.handlers, h, s'.handlers[h], x);
  }

  lemma CancelOther(s: State, h: nat, x: string)
    requires AboutToCancel(s, h) && x in s.ledger
    ensures var s' := AfterCancel(s, h);
            && Flow(s, s', x) && Mono(s, s', x)
            && (x != s.handlers[h].id ==> IdOk(s', x))
            && (x in s'.index ==> TrackerOk(s', x))
  {
    hide AtRest, Pending, IdOk, TrackerOk, BookOk, OneOwner, HandlerOk, Flow, Mono, Known, Cancel;
    var s' := AfterCancel(s, h);
    CancelFlows(s, h, x);
    FlowIsMono(s, s', x);
    SymbolHasBook(s, x);
    if x != s.handlers[h].id {
      IdFlows(s, s', h, x);
    }
    if x in s'.index {
      TrackerFlows(s, s', x);
    }
  }

  lemma CancelShape(s: State, h: nat)
    requires AboutToCancel(s, h)
    ensures var s' := AfterCancel(s, h);
            && OnlyHandler(s, s', h) && s'.index == s.index && s'.ledger.Keys == s.ledger.Keys
            && s'.books.Keys == s.books.Keys && s'.handlers[h].Erasing?
  {
  }

  lemma CancelStep(s: State, h: nat)
    requires AboutToCancel(s, h)
    ensures Ok(AfterCancel(s, h))
  {
    hide AtRest, Pending, IdOk, TrackerOk, BookOk, OneOwner, HandlerOk, Flow, Mono, AfterCancel, Ok;
    var s' := AfterCancel(s, h);
    CancelShape(s, h);
    CancelBook(s, h);
    CancelId(s, h);
    TrackedIds(s);
    forall x | x in s.ledger
      ensures Flow(s, s', x) && Mono(s, s', x)
      ensures x in s'.index ==> TrackerOk(s', x)
      ensures IdOk(s', x)
    {
      CancelOther(s, h, x);
    }
    OkBooks(s);
    OneOwnerKept(s.handlers, h, s'.handlers[h]);
    Assemble(s, s', h);
  }

  lemma EraseStep(s: State, h: nat)
    requires Ok(s) && h < |s.handlers| && s.handlers[h].Erasing?
    ensures Ok(Advanced(s, h))
  {
    hide AtRest, Pending, IdOk, TrackerOk, BookOk, OneOwner, HandlerOk, Flow, Mono, Ok;
    var s' := Advanced(s, h);
    var y := s.handlers[h].id;
    EraseId(s, h);
    TrackedIds(s);
    forall x | x in s.ledger && x != y
      ensures Flow(s, s', x) && Mono(s, s', x) && IdOk(s', x)
      ensures x in s'.index ==> TrackerOk(s', x)
    {
      SameOther(s, s', h, x);
    }
    OkBooks(s);
    OneOwnerKept(s.handlers, h, s'.handlers[h]);
    BooksStay(s, s');
    Assemble(s, s', h);
  }

  lemma EraseId(s: State, h: nat)
    requires Ok(s) && h < |s.handlers| && s.handlers[h].Erasing?
    ensures var s' := Advanced(s, h);
            var y := s.handlers[h].id;
            && y in s.ledger && Flow(s, s', y) && Mono(s, s', y) && IdOk(s', y)
            && HandlerOk(s', s'.handlers[h])
  {
    HandlerAt(s, h);
    IdAt(s, s.handlers[h].id);
    SameFlow(s, Advanced(s, h), h, s.handlers[h].id);
    HasOwnerKept(s.handlers, h, Advanced(s, h).handlers[h], s.handlers[h].id);
  }

  // ---- A new handler ----

  lemma ArriveRest(s: State, g: Handler, x: string)
    requires x in s.ledger
    ensures AtRest(s.(handlers := s.handlers + [g]), x) == AtRest(s, x)
  {
    hide QtyIn;
  }

  lemma ArriveId(s: State, g: Handler, x: string)
    requires Ok(s) && (g.Posted? || g.Asked? || g.Showing?) && x in s.ledger
    ensures var s' := s.(handlers := s.handlers + [g]);
            Flow(s, s', x) && IdOk(s', x)
  {
    hide Ok, AtRest, Pending;
    var s' := s.(handlers := s.handlers + [g]);
    ArriveRest(s, g, x);
    PendingAppend(x, s.handlers, g);
    IdAt(s, x);
    AtRestNonNegative(s, x);
    if EraseDue(s.handlers, x) {
      var i :| 0 <= i < |s.handlers| && s.handlers[i].Erasing? && s.handlers[i].id == x;
      assert s'.handlers[i] == s.handlers[i];
    }
    if HasOwner(s.handlers, x) {
      var i :| 0 <= i < |s.handlers| && Owns(s.handlers[i], x);
      assert s'.handlers[i] == s.handlers[i];
    }
  }

  lemma ArriveStep(s: State, g: Handler)
    requires Ok(s) && (g.Posted? || g.Asked? || g.Showing?)
    ensures Ok(s.(handlers := s.handlers + [g]))
  {
    hide AtRest, Pending, IdOk, TrackerOk, BookOk, HandlerOk, Flow, Mono, OneOwner;
    var s' := s.(handlers := s.handlers + [g]);
    forall x | x in s.ledger ensures Flow(s, s', x) && IdOk(s', x) {
      ArriveId(s, g, x);
    }
    BooksStay(s, s');
    ArriveHandlers(s, g);
    TrackedIds(s);
    forall x | x in s'.index ensures TrackerOk(s', x) {
      TrackerFlows(s, s', x);
    }
  }

  lemma ArriveHandlers(s: State, g: Handler)
    requires Ok(s) && (g.Posted? || g.Asked? || g.Showing?)
    requires forall x :: x in s.ledger ==> Flow(s, s.(handlers := s.handlers + [g]), x)
    ensures HandlersOk(s.(handlers := s.handlers + [g])) && OneOwner(s.handlers + [g])
  {
    var s' := s.(handlers := s.handlers + [g]);
    forall i | 0 <= i < |s'.handlers| ensures HandlerOk(s', s'.handlers[i]) {
      if i < |s.handlers| {
        HandlerKept(s, s', s.handlers[i]);
      }
    }
  }

  // ---- Every step, every run ----

  lemma StepKeeps(s: State, step: Step)
    requires Ok(s)
    ensures Ok(Next(s, step))
  {
    match step
    case Post(req) => ArriveStep(s, Posted(req));
    case Delete(id) => ArriveStep(s, Asked(id));
    case Show(symbol) => ArriveStep(s, Showing(symbol));
    case Advance(h) =>
      if h < |s.handlers| {
        AdvanceKeeps(s, h);
      }
  }

  lemma AdvanceKeeps(s: State, h: nat)
    requires Ok(s) && h < |s.handlers|
    ensures Ok(Advanced(s, h))
  {
    hide Ok;
    HandlerAt(s, h);
    match s.handlers[h]
    case Posted(req) => QuietStep(s, Advanced(s, h), h);
    case Checked(_) => DrawStep(s, h);
    case Numbered(req, id) => AddStep(s, h, req, id);
    case Updating(_, _, _, todo) =>
      if todo != [] { UpdateStep(s, h); } else { TrackStep(s, h); }
    case Showing(_) => QuietStep(s, Advanced(s, h), h);
    case Reading(_) => QuietStep(s, Advanced(s, h), h);
    case Asked(id) =>
      LookupOk(s, h);
      QuietStep(s, Advanced(s, h), h);
    case Found(id, seen) =>
      IdAt(s, id);
      if Known(s.books[seen.symbol], id) {
        CancelStep(s, h);
      } else {
        QuietStep(s, Advanced(s, h), h);
      }
    case Erasing(_, _) => EraseStep(s, h);
    case Done(_) =>
  }

  /** A tracker entry, when copied, accounts for what was executed, less the fills that are
      still to be applied or found no entry. */
  lemma LookupOk(s: State, h: nat)
    requires Ok(s) && h < |s.handlers| && s.handlers[h].Asked?
    ensures HandlerOk(Advanced(s, h), Advanced(s, h).handlers[h])
    ensures var id := s.handlers[h].id;
            id in s.index ==>
              && id in s.ledger && Pending(id, s.handlers) >= 0 && s.ledger[id].lost >= 0
              && s.index[id].orig - s.index[id].remaining ==
                 s.ledger[id].executed - Pending(id, s.handlers) - s.ledger[id].lost
  {
    var id := s.handlers[h].id;
    if id in s.index {
      assert TrackerOk(s, id);
      IdAt(s, id);
      AtRestNonNegative(s, id);
    }
  }

  /** In every interleaving of any number of handlers. */
  lemma {:induction false} AlwaysOk(steps: seq<Step>)
    ensures Ok(Reach(steps))
  {
    if steps != [] {
      AlwaysOk(steps[..|steps| - 1]);
      StepKeeps(Reach(steps[..|steps| - 1]), steps[|steps| - 1]);
    }
  }
}
