/** Which request an id, a tracker entry and a resting order come from, and what a POST trades. */
module ExchangeProvenance {
  import opened Arithmetic
  import opened Orders
  import opened FlatMatcher
  import opened BookSpec
  import opened BookInvariant
  import opened BookRuns
  import opened Executions
  import opened ExchangeProtocol
  import opened ExchangeGuarantees

  /** The requests of a run, in the order they arrived. */
  function Arrivals(steps: seq<Step>): seq<Step> {
    if steps == [] then []
    else
      var last := steps[|steps| - 1];
      Arrivals(steps[..|steps| - 1]) + if last.Advance? then [] else [last]
  }

  lemma ArrivalsNext(steps: seq<Step>, step: Step)
    ensures Arrivals(steps + [step]) == Arrivals(steps) + if step.Advance? then [] else [step]
  {
    assert (steps + [step])[..|steps|] == steps;
  }

  predicate Served(g: Handler, x: string) {
    g.Done? && g.reply.Executed? && g.reply.id == x
  }

  /** The handler has drawn the id `x`. */
  predicate Drew(g: Handler, x: string) {
    ((g.Numbered? || g.Updating?) && g.id == x) || Served(g, x)
  }

  /** Handler `h`, which serves a POST of `req`, has drawn `x`. */
  ghost predicate DrewFor(hs: seq<Handler>, arrivals: seq<Step>, x: string, req: Request, h: nat) {
    h < |hs| && h < |arrivals| && Drew(hs[h], x) && arrivals[h] == Post(req)
  }

  ghost predicate Drawn(hs: seq<Handler>, arrivals: seq<Step>, x: string, req: Request) {
    exists h: nat :: DrewFor(hs, arrivals, x, req, h)
  }

  /** ... and has answered with it. */
  ghost predicate ServedFor(hs: seq<Handler>, arrivals: seq<Step>, x: string, req: Request, h: nat) {
    h < |hs| && h < |arrivals| && Served(hs[h], x) && arrivals[h] == Post(req)
  }

  ghost predicate Answered(hs: seq<Handler>, arrivals: seq<Step>, x: string, req: Request) {
    exists h: nat :: ServedFor(hs, arrivals, x, req, h)
  }

  /** A tracker entry says whose order it is. */
  predicate Fits(req: Request, t: Tracker) {
    && t.clientId == req.clientId && t.side == req.side && t.symbol == req.symbol
    && t.orig == req.quantity
  }

  /** So does a resting order. */
  predicate FitsRest(req: Request, sym: string, r: Resting) {
    && req.symbol == sym && req.kind == Limit && r.order.kind == Limit && r.order.account == ""
    && r.order.side == req.side && r.order.price == req.price && r.order.quantity <= req.quantity
  }

  predicate Serves(g: Handler, arrival: Step) {
    match g
    case Posted(req) => arrival == Post(req)
    case Checked(req) => arrival == Post(req)
    case Numbered(req, _) => arrival == Post(req)
    case Updating(req, _, _, _) => arrival == Post(req)
    case Done(Executed(_, _, _)) => arrival.Post?
    case _ => true
  }

  ghost predicate TrackedFrom(s: State, arrivals: seq<Step>, x: string, t: Tracker) {
    exists req :: Answered(s.handlers, arrivals, x, req) && Fits(req, t)
  }

  ghost predicate RestsFrom(s: State, arrivals: seq<Step>, sym: string, r: Resting) {
    exists req :: Drawn(s.handlers, arrivals, r.order.id, req) && FitsRest(req, sym, r)
  }

  ghost predicate HandlersKnown(s: State, arrivals: seq<Step>) {
    && |arrivals| == |s.handlers|
    && (forall h :: 0 <= h < |s.handlers| ==> Serves(s.handlers[h], arrivals[h]))
    && (forall h, x :: 0 <= h < |s.handlers| && Drew(s.handlers[h], x) ==> x in s.ledger)
    && (forall i, j, x :: 0 <= i < j < |s.handlers| && Drew(s.handlers[i], x) ==>
          !Drew(s.handlers[j], x))
  }

  ghost predicate EntriesKnown(s: State, arrivals: seq<Step>) {
    && (forall x :: x in s.index ==> TrackedFrom(s, arrivals, x, s.index[x]))
    && (forall h :: 0 <= h < |s.handlers| && (s.handlers[h].Found? || s.handlers[h].Erasing?) ==>
          TrackedFrom(s, arrivals, s.handlers[h].id, s.handlers[h].seen))
  }

  ghost predicate RestsKnown(s: State, arrivals: seq<Step>) {
    forall sym, r :: sym in s.books && RestsIn(s.books[sym], r) ==> RestsFrom(s, arrivals, sym, r)
  }

  ghost predicate Accounted(s: State, arrivals: seq<Step>) {
    HandlersKnown(s, arrivals) && EntriesKnown(s, arrivals) && RestsKnown(s, arrivals)
  }

  // ---- What one step does to these ----

  /** No handler forgets its id, and a newly drawn one is new. */
  ghost predicate HandlersGo(s: State, s': State) {
    && |s.handlers| <= |s'.handlers|
    && (forall x :: x in s.ledger ==> x in s'.ledger)
    && (forall h, x :: 0 <= h < |s.handlers| && Drew(s.handlers[h], x) ==> Drew(s'.handlers[h], x))
    && (forall h, x :: 0 <= h < |s.handlers| && Served(s.handlers[h], x) ==> Served(s'.handlers[h], x))
    && (forall h :: |s.handlers| <= h < |s'.handlers| ==>
          forall x :: !Drew(s'.handlers[h], x))
  }

  lemma DrawnGoes(s: State, s': State, arrivals: seq<Step>, arrivals': seq<Step>, x: string, req: Request)
    requires HandlersGo(s, s') && arrivals <= arrivals'
    ensures Drawn(s.handlers, arrivals, x, req) ==> Drawn(s'.handlers, arrivals', x, req)
    ensures Answered(s.handlers, arrivals, x, req) ==> Answered(s'.handlers, arrivals', x, req)
  {
    if Drawn(s.handlers, arrivals, x, req) {
      var h: nat :| DrewFor(s.handlers, arrivals, x, req, h);
      assert DrewFor(s'.handlers, arrivals', x, req, h);
    }
    if Answered(s.handlers, arrivals, x, req) {
      var h: nat :| ServedFor(s.handlers, arrivals, x, req, h);
      assert ServedFor(s'.handlers, arrivals', x, req, h);
    }
  }

  lemma TrackedGoes(s: State, s': State, arrivals: seq<Step>, arrivals': seq<Step>, x: string,
                    t: Tracker, t': Tracker)
    requires HandlersGo(s, s') && arrivals <= arrivals'
    requires TrackedFrom(s, arrivals, x, t) && t' == t.(remaining := t'.remaining)
    ensures TrackedFrom(s', arrivals', x, t')
  {
    hide HandlersGo, Answered;
    var req :| Answered(s.handlers, arrivals, x, req) && Fits(req, t);
    DrawnGoes(s, s', arrivals, arrivals', x, req);
  }

  lemma RestsGoes(s: State, s': State, arrivals: seq<Step>, arrivals': seq<Step>, sym: string,
                  r: Resting, r': Resting)
    requires HandlersGo(s, s') && arrivals <= arrivals'
    requires RestsFrom(s, arrivals, sym, r) && LeftOf(r, r')
    ensures RestsFrom(s', arrivals', sym, r')
  {
    hide HandlersGo, Drawn;
    var req :| Drawn(s.handlers, arrivals, r.order.id, req) && FitsRest(req, sym, r);
    DrawnGoes(s, s', arrivals, arrivals', r.order.id, req);
  }

  // ---- A new handler ----

  lemma ArrivalKnown(s: State, g: Handler, arrivals: seq<Step>, arrival: Step)
    requires Accounted(s, arrivals) && Serves(g, arrival) && (g.Posted? || g.Asked? || g.Showing?)
    ensures Accounted(s.(handlers := s.handlers + [g]), arrivals + [arrival])
  {
    hide TrackedFrom, RestsFrom, HandlersGo;
    var s' := s.(handlers := s.handlers + [g]);
    NewcomerGoes(s, g);
    forall x | x in s'.index ensures TrackedFrom(s', arrivals + [arrival], x, s'.index[x]) {
      TrackedGoes(s, s', arrivals, arrivals + [arrival], x, s.index[x], s'.index[x]);
    }
    forall h | 0 <= h < |s'.handlers| && (s'.handlers[h].Found? || s'.handlers[h].Erasing?)
      ensures TrackedFrom(s', arrivals + [arrival], s'.handlers[h].id, s'.handlers[h].seen)
    {
      var d := s.handlers[h];
      TrackedGoes(s, s', arrivals, arrivals + [arrival], d.id, d.seen, d.seen);
    }
    forall sym, r | sym in s'.books && RestsIn(s'.books[sym], r)
      ensures RestsFrom(s', arrivals + [arrival], sym, r)
    {
      RestsGoes(s, s', arrivals, arrivals + [arrival], sym, r, r);
    }
  }

  lemma NewcomerGoes(s: State, g: Handler)
    requires g.Posted? || g.Asked? || g.Showing?
    ensures HandlersGo(s, s.(handlers := s.handlers + [g]))
  {
  }

  // ---- A handler moves ----

  /** What the moving handler may draw and answer. */
  ghost predicate GoesOn(s: State, s': State, h: nat) {
    && OnlyHandler(s, s', h)
    && (forall x :: x in s.ledger ==> x in s'.ledger)
    && (forall x :: Drew(s.handlers[h], x) ==> Drew(s'.handlers[h], x))
    && (forall x :: Served(s.handlers[h], x) ==> Served(s'.handlers[h], x))
    && (forall x :: Drew(s'.handlers[h], x) ==>
          Drew(s.handlers[h], x) || (x !in s.ledger && x in s'.ledger))
    && (forall arrival :: Serves(s.handlers[h], arrival) ==> Serves(s'.handlers[h], arrival))
  }

  lemma GoesOnGoes(s: State, s': State, h: nat)
    requires GoesOn(s, s', h)
    ensures HandlersGo(s, s')
  {
  }

  lemma MoveHandlers(s: State, s': State, h: nat, arrivals: seq<Step>)
    requires HandlersKnown(s, arrivals) && GoesOn(s, s', h)
    ensures HandlersKnown(s', arrivals)
  {
    forall i, j, x | 0 <= i < j < |s'.handlers| && Drew(s'.handlers[i], x)
      ensures !Drew(s'.handlers[j], x)
    {
      assert i != h ==> Drew(s.handlers[i], x) && x in s.ledger;
      assert j != h ==> (Drew(s'.handlers[j], x) ==> x in s.ledger);
    }
    forall i, x | 0 <= i < |s'.handlers| && Drew(s'.handlers[i], x) ensures x in s'.ledger {
      assert i != h ==> Drew(s.handlers[i], x);
    }
  }

  lemma AdvanceGoes(s: State, h: nat)
    requires Ok(s) && h < |s.handlers|
    ensures GoesOn(s, Advanced(s, h), h)
  {
    hide Ok, Advanced;
    OneMoves(s, h);
    match s.handlers[h]
    case Checked(req) => DrawGoes(s, h);
    case Numbered(req, y) => AddGoes(s, h, req, y);
    case Updating(_, y, _, _) => UpdateGoes(s, h);
    case Found(_, _) => CancelGoes(s, h);
    case _ => QuietGoes(s, h);
  }

  lemma DrawGoes(s: State, h: nat)
    requires Ok(s) && h < |s.handlers| && s.handlers[h].Checked?
    requires OnlyHandler(s, Advanced(s, h), h)
    ensures GoesOn(s, Advanced(s, h), h)
  {
    hide Ok;
    FreshId(s, s.handlers[h].req.symbol);
  }

  lemma AddGoes(s: State, h: nat, req: Request, y: string)
    requires Ok(s) && h < |s.handlers| && s.handlers[h] == Numbered(req, y)
    requires OnlyHandler(s, Advanced(s, h), h)
    ensures GoesOn(s, Advanced(s, h), h)
  {
    hide Ok, AddVerdict, Add, Charged;
    NeverRejected(s, h, req, y);
    AddShape(s, h, req, y);
  }

  lemma UpdateGoes(s: State, h: nat)
    requires h < |s.handlers| && s.handlers[h].Updating?
    requires OnlyHandler(s, Advanced(s, h), h)
    ensures GoesOn(s, Advanced(s, h), h)
  {
  }

  lemma CancelGoes(s: State, h: nat)
    requires h < |s.handlers| && s.handlers[h].Found?
    requires OnlyHandler(s, Advanced(s, h), h)
    ensures GoesOn(s, Advanced(s, h), h)
  {
    hide Known, Cancel, BookQty;
  }

  lemma QuietGoes(s: State, h: nat)
    requires h < |s.handlers|
    requires var g := s.handlers[h];
             !g.Checked? && !g.Numbered? && !g.Updating? && !g.Found?
    requires OnlyHandler(s, Advanced(s, h), h)
    ensures GoesOn(s, Advanced(s, h), h)
  {
  }

  // ---- Entries and resting orders after a move ----

  /** Entries only lose remaining quantity, but for the one a POST tracks at its end. */
  ghost predicate IndexMoves(s: State, s': State, h: nat)
    requires h < |s.handlers| == |s'.handlers|
  {
    var g := s.handlers[h];
    forall x :: x in s'.index ==>
      || (x in s.index && s'.index[x] == s.index[x].(remaining := s'.index[x].remaining))
      || (g.Updating? && Served(s'.handlers[h], x) && Fits(g.req, s'.index[x]))
  }

  /** Orders only lose quantity, but for the one a POST puts to rest. */
  ghost predicate OrderMoves(s: State, s': State, h: nat, sym: string, r: Resting)
    requires h < |s.handlers| == |s'.handlers|
  {
    var g := s.handlers[h];
    || (sym in s.books && exists r0 :: RestsIn(s.books[sym], r0) && LeftOf(r0, r))
    || (g.Numbered? && Drew(s'.handlers[h], r.order.id) && FitsRest(g.req, sym, r))
  }

  lemma AdvanceIndex(s: State, h: nat)
    requires Ok(s) && h < |s.handlers| && OnlyHandler(s, Advanced(s, h), h)
    ensures IndexMoves(s, Advanced(s, h), h)
  {
    hide Ok, AddVerdict, Add, Known, Cancel, BookQty, Charged;
    match s.handlers[h]
    case Updating(_, _, _, todo) =>
      if todo == [] { TrackIndex(s, h); }
    case _ =>
  }

  lemma TrackIndex(s: State, h: nat)
    requires h < |s.handlers| && s.handlers[h].Updating? && s.handlers[h].todo == []
    requires OnlyHandler(s, AfterTrack(s, h), h)
    ensures IndexMoves(s, AfterTrack(s, h), h)
  {
  }

  lemma SameRests(b: Book, r: Resting)
    requires RestsIn(b, r)
    ensures exists r0 :: RestsIn(b, r0) && LeftOf(r0, r)
  {
    assert LeftOf(r, r);
  }

  lemma AdvanceBooks(s: State, h: nat, sym: string, r: Resting)
    requires Ok(s) && h < |s.handlers| && OnlyHandler(s, Advanced(s, h), h)
    requires sym in Advanced(s, h).books && RestsIn(Advanced(s, h).books[sym], r)
    ensures OrderMoves(s, Advanced(s, h), h, sym, r)
  {
    hide Ok, Charged, Match;
    match s.handlers[h]
    case Numbered(req, y) => AddBooks(s, h, req, y, sym, r);
    case Found(_, _) => CancelBooks(s, h, sym, r);
    case _ => QuietBooks(s, h, sym, r);
  }

  lemma QuietBooks(s: State, h: nat, sym: string, r: Resting)
    requires h < |s.handlers| && OnlyHandler(s, Advanced(s, h), h)
    requires !s.handlers[h].Numbered? && !s.handlers[h].Found?
    requires sym in Advanced(s, h).books && RestsIn(Advanced(s, h).books[sym], r)
    ensures OrderMoves(s, Advanced(s, h), h, sym, r)
  {
    assert sym in s.books && Advanced(s, h).books[sym] == s.books[sym];
    SameRests(s.books[sym], r);
  }

  lemma CancelBooks(s: State, h: nat, sym: string, r: Resting)
    requires Ok(s) && h < |s.handlers| && s.handlers[h].Found?
    requires OnlyHandler(s, Advanced(s, h), h)
    requires sym in Advanced(s, h).books && RestsIn(Advanced(s, h).books[sym], r)
    ensures OrderMoves(s, Advanced(s, h), h, sym, r)
  {
    hide Ok, Known, BookQty, Without, Inv;
    var d := s.handlers[h];
    HandlerAt(s, h);
    IdAt(s, d.id);
    assert sym in s.books;
    BookInv(s, sym);
    var b := s.books[sym];
    if Advanced(s, h).books[sym] == b {
      SameRests(b, r);
    } else {
      assert Advanced(s, h).books[sym] == Cancel(b, d.id);
      CancelledRests(b, d.id, r);
      SameRests(b, r);
    }
  }

  lemma BookInv(s: State, sym: string)
    requires Ok(s) && sym in s.books
    ensures Inv(s.books[sym])
  {
    assert BookOk(s, sym);
  }

  lemma CancelledRests(b: Book, id: string, r: Resting)
    requires Inv(b) && RestsIn(Cancel(b, id), r)
    ensures RestsIn(b, r)
  {
    WithoutKeeps(Buy, b.bids, id);
    WithoutKeeps(Sell, b.asks, id);
  }

  lemma AddBooks(s: State, h: nat, req: Request, y: string, sym: string, r: Resting)
    requires Ok(s) && h < |s.handlers| && s.handlers[h] == Numbered(req, y)
    requires OnlyHandler(s, Advanced(s, h), h)
    requires sym in Advanced(s, h).books && RestsIn(Advanced(s, h).books[sym], r)
    ensures OrderMoves(s, Advanced(s, h), h, sym, r)
  {
    hide Ok, Charged, Match, Inv, Accept;
    NeverRejected(s, h, req, y);
    AddShape(s, h, req, y);
    var b := s.books[req.symbol];
    assert WithId(OrderOf(req, y), "") == OrderOf(req, y);
    if sym == req.symbol {
      assert Advanced(s, h).books[sym] == Accept(b, OrderOf(req, y));
      AcceptedRests(b, OrderOf(req, y), r);
    } else {
      assert Advanced(s, h).books[sym] == s.books[sym];
      SameRests(s.books[sym], r);
    }
  }

  /** After an order was taken: an old order with no more than it had, or what is left of the
      new one. */
  lemma AcceptedRests(b: Book, t: Order, r: Resting)
    requires Inv(b) && !Known(b, t.id) && t.quantity > 0 && (t.kind == Limit ==> t.price > 0)
    requires RestsIn(Accept(b, t), r)
    ensures || (exists r0 :: RestsIn(b, r0) && LeftOf(r0, r))
            || (t.kind == Limit && r.order == t.(quantity := r.order.quantity)
                && r.order.quantity <= t.quantity)
  {
    hide Inv, Known, Match, Accept, SideInv;
    AcceptMembers(b, t);
    MatchedSide(b, t);
    RemainingAtMost(b, t);
    if r in OnSide(Accept(b, t), Opposite(t.side)) {
      var r0 :| r0 in OnSide(b, Opposite(t.side)) && LeftOf(r0, r);
      assert RestsIn(b, r0);
    } else if r in OnSide(b, t.side) {
      SameRests(b, r);
    }
  }

  lemma RemainingAtMost(b: Book, t: Order)
    requires Inv(b) && t.quantity > 0
    ensures Matched(b, t).remaining <= t.quantity
  {
    hide Match;
    var ms := OnSide(b, Opposite(t.side));
    InvSorted(b);
    TradesOnOffer(t, ms);
    EligibleIsOnOffer(t, ms);
    EligibleQtyNonNegative(t, ms);
  }

  lemma InvSorted(b: Book)
    requires Inv(b)
    ensures PriceSorted(Buy, b.bids) && AllPositive(b.bids)
    ensures PriceSorted(Sell, b.asks) && AllPositive(b.asks)
  {
    PrioritisedIsSorted(Buy, b.bids);
    PrioritisedIsSorted(Sell, b.asks);
    forall i | 0 <= i < |b.bids| ensures b.bids[i].order.quantity > 0 {
      assert b.bids[i] in b.bids;
    }
    forall i | 0 <= i < |b.asks| ensures b.asks[i].order.quantity > 0 {
      assert b.asks[i] in b.asks;
    }
  }

  // ---- Every step, every run ----

  lemma MoveEntries(s: State, s': State, h: nat, arrivals: seq<Step>)
    requires HandlersKnown(s, arrivals) && EntriesKnown(s, arrivals)
    requires OnlyHandler(s, s', h) && GoesOn(s, s', h) && IndexMoves(s, s', h)
    requires var g, g' := s.handlers[h], s'.handlers[h];
             g'.Found? || g'.Erasing? ==>
               TrackedFrom(s, arrivals, g'.id, g'.seen)
    ensures EntriesKnown(s', arrivals)
  {
    hide GoesOn, TrackedFrom, HandlersGo;
    GoesOnGoes(s, s', h);
    forall x | x in s'.index ensures TrackedFrom(s', arrivals, x, s'.index[x]) {
      if x in s.index && s'.index[x] == s.index[x].(remaining := s'.index[x].remaining) {
        TrackedGoes(s, s', arrivals, arrivals, x, s.index[x], s'.index[x]);
      } else {
        NewlyTracked(s, s', h, arrivals, x);
      }
    }
    forall i | 0 <= i < |s'.handlers| && (s'.handlers[i].Found? || s'.handlers[i].Erasing?)
      ensures TrackedFrom(s', arrivals, s'.handlers[i].id, s'.handlers[i].seen)
    {
      var d := s'.handlers[i];
      OthersStay(s, s', h, i);
      TrackedGoes(s, s', arrivals, arrivals, d.id, d.seen, d.seen);
    }
  }

  lemma OthersStay(s: State, s': State, h: nat, i: nat)
    requires GoesOn(s, s', h) && i < |s'.handlers|
    ensures |s'.handlers| == |s.handlers| && (i != h ==> s'.handlers[i] == s.handlers[i])
  {
  }

  lemma NewlyTracked(s: State, s': State, h: nat, arrivals: seq<Step>, x: string)
    requires HandlersKnown(s, arrivals) && h < |s.handlers| == |s'.handlers|
    requires s.handlers[h].Updating? && Served(s'.handlers[h], x)
    requires x in s'.index && Fits(s.handlers[h].req, s'.index[x])
    ensures TrackedFrom(s', arrivals, x, s'.index[x])
  {
    var req := s.handlers[h].req;
    assert Serves(s.handlers[h], arrivals[h]);
    assert ServedFor(s'.handlers, arrivals, x, req, h);
  }

  lemma NewlyResting(s: State, s': State, h: nat, arrivals: seq<Step>, sym: string, r: Resting)
    requires HandlersKnown(s, arrivals) && h < |s.handlers| == |s'.handlers|
    requires s.handlers[h].Numbered? && Drew(s'.handlers[h], r.order.id)
    requires FitsRest(s.handlers[h].req, sym, r)
    ensures RestsFrom(s', arrivals, sym, r)
  {
    var req := s.handlers[h].req;
    assert Serves(s.handlers[h], arrivals[h]);
    assert DrewFor(s'.handlers, arrivals, r.order.id, req, h);
  }

  lemma MoveRests(s: State, s': State, h: nat, arrivals: seq<Step>)
    requires HandlersKnown(s, arrivals) && RestsKnown(s, arrivals)
    requires OnlyHandler(s, s', h) && GoesOn(s, s', h)
    requires forall sym, r :: sym in s'.books && RestsIn(s'.books[sym], r) ==>
               OrderMoves(s, s', h, sym, r)
    ensures RestsKnown(s', arrivals)
  {
    hide RestsFrom, HandlersGo, RestsIn, HandlersKnown;
    GoesOnGoes(s, s', h);
    forall sym, r | sym in s'.books && RestsIn(s'.books[sym], r)
      ensures RestsFrom(s', arrivals, sym, r)
    {
      if sym in s.books && exists r0 :: RestsIn(s.books[sym], r0) && LeftOf(r0, r) {
        var r0 :| RestsIn(s.books[sym], r0) && LeftOf(r0, r);
        RestsGoes(s, s', arrivals, arrivals, sym, r0, r);
      } else {
        NewlyResting(s, s', h, arrivals, sym, r);
      }
    }
  }

  lemma SeenKnown(s: State, s': State, h: nat, arrivals: seq<Step>)
    requires h < |s.handlers| && s' == Advanced(s, h) && OnlyHandler(s, s', h)
    requires EntriesKnown(s, arrivals)
    ensures var g' := s'.handlers[h];
            g'.Found? || g'.Erasing? ==> TrackedFrom(s, arrivals, g'.id, g'.seen)
  {
    hide AddVerdict, Add, AfterUpdate, AfterTrack, AfterCancel, TrackedFrom;
    match s.handlers[h]
    case Updating(_, _, _, todo) => UpdateEnds(s, h);
    case Found(_, _) => CancelEnds(s, h);
    case _ =>
  }

  lemma CancelEnds(s: State, h: nat)
    requires h < |s.handlers| && s.handlers[h].Found?
    ensures var g, g' := s.handlers[h], AfterCancel(s, h).handlers[h];
            |AfterCancel(s, h).handlers| == |s.handlers|
            && (g' == Erasing(g.id, g.seen) || g' == Done(NotCancelled(g.id)))
  {
    hide Known, Cancel, BookQty;
  }

  lemma UpdateEnds(s: State, h: nat)
    requires h < |s.handlers| && s.handlers[h].Updating?
    ensures var g, g' := s.handlers[h], Advanced(s, h).handlers[h];
            || (g'.Updating? && g'.req == g.req && g'.id == g.id && g'.fills == g.fills)
            || g'.Done?
  {
  }

  lemma AdvanceAccounted(s: State, h: nat, arrivals: seq<Step>)
    requires Ok(s) && h < |s.handlers| && Accounted(s, arrivals)
    ensures Accounted(Advanced(s, h), arrivals)
  {
    hide Ok, Advanced, HandlersKnown, EntriesKnown, RestsKnown, IndexMoves, OrderMoves;
    var s' := Advanced(s, h);
    AdvanceGoes(s, h);
    AdvanceIndex(s, h);
    OneMoves(s, h);
    SeenKnown(s, s', h, arrivals);
    forall sym, r | sym in s'.books && RestsIn(s'.books[sym], r)
      ensures OrderMoves(s, s', h, sym, r)
    {
      AdvanceBooks(s, h, sym, r);
    }
    MoveHandlers(s, s', h, arrivals);
    MoveEntries(s, s', h, arrivals);
    MoveRests(s, s', h, arrivals);
  }

  lemma StepAccounted(s: State, step: Step, arrivals: seq<Step>)
    requires Ok(s) && Accounted(s, arrivals)
    ensures Accounted(Next(s, step), arrivals + if step.Advance? then [] else [step])
  {
    hide Ok, Accounted, Advanced;
    assert arrivals + [] == arrivals;
    match step
    case Post(req) => ArrivalKnown(s, Posted(req), arrivals, step);
    case Delete(id) => ArrivalKnown(s, Asked(id), arrivals, step);
    case Show(symbol) => ArrivalKnown(s, Showing(symbol), arrivals, step);
    case Advance(h) =>
      if h < |s.handlers| {
        AdvanceAccounted(s, h, arrivals);
      }
  }

  /** In every interleaving: handler by handler, entry by entry, order by order, whose it is. */
  lemma {:induction false} AlwaysAccounted(steps: seq<Step>)
    ensures Accounted(Reach(steps), Arrivals(steps))
  {
    hide Accounted, Next;
    if steps == [] {
      StartAccounted();
    } else {
      var before, step := steps[..|steps| - 1], steps[|steps| - 1];
      assert before + [step] == steps;
      AlwaysOk(before);
      AlwaysAccounted(before);
      ArrivalsNext(before, step);
      ReachNext(before, step);
      StepAccounted(Reach(before), step, Arrivals(before));
    }
  }

  lemma StartAccounted()
    ensures Accounted(START, [])
  {
  }

  /** In every interleaving each tracked id was drawn by one POST of the run, which answered
      with it, and the entry has that request's client id, side, symbol and quantity. */
  lemma TrackedIsPosted(steps: seq<Step>, x: string) returns (h: nat, req: Request)
    requires x in Reach(steps).index
    ensures var s, t := Reach(steps), Reach(steps).index[x];
            && h < |s.handlers| == |Arrivals(steps)| && Arrivals(steps)[h] == Post(req)
            && s.handlers[h].Done? && s.handlers[h].reply.Executed? && s.handlers[h].reply.id == x
            && t.clientId == req.clientId && t.side == req.side && t.symbol == req.symbol
            && t.orig == req.quantity
            && (forall i :: 0 <= i < |s.handlers| && Drew(s.handlers[i], x) ==> i == h)
  {
    hide Reach, Arrivals;
    AlwaysAccounted(steps);
    var s := Reach(steps);
    assert TrackedFrom(s, Arrivals(steps), x, s.index[x]);
    req :| Answered(s.handlers, Arrivals(steps), x, req) && Fits(req, s.index[x]);
    h :| ServedFor(s.handlers, Arrivals(steps), x, req, h);
  }

  /** In every interleaving each order resting in a book was put there by a limit POST of the
      run for that symbol, on its side and at its price, for no more than its quantity. */
  lemma RestingIsPosted(steps: seq<Step>, sym: string, r: Resting) returns (h: nat, req: Request)
    requires sym in Reach(steps).books && RestsIn(Reach(steps).books[sym], r)
    ensures var s := Reach(steps);
            && h < |s.handlers| == |Arrivals(steps)| && Arrivals(steps)[h] == Post(req)
            && Drew(s.handlers[h], r.order.id)
            && req.symbol == sym && req.kind == Limit && r.order.kind == Limit
            && r.order.account == "" && r.order.side == req.side && r.order.price == req.price
            && r.order.quantity <= req.quantity
            && (forall i :: 0 <= i < |s.handlers| && Drew(s.handlers[i], r.order.id) ==> i == h)
  {
    hide Reach, Arrivals;
    AlwaysAccounted(steps);
    var s := Reach(steps);
    assert RestsFrom(s, Arrivals(steps), sym, r);
    req :| Drawn(s.handlers, Arrivals(steps), r.order.id, req) && FitsRest(req, sym, r);
    h :| DrewFor(s.handlers, Arrivals(steps), r.order.id, req, h);
  }

  // ---- What a POST trades ----

  /** Between `b` and `b'` a request is carried out as an order of no account under `id`: it
      trades what is on offer to it, and what is left of a limit request rests. */
  ghost predicate PostTrades(req: Request, id: string, fills: seq<Fill>, b: Book, b': Book) {
    var o := Order(id, "", req.side, req.kind, req.price, req.quantity);
    if req.side == Buy then TakenRightly(o, id, fills, b.bids, b.asks, b'.bids, b'.asks)
    else TakenRightly(o, id, fills, b.asks, b.bids, b'.asks, b'.bids)
  }

  lemma BookCallTrades(s: State, h: nat)
    requires Ok(s) && h < |s.handlers| && s.handlers[h].Numbered?
    ensures var req, id, s' := s.handlers[h].req, s.handlers[h].id, Advanced(s, h);
            && req.symbol in s.books && h < |s'.handlers| && s'.handlers[h].Updating?
            && (var fills := s'.handlers[h].fills;
                && s'.handlers[h] == Updating(req, id, fills, fills)
                && s'.books == s.books[req.symbol := s'.books[req.symbol]]
                && PostTrades(req, id, fills, s.books[req.symbol], s'.books[req.symbol]))
  {
    hide Ok, Match, Inv, Accept, Charged, TakenRightly;
    var req, id := s.handlers[h].req, s.handlers[h].id;
    NeverRejected(s, h, req, id);
    var b := s.books[req.symbol];
    InvSorted(b);
    AddIsRight(b, OrderOf(req, id), "");
  }

  /** Where an updating handler was a step before. */
  lemma UpdatingBack(s: State, step: Step, h: nat)
    requires h < |Next(s, step).handlers| && Next(s, step).handlers[h].Updating?
    ensures h < |s.handlers|
    ensures var g, g' := s.handlers[h], Next(s, step).handlers[h];
            || (g.Updating? && g.req == g'.req && g.id == g'.id && g.fills == g'.fills)
            || (step == Advance(h) && g == Numbered(g'.req, g'.id))
  {
    hide Advanced;
    if step.Advance? && step.h < |s.handlers| {
      OneMoves(s, step.h);
      if step.h == h {
        OwnUpdatingBack(s, h);
      }
    }
  }

  lemma OwnUpdatingBack(s: State, h: nat)
    requires h < |s.handlers| && OnlyHandler(s, Advanced(s, h), h)
    requires Advanced(s, h).handlers[h].Updating?
    ensures var g, g' := s.handlers[h], Advanced(s, h).handlers[h];
            || (g.Updating? && g.req == g'.req && g.id == g'.id && g.fills == g'.fills)
            || g == Numbered(g'.req, g'.id)
  {
    hide Known, AddVerdict, Add, Charged, AfterTrack, AfterCancel;
    if s.handlers[h].Updating? {
      UpdateEnds(s, h);
    } else if !s.handlers[h].Numbered? {
      OthersAnswerNothing(s, h);
    }
  }

  lemma OthersAnswerNothing(s: State, h: nat)
    requires h < |s.handlers| && OnlyHandler(s, Advanced(s, h), h)
    requires !s.handlers[h].Numbered? && !s.handlers[h].Updating?
    ensures var g, g' := s.handlers[h], Advanced(s, h).handlers[h];
            !g'.Updating? && (g'.Done? && g'.reply.Executed? ==> g == g')
  {
    hide AfterCancel, AfterAdd, AfterUpdate, AfterTrack;
    match s.handlers[h]
    case Found(_, _) => CancelEnds(s, h);
    case _ =>
  }

  /** Where a handler that has answered was a step before. */
  lemma AnsweredBack(s: State, step: Step, h: nat)
    requires h < |Next(s, step).handlers|
    requires var g' := Next(s, step).handlers[h]; g'.Done? && g'.reply.Executed?
    ensures h < |s.handlers|
    ensures var g, g' := s.handlers[h], Next(s, step).handlers[h];
            || g == g'
            || (step == Advance(h) && g.Updating? && g.id == g'.reply.id && g.fills == g'.reply.fills
                && TradedQty(g.fills) + g'.reply.leaves == g.req.quantity)
  {
    hide Advanced;
    if step.Advance? && step.h < |s.handlers| {
      OneMoves(s, step.h);
      if step.h == h {
        OwnAnsweredBack(s, h);
      }
    }
  }

  lemma OwnAnsweredBack(s: State, h: nat)
    requires h < |s.handlers| && OnlyHandler(s, Advanced(s, h), h)
    requires var g' := Advanced(s, h).handlers[h]; g'.Done? && g'.reply.Executed?
    ensures var g, g' := s.handlers[h], Advanced(s, h).handlers[h];
            || g == g'
            || (g.Updating? && g.id == g'.reply.id && g.fills == g'.reply.fills
                && TradedQty(g.fills) + g'.reply.leaves == g.req.quantity)
  {
    hide Known, AddVerdict, Add, Charged, AfterCancel;
    if !s.handlers[h].Numbered? && !s.handlers[h].Updating? {
      OthersAnswerNothing(s, h);
    }
  }

  /** `before` ends where handler `h` of `req` called the book under `id`, and got `fills`. */
  ghost predicate BookCall(before: seq<Step>, h: nat, req: Request, id: string, fills: seq<Fill>) {
    var s0, s1 := Reach(before), Next(Reach(before), Advance(h));
    && h < |s0.handlers| && s0.handlers[h] == Numbered(req, id)
    && req.symbol in s0.books && req.symbol in s1.books
    && PostTrades(req, id, fills, s0.books[req.symbol], s1.books[req.symbol])
  }

  lemma {:induction false} UpdatingHasBookCall(steps: seq<Step>, h: nat)
    returns (before: seq<Step>, more: seq<Step>)
    requires h < |Reach(steps).handlers| && Reach(steps).handlers[h].Updating?
    ensures steps == before + [Advance(h)] + more
    ensures var g := Reach(steps).handlers[h]; BookCall(before, h, g.req, g.id, g.fills)
  {
    hide Next, Ok, PostTrades, Advanced;
    NotAtStart(steps, h);
    var prev, last := steps[..|steps| - 1], steps[|steps| - 1];
    var s, g' := Reach(prev), Reach(steps).handlers[h];
    assert steps == prev + [last];
    UpdatingBack(s, last, h);
    if s.handlers[h].Updating? {
      before, more := UpdatingHasBookCall(prev, h);
      more := more + [last];
    } else {
      AlwaysOk(prev);
      BookCallTrades(s, h);
      AdvanceIs(s, h);
      before, more := prev, [];
    }
  }

  lemma NotAtStart(steps: seq<Step>, h: nat)
    requires h < |Reach(steps).handlers|
    ensures steps != []
  {
  }

  lemma AdvanceIs(s: State, h: nat)
    requires h < |s.handlers|
    ensures Next(s, Advance(h)) == Advanced(s, h)
  {
    hide Advanced;
  }

  lemma {:induction false} ArrivalsKept(before: seq<Step>, more: seq<Step>)
    ensures Arrivals(before) <= Arrivals(before + more)
    decreases |more|
  {
    hide Arrivals;
    if more == [] {
      assert before + more == before;
    } else {
      var most, last := more[..|more| - 1], more[|more| - 1];
      ArrivalsKept(before, most);
      ArrivalsNext(before + most, last);
      assert before + more == before + most + [last];
    }
  }

  /** Behind every answer Executed(id, fills, leaves) to a POST, in every interleaving, is the
      book call of its handler: at that moment the request traded what was on offer to it in
      the book of its symbol and left its rest there, and filled and leaves make up its
      quantity. */
  lemma {:induction false} AnswerHasBookCall(steps: seq<Step>, h: nat)
    returns (before: seq<Step>, more: seq<Step>, req: Request)
    requires var s := Reach(steps);
             h < |s.handlers| && s.handlers[h].Done? && s.handlers[h].reply.Executed?
    ensures var reply := Reach(steps).handlers[h].reply;
            && steps == before + [Advance(h)] + more
            && h < |Arrivals(steps)| && Arrivals(steps)[h] == Post(req)
            && BookCall(before, h, req, reply.id, reply.fills)
            && TradedQty(reply.fills) + reply.leaves == req.quantity
  {
    hide Next, Ok, Advanced, Arrivals, TradedQty;
    NotAtStart(steps, h);
    var prev, last := steps[..|steps| - 1], steps[|steps| - 1];
    var s := Reach(prev);
    assert steps == prev + [last];
    AnsweredBack(s, last, h);
    if s.handlers[h] == Reach(steps).handlers[h] {
      before, more, req := AnswerHasBookCall(prev, h);
      more := more + [last];
      ArrivalsKept(prev, [last]);
    } else {
      req := s.handlers[h].req;
      before, more := UpdatingHasBookCall(prev, h);
      more := more + [last];
      AlwaysAccounted(before);
      ServesAt(before, h);
      ArrivalsKept(before, [Advance(h)] + more);
      assert before + ([Advance(h)] + more) == steps;
    }
  }

  lemma ServesAt(steps: seq<Step>, h: nat)
    requires h < |Reach(steps).handlers|
    ensures h < |Arrivals(steps)| && Serves(Reach(steps).handlers[h], Arrivals(steps)[h])
  {
    hide Reach, Arrivals;
    AlwaysAccounted(steps);
  }
}
