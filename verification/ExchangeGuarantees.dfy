/** What clients of the exchange can rely on, in every interleaving and when handlers run one
    at a time. */
module ExchangeGuarantees {
  import opened Orders
  import opened FlatMatcher
  import opened BookSpec
  import opened BookInvariant
  import opened BookRuns
  import opened OrderIds
  import opened ExchangeProtocol

  // ---- Every interleaving ----

  /** A tracker entry never understates: it covers what rests and every fill still to be
      applied.  It overstates exactly by the fills and cancels that did not reach it. */
  lemma TrackerCovers(steps: seq<Step>, x: string)
    requires x in Reach(steps).index
    ensures var s := Reach(steps);
            && x in s.ledger
            && s.index[x].remaining == AtRest(s, x) + Pending(x, s.handlers)
                                       + s.ledger[x].lost + s.ledger[x].cancelled
            && AtRest(s, x) >= 0 && Pending(x, s.handlers) >= 0
            && s.ledger[x].lost >= 0 && s.ledger[x].cancelled >= 0
            && (s.index[x].remaining == AtRest(s, x) <==>
                  Pending(x, s.handlers) == 0 && s.ledger[x].lost == 0 && s.ledger[x].cancelled == 0)
  {
    var s := Reach(steps);
    AlwaysOk(steps);
    assert TrackerOk(s, x);
    IdAt(s, x);
    AtRestNonNegative(s, x);
  }

  /** The fill path never erases the tracker entry of an order that still rests, or that has
      another fill to come. */
  lemma FillPathErasesOnlySpent(steps: seq<Step>, h: nat, x: string)
    requires var s := Reach(steps); h < |s.handlers| && s.handlers[h].Updating?
    requires x in Reach(steps).index && x !in Next(Reach(steps), Advance(h)).index
    ensures var s' := Next(Reach(steps), Advance(h));
            x in s'.ledger && AtRest(s', x) == 0 && Pending(x, s'.handlers) == 0
  {
    hide Ok, Reach, AtRest, Pending, Owed;
    var s := Reach(steps);
    AlwaysOk(steps);
    if s.handlers[h].todo != [] {
      UpdateShape(s, h);
      EntryCovers(s, h);
    }
  }

  /** Every resting order whose POST is over is tracked, under its own symbol. */
  lemma RestingIsTracked(steps: seq<Step>, x: string)
    requires var s := Reach(steps); x in s.ledger && s.ledger[x].settled && AtRest(s, x) > 0
    ensures var s := Reach(steps);
            && x in s.index && s.index[x].symbol == s.ledger[x].symbol
            && s.index[x].symbol in s.books && Known(s.books[s.index[x].symbol], x)
  {
    var s := Reach(steps);
    AlwaysOk(steps);
    IdAt(s, x);
    assert TrackerOk(s, x) && BookOk(s, s.ledger[x].symbol);
    RestIsKnown(s.books[s.ledger[x].symbol], x);
  }

  /** So a DELETE of such an order that is not interrupted succeeds. */
  lemma DeleteSucceeds(steps: seq<Step>, x: string)
    requires var s := Reach(steps); x in s.ledger && s.ledger[x].settled && AtRest(s, x) > 0
    ensures var s := Reach(steps);
            var h := |s.handlers|;
            var s' := Next(Next(Next(Next(s, Delete(x)), Advance(h)), Advance(h)), Advance(h));
            && x in s.index && x !in s'.index && |s'.handlers| == h + 1
            && s'.handlers[h] == Done(CancelReport(x, s.index[x].orig - s.index[x].remaining))
            && x in s'.ledger && AtRest(s', x) == 0
  {
    hide Ok, Reach, Known, AtRest, Next;
    var s := Reach(steps);
    RestingIsTracked(steps, x);
    DeleteLookup(s, x);
    var s2 := Next(Next(s, Delete(x)), Advance(|s.handlers|));
    DeleteCancel(s2, |s.handlers|);
  }

  lemma DeleteLookup(s: State, x: string)
    requires x in s.index
    ensures var h := |s.handlers|;
            Next(Next(s, Delete(x)), Advance(h)) ==
            s.(handlers := s.handlers + [Found(x, s.index[x])])
  {
    assert (s.handlers + [Asked(x)])[|s.handlers| := Found(x, s.index[x])] ==
           s.handlers + [Found(x, s.index[x])];
  }

  lemma DeleteCancel(s: State, h: nat)
    requires h < |s.handlers| && s.handlers[h].Found?
    requires var d := s.handlers[h];
             && d.seen.symbol in s.books && Known(s.books[d.seen.symbol], d.id)
             && d.id in s.ledger && s.ledger[d.id].symbol == d.seen.symbol
    ensures var d := s.handlers[h];
            var s' := Next(Next(s, Advance(h)), Advance(h));
            && d.id !in s'.index && |s'.handlers| == |s.handlers|
            && s'.handlers[h] == Done(CancelReport(d.id, d.seen.orig - d.seen.remaining))
            && d.id in s'.ledger && AtRest(s', d.id) == 0
  {
    hide Known;
    var d := s.handlers[h];
    var b := s.books[d.seen.symbol];
    WithoutMoves(iset{d.id}, b.bids, d.id);
    WithoutMoves(iset{d.id}, b.asks, d.id);
    var s1 := Next(s, Advance(h));
    assert s1.handlers[h] == Erasing(d.id, d.seen);
    assert AtRest(s1, d.id) == 0;
  }

  /** The quantity a successful cancel reports as executed was executed. */
  lemma CancelReportSound(steps: seq<Step>, h: nat)
    requires var s := Reach(steps);
             h < |s.handlers| && s.handlers[h].Done? && s.handlers[h].reply.CancelReport?
    ensures var s := Reach(steps);
            var r := s.handlers[h].reply;
            r.id in s.ledger && 0 <= r.cum <= s.ledger[r.id].executed
  {
    AlwaysOk(steps);
    HandlerAt(Reach(steps), h);
  }

  // ---- What a cancel reports, exactly ----

  /** No step takes back what was executed. */
  lemma ExecutedGrows(s: State, step: Step, x: string)
    requires Ok(s) && x in s.ledger
    ensures x in Next(s, step).ledger && Next(s, step).ledger[x].executed >= s.ledger[x].executed
  {
    hide Ok, AtRest, Pending, AddVerdict, Add, Known, Cancel;
    if step.Advance? && step.h < |s.handlers| {
      var h := step.h;
      match s.handlers[h]
      case Checked(req) => FreshId(s, req.symbol);
      case Numbered(req, y) =>
        if x == y { AddTaker(s, h, req, y); } else { AddFlows(s, h, req, y, x); }
      case _ =>
    }
  }

  /** A DELETE of `id` whose lookup copied `seen`, at any later moment. */
  ghost predicate Follows(g: Handler, id: string, seen: Tracker) {
    || g == Found(id, seen) || g == Erasing(id, seen)
    || g == Done(CancelReport(id, seen.orig - seen.remaining)) || g == Done(NotCancelled(id))
  }

  lemma OneMoves(s: State, g: nat)
    requires g < |s.handlers|
    ensures OnlyHandler(s, Advanced(s, g), g)
  {
    hide Known, Cancel, AddVerdict, Add, Charged, BookQty, Leaves;
    match s.handlers[g]
    case Numbered(_, _) =>
    case Updating(_, _, _, _) =>
    case Found(_, _) =>
    case _ =>
  }

  lemma FollowsOwn(s: State, h: nat, id: string, seen: Tracker)
    requires h < |s.handlers| && Follows(s.handlers[h], id, seen)
    ensures h < |Advanced(s, h).handlers| && Follows(Advanced(s, h).handlers[h], id, seen)
  {
    hide Known, Cancel, AfterAdd, AfterUpdate, AfterTrack, BookQty;
  }

  lemma FollowsOn(s: State, step: Step, h: nat, id: string, seen: Tracker)
    requires h < |s.handlers| && Follows(s.handlers[h], id, seen)
    ensures h < |Next(s, step).handlers| && Follows(Next(s, step).handlers[h], id, seen)
  {
    hide Advanced, Follows;
    if step == Advance(h) {
      FollowsOwn(s, h, id, seen);
    } else if step.Advance? && step.h < |s.handlers| {
      OneMoves(s, step.h);
    }
  }

  /** Since the lookup: the handler still carries the copied entry, and execution only grew. */
  lemma {:induction false} SinceLookup(before: seq<Step>, h: nat, more: seq<Step>)
    requires var s0 := Reach(before);
             h < |s0.handlers| && s0.handlers[h].Asked? && s0.handlers[h].id in s0.index
    ensures var s0, s := Reach(before), Reach(before + [Advance(h)] + more);
            var id := s0.handlers[h].id;
            && h < |s.handlers| && Follows(s.handlers[h], id, s0.index[id])
            && id in s0.ledger && id in s.ledger
            && s.ledger[id].executed >= s0.ledger[id].executed
    decreases |more|
  {
    hide Reach, Ok, Next, Follows;
    var s0 := Reach(before);
    var id := s0.handlers[h].id;
    if more == [] {
      assert before + [Advance(h)] + [] == before + [Advance(h)];
      ReachNext(before, Advance(h));
      AlwaysOk(before);
      LookupOk(s0, h);
      ExecutedGrows(s0, Advance(h), id);
      LookedUp(s0, h);
    } else {
      var most, last := more[..|more| - 1], more[|more| - 1];
      SinceLookup(before, h, most);
      var steps := before + [Advance(h)] + most;
      assert before + [Advance(h)] + more == steps + [last];
      ReachNext(steps, last);
      AlwaysOk(steps);
      ExecutedGrows(Reach(steps), last, id);
      FollowsOn(Reach(steps), last, h, id, s0.index[id]);
    }
  }

  lemma LookedUp(s: State, h: nat)
    requires h < |s.handlers| && s.handlers[h].Asked? && s.handlers[h].id in s.index
    ensures var id := s.handlers[h].id;
            && h < |Next(s, Advance(h)).handlers|
            && Follows(Next(s, Advance(h)).handlers[h], id, s.index[id])
  {
  }

  /** In every interleaving a successful cancel reports what was executed by its lookup, less
      the fills then pending and those that had found no entry.  That is exactly what was
      executed by the end if and only if there were none, and nothing was executed since. */
  lemma CancelReportExact(before: seq<Step>, h: nat, more: seq<Step>)
    requires var s0 := Reach(before);
             h < |s0.handlers| && s0.handlers[h].Asked? && s0.handlers[h].id in s0.index
    requires var s := Reach(before + [Advance(h)] + more);
             h < |s.handlers| && s.handlers[h].Done? && s.handlers[h].reply.CancelReport?
    ensures var s0, s := Reach(before), Reach(before + [Advance(h)] + more);
            var id, cum := s0.handlers[h].id, s.handlers[h].reply.cum;
            && s.handlers[h].reply.id == id && id in s0.ledger && id in s.ledger
            && cum == s0.ledger[id].executed - Pending(id, s0.handlers) - s0.ledger[id].lost
            && (cum == s.ledger[id].executed <==>
                  && Pending(id, s0.handlers) == 0 && s0.ledger[id].lost == 0
                  && s.ledger[id].executed == s0.ledger[id].executed)
  {
    hide Reach, Ok, Next, Pending;
    AlwaysOk(before);
    LookupOk(Reach(before), h);
    SinceLookup(before, h, more);
  }

  /** The book takes every order of a POST that passed validation: no id is drawn twice. */
  lemma PostReachesBook(steps: seq<Step>, h: nat)
    requires var s := Reach(steps); h < |s.handlers| && s.handlers[h].Numbered?
    ensures Next(Reach(steps), Advance(h)).handlers[h].Updating?
  {
    hide Ok, Reach, Add, AddVerdict, Inv, Charged;
    var s := Reach(steps);
    AlwaysOk(steps);
    NeverRejected(s, h, s.handlers[h].req, s.handlers[h].id);
  }

  /** In every book of the exchange the best bid is below the best ask. */
  lemma NeverCrossed(steps: seq<Step>, symbol: string)
    requires symbol in Reach(steps).books
    ensures var b := Reach(steps).books[symbol];
            && (forall x, y :: x in b.bids && y in b.asks ==> x.order.price < y.order.price)
            && (b.bids != [] && b.asks != [] ==> Spread(b) > 0)
  {
    AlwaysOk(steps);
    assert BookOk(Reach(steps), symbol);
    AnonymousSpread(Reach(steps).books[symbol]);
  }

  ghost predicate AllDone(s: State) {
    forall i :: 0 <= i < |s.handlers| ==> s.handlers[i].Done?
  }

  lemma {:induction false} NothingPending(x: string, hs: seq<Handler>)
    requires forall i :: 0 <= i < |hs| ==> !hs[i].Updating?
    ensures Pending(x, hs) == 0
  {
    if hs != [] {
      forall i | 0 <= i < |hs[1..]| ensures !hs[1..][i].Updating? {
        assert hs[1..][i] == hs[i + 1];
      }
      NothingPending(x, hs[1..]);
    }
  }

  lemma SettledWhenDone(s: State, x: string)
    requires Ok(s) && AllDone(s) && x in s.ledger
    ensures s.ledger[x].settled
  {
    IdAt(s, x);
    assert !HasOwner(s.handlers, x);
  }

  /** With no handler in flight, every resting order is tracked, and an entry is off by exactly
      the fills that were applied before it was made: it is right if and only if there were
      none. */
  lemma QuiescentIndex(steps: seq<Step>, x: string)
    requires AllDone(Reach(steps)) && x in Reach(steps).ledger
    ensures var s := Reach(steps);
            && (AtRest(s, x) > 0 ==> x in s.index)
            && (x in s.index ==> s.index[x].remaining == AtRest(s, x) + s.ledger[x].lost)
            && (x in s.index ==> (s.index[x].remaining == AtRest(s, x) <==> s.ledger[x].lost == 0))
  {
    var s := Reach(steps);
    AlwaysOk(steps);
    SettledWhenDone(s, x);
    IdAt(s, x);
    NothingPending(x, s.handlers);
    AtRestNonNegative(s, x);
    if x in s.index {
      assert TrackerOk(s, x);
      assert !EraseDue(s.handlers, x);
    }
  }

  // ---- One handler at a time ----

  ghost predicate OneActive(s: State) {
    forall i, j :: 0 <= i < j < |s.handlers| ==> s.handlers[i].Done? || s.handlers[j].Done?
  }

  /** No request arrives while another is being handled. */
  ghost predicate Serial(steps: seq<Step>) {
    forall k :: 0 <= k < |steps| && !steps[k].Advance? ==> AllDone(Reach(steps[..k]))
  }

  ghost predicate SerialHandler(s: State, h: Handler) {
    match h
    case Found(id, seen) => id in s.index && s.index[id] == seen
    case Erasing(id, seen) =>
      && id in s.ledger && seen.orig - seen.remaining == s.ledger[id].executed
      && AtRest(s, id) == 0 && s.ledger[id].settled
    case Done(CancelReport(id, cum)) =>
      && id in s.ledger && cum == s.ledger[id].executed
      && AtRest(s, id) == 0 && s.ledger[id].settled
    case _ => true
  }

  ghost predicate SerialId(s: State, x: string)
    requires x in s.ledger
  {
    s.ledger[x].lost == 0 && (Pending(x, s.handlers) > 0 ==> x in s.index)
  }

  ghost predicate SerialOk(s: State) {
    && Ok(s) && OneActive(s)
    && (forall x :: x in s.ledger ==> SerialId(s, x))
    && (forall i :: 0 <= i < |s.handlers| ==> SerialHandler(s, s.handlers[i]))
  }

  lemma OthersDone(s: State, h: nat)
    requires OneActive(s) && h < |s.handlers| && !s.handlers[h].Done?
    ensures forall i :: 0 <= i < |s.handlers| && i != h ==> s.handlers[i].Done?
  {
  }

  /** An id with rest, other than the one a POST is just working on, is tracked. */
  lemma SerialTracked(s: State, h: nat, x: string)
    requires SerialOk(s) && h < |s.handlers| && !s.handlers[h].Done?
    requires x in s.ledger && AtRest(s, x) > 0 && !Owns(s.handlers[h], x)
    ensures x in s.index
  {
    OthersDone(s, h);
    IdAt(s, x);
    assert !HasOwner(s.handlers, x);
  }

  /** A finished cancel stays exact: nothing of the order is left to execute. */
  lemma SerialDone(s: State, s': State, g: Handler)
    requires g.Done? && SerialHandler(s, g)
    requires forall x :: x in s.ledger && s.ledger[x].settled && AtRest(s, x) == 0 ==>
               x in s'.ledger && s'.ledger[x].settled && AtRest(s', x) == 0
               && s'.ledger[x].executed == s.ledger[x].executed
    ensures SerialHandler(s', g)
  {
  }

  /** What a step of handler `h` does to the numbers of an id that is settled and spent. */
  ghost predicate SpentKept(s: State, s': State) {
    forall x :: x in s.ledger && s.ledger[x].settled && AtRest(s, x) == 0 ==>
      x in s'.ledger && s'.ledger[x].settled && AtRest(s', x) == 0
      && s'.ledger[x].executed == s.ledger[x].executed
  }

  lemma SerialStep(s: State, s': State, h: nat)
    requires SerialOk(s) && Ok(s') && OnlyHandler(s, s', h) && !s.handlers[h].Done?
    requires SpentKept(s, s')
    requires forall x :: x in s'.ledger ==> SerialId(s', x)
    requires SerialHandler(s', s'.handlers[h])
    ensures SerialOk(s')
  {
    OthersDone(s, h);
    forall i | 0 <= i < |s'.handlers| ensures SerialHandler(s', s'.handlers[i]) {
      if i != h {
        SerialDone(s, s', s.handlers[i]);
      }
    }
  }

  /** Nothing is pending while the one active handler is not applying fills. */
  lemma SerialNothingPending(s: State, h: nat, x: string)
    requires OneActive(s) && h < |s.handlers| && !s.handlers[h].Done? && !s.handlers[h].Updating?
    ensures Pending(x, s.handlers) == 0
  {
    OthersDone(s, h);
    NothingPending(x, s.handlers);
  }

  // Each kind of step: what it does to spent ids, to pending fills, and to its own handler.

  lemma SerialSame(s: State, s': State, h: nat)
    requires SerialOk(s) && Ok(s') && OnlyHandler(s, s', h) && !s.handlers[h].Done?
    requires BooksGrow(s, s')
    requires forall x :: x in s.ledger ==> x in s'.ledger && s'.ledger[x] == s.ledger[x]
    requires !s.handlers[h].Updating? && !s'.handlers[h].Updating?
    requires forall x :: x in s'.ledger && x !in s.ledger ==> s'.ledger[x].lost == 0
    requires SerialHandler(s', s'.handlers[h])
    ensures SerialOk(s')
  {
    forall x | x in s'.ledger ensures SerialId(s', x) {
      SerialNothingPending(s, h, x);
      PendingSwap(x, s.handlers, h, s'.handlers[h]);
      assert x in s.ledger ==> SerialId(s, x);
    }
    forall x | x in s.ledger ensures AtRest(s', x) == AtRest(s, x) {
      SameFlow(s, s', h, x);
    }
    SerialStep(s, s', h);
  }

  lemma SerialAdd(s: State, h: nat, req: Request, y: string)
    requires SerialOk(s) && h < |s.handlers| && s.handlers[h] == Numbered(req, y)
    ensures SerialOk(Advanced(s, h))
  {
    var s' := Advanced(s, h);
    AddStep(s, h, req, y);
    AddShape(s, h, req, y);
    AddTakerNumbers(s, h, req, y);
    DrawnNumbers(s, h, req, y);
    hide Ok, Advanced, AtRest, Pending, Match, Accept, HandlerOk;
    forall x | x in s'.ledger ensures SerialId(s', x) {
      if x != y {
        SerialAddId(s, h, req, y, x);
      }
    }
    forall x | x in s.ledger && s.ledger[x].settled && AtRest(s, x) == 0
      ensures x in s'.ledger && s'.ledger[x].settled && AtRest(s', x) == 0
      ensures s'.ledger[x].executed == s.ledger[x].executed
    {
      AddFlows(s, h, req, y, x);
      AddRest(s, h, req, y, x);
    }
    SerialStep(s, s', h);
  }

  lemma SerialAddId(s: State, h: nat, req: Request, y: string, x: string)
    requires SerialOk(s) && h < |s.handlers| && s.handlers[h] == Numbered(req, y)
    requires x in s.ledger && x != y
    ensures x in Advanced(s, h).ledger && SerialId(Advanced(s, h), x)
  {
    var s' := Advanced(s, h);
    AddFlows(s, h, req, y, x);
    AddShape(s, h, req, y);
    AddRest(s, h, req, y, x);
    assert SerialId(s, x);
    SerialNothingPending(s, h, x);
    hide Ok, Advanced, Match, Accept, HandlerOk;
    if Pending(x, s'.handlers) > 0 {
      SerialTracked(s, h, x);
    }
  }

  lemma SerialUpdate(s: State, h: nat)
    requires SerialOk(s) && AboutToUpdate(s, h)
    ensures SerialOk(AfterUpdate(s, h))
  {
    var s' := AfterUpdate(s, h);
    var m := s.handlers[h].todo[0].makerId;
    UpdateStep(s, h);
    UpdateShape(s, h);
    SerialMaker(s, h);
    hide Ok, AfterUpdate, AtRest, Pending, HandlerOk;
    forall x | x in s'.ledger ensures SerialId(s', x) && s'.ledger[x] == s.ledger[x]
      ensures AtRest(s', x) == AtRest(s, x)
    {
      if x != m {
        SerialUpdateOther(s, h, x);
      }
    }
    SerialStep(s, s', h);
  }

  lemma SerialUpdateOther(s: State, h: nat, x: string)
    requires SerialOk(s) && AboutToUpdate(s, h) && x in s.ledger
    requires x != s.handlers[h].todo[0].makerId
    ensures var s' := AfterUpdate(s, h);
            && x in s'.ledger && SerialId(s', x) && s'.ledger[x] == s.ledger[x]
            && AtRest(s', x) == AtRest(s, x)
  {
    hide Ok, HandlerOk, AtRest, Pending;
    UpdateShape(s, h);
    assert SerialId(s, x);
    SameFlow(s, AfterUpdate(s, h), h, x);
    PendingSwap(x, s.handlers, h, AfterUpdate(s, h).handlers[h]);
  }

  /** One at a time, a fill always finds the maker's entry. */
  lemma SerialMaker(s: State, h: nat)
    requires SerialOk(s) && AboutToUpdate(s, h)
    ensures var m := s.handlers[h].todo[0].makerId;
            var s' := AfterUpdate(s, h);
            && m in s.ledger && m in s.index && m in s'.ledger
            && s'.ledger[m] == s.ledger[m] && AtRest(s', m) == AtRest(s, m) && SerialId(s', m)
  {
    var u := s.handlers[h];
    var f := u.todo[0];
    var m := f.makerId;
    HandlerAt(s, h);
    assert f in u.todo;
    OkTodos(s);
    PendingNonNegative(m, s.handlers);
    FillsNonNegative(iset{m}, u.todo[1..]);
    assert TodoOf(m, u) > 0;
    assert SerialId(s, m);
    EntryCovers(s, h);
  }

  lemma SerialTrack(s: State, h: nat)
    requires SerialOk(s) && h < |s.handlers| && s.handlers[h].Updating? && s.handlers[h].todo == []
    ensures SerialOk(AfterTrack(s, h))
  {
    hide Ok, AfterTrack, AtRest, Pending, HandlerOk, SerialId;
    var s' := AfterTrack(s, h);
    TrackStep(s, h);
    TrackShape(s, h);
    forall x | x in s'.ledger
      ensures SerialId(s', x) && AtRest(s', x) == AtRest(s, x)
      ensures s'.ledger[x].executed == s.ledger[x].executed
      ensures s.ledger[x].settled ==> s'.ledger[x].settled
    {
      SerialTrackId(s, h, x);
    }
    SerialStep(s, s', h);
  }

  lemma SerialTrackId(s: State, h: nat, x: string)
    requires SerialOk(s) && h < |s.handlers| && s.handlers[h].Updating? && s.handlers[h].todo == []
    requires x in s.ledger
    ensures var s' := AfterTrack(s, h);
            && x in s'.ledger && SerialId(s', x) && AtRest(s', x) == AtRest(s, x)
            && s'.ledger[x].executed == s.ledger[x].executed
            && (s.ledger[x].settled ==> s'.ledger[x].settled)
  {
    hide Ok, Pending, HandlerOk;
    assert SerialId(s, x);
    PendingSwap(x, s.handlers, h, AfterTrack(s, h).handlers[h]);
  }

  lemma SerialCancel(s: State, h: nat)
    requires SerialOk(s) && AboutToCancel(s, h)
    ensures SerialOk(AfterCancel(s, h))
  {
    hide Ok, AfterCancel, AtRest, Pending, HandlerOk, Known, SerialId, SerialHandler;
    var s' := AfterCancel(s, h);
    CancelStep(s, h);
    CancelShape(s, h);
    forall x | x in s'.ledger
      ensures SerialId(s', x) && 0 <= AtRest(s', x) <= AtRest(s, x)
      ensures s'.ledger[x].executed == s.ledger[x].executed
      ensures s'.ledger[x].settled == s.ledger[x].settled
    {
      SerialCancelId(s, h, x);
      CancelRest(s, h, x);
    }
    SerialCancelSelf(s, h);
    SerialStep(s, s', h);
  }

  lemma SerialCancelId(s: State, h: nat, x: string)
    requires SerialOk(s) && AboutToCancel(s, h) && x in s.ledger
    ensures x in AfterCancel(s, h).ledger && SerialId(AfterCancel(s, h), x)
  {
    hide Ok, Pending, HandlerOk, Known;
    assert SerialId(s, x);
    SerialNothingPending(s, h, x);
    PendingSwap(x, s.handlers, h, AfterCancel(s, h).handlers[h]);
  }

  lemma SerialCancelSelf(s: State, h: nat)
    requires SerialOk(s) && AboutToCancel(s, h)
    ensures SerialHandler(AfterCancel(s, h), AfterCancel(s, h).handlers[h])
  {
    hide Ok, Pending, HandlerOk, Known, AtRest;
    SerialSeen(s, h);
    CancelFlows(s, h, s.handlers[h].id);
  }

  lemma CancelRest(s: State, h: nat, x: string)
    requires AboutToCancel(s, h) && x in s.ledger
    ensures var s' := AfterCancel(s, h);
            x in s'.ledger && 0 <= AtRest(s', x) <= AtRest(s, x)
            && s'.ledger[x].executed == s.ledger[x].executed
            && s'.ledger[x].settled == s.ledger[x].settled
  {
    CancelFlows(s, h, x);
  }

  /** The entry a DELETE has copied says exactly what was executed. */
  lemma SerialSeen(s: State, h: nat)
    requires SerialOk(s) && h < |s.handlers| && s.handlers[h].Found?
    ensures var d := s.handlers[h];
            && d.id in s.ledger && s.ledger[d.id].settled
            && d.seen.orig - d.seen.remaining == s.ledger[d.id].executed
  {
    var d := s.handlers[h];
    assert SerialHandler(s, d) && TrackerOk(s, d.id) && SerialId(s, d.id);
    SerialNothingPending(s, h, d.id);
  }

  lemma SerialQuiet(s: State, h: nat)
    requires SerialOk(s) && h < |s.handlers|
    requires var g := s.handlers[h];
             g.Posted? || g.Asked? || g.Showing? || g.Reading? || g.Checked?
    ensures SerialOk(Advanced(s, h))
  {
    hide Ok, AtRest, Pending, HandlerOk, SerialId;
    AdvanceKeeps(s, h);
    if s.handlers[h].Checked? {
      FreshId(s, s.handlers[h].req.symbol);
    }
    SerialSame(s, Advanced(s, h), h);
  }

  lemma SerialFound(s: State, h: nat)
    requires SerialOk(s) && h < |s.handlers| && s.handlers[h].Found?
    ensures SerialOk(Advanced(s, h))
  {
    hide Ok, AtRest, Pending, SerialId, Known, SerialHandler;
    HandlerAt(s, h);
    AdvanceKeeps(s, h);
    SymbolHasBookOk(s, s.handlers[h].id);
    if Known(s.books[s.handlers[h].seen.symbol], s.handlers[h].id) {
      SerialCancel(s, h);
    } else {
      DoneIsSerial(Advanced(s, h), NotCancelled(s.handlers[h].id));
      SerialSame(s, Advanced(s, h), h);
    }
  }

  lemma SymbolHasBookOk(s: State, x: string)
    requires Ok(s) && x in s.ledger
    ensures s.ledger[x].symbol in s.books
  {
    IdAt(s, x);
  }

  lemma DoneIsSerial(s: State, r: Reply)
    requires !r.CancelReport?
    ensures SerialHandler(s, Done(r))
  {
  }

  lemma SerialErase(s: State, h: nat)
    requires SerialOk(s) && h < |s.handlers| && s.handlers[h].Erasing?
    ensures SerialOk(Advanced(s, h))
  {
    hide Ok, Pending, HandlerOk, SerialId;
    AdvanceKeeps(s, h);
    assert SerialHandler(s, s.handlers[h]);
    SerialSame(s, Advanced(s, h), h);
  }

  lemma SerialAdvance(s: State, h: nat)
    requires SerialOk(s) && h < |s.handlers|
    ensures SerialOk(Advanced(s, h))
  {
    hide SerialOk;
    SerialIsOk(s);
    match s.handlers[h]
    case Numbered(req, id) => SerialAdd(s, h, req, id);
    case Updating(_, _, _, todo) =>
      if todo != [] { SerialUpdate(s, h); } else { SerialTrack(s, h); }
    case Found(_, _) => SerialFound(s, h);
    case Erasing(_, _) => SerialErase(s, h);
    case Done(_) =>
    case _ => SerialQuiet(s, h);
  }

  lemma SerialIsOk(s: State)
    requires SerialOk(s)
    ensures Ok(s)
    ensures forall i :: 0 <= i < |s.handlers| && s.handlers[i].Numbered? ==>
              s.handlers[i].req.symbol in s.books
  {
    forall i | 0 <= i < |s.handlers| && s.handlers[i].Numbered?
      ensures s.handlers[i].req.symbol in s.books
    {
      HandlerAt(s, i);
    }
  }

  lemma SerialArrive(s: State, g: Handler)
    requires SerialOk(s) && AllDone(s) && (g.Posted? || g.Asked? || g.Showing?)
    ensures SerialOk(s.(handlers := s.handlers + [g]))
  {
    var s' := s.(handlers := s.handlers + [g]);
    ArriveStep(s, g);
    forall x | x in s'.ledger ensures SerialId(s', x) {
      assert SerialId(s, x);
      PendingAppend(x, s.handlers, g);
    }
    forall i | 0 <= i < |s'.handlers| ensures SerialHandler(s', s'.handlers[i]) {
      if i < |s.handlers| {
        assert SerialHandler(s, s.handlers[i]);
      }
    }
  }

  lemma {:induction false} SerialRun(steps: seq<Step>)
    requires Serial(steps)
    ensures SerialOk(Reach(steps))
  {
    if steps != [] {
      var before := steps[..|steps| - 1];
      forall k | 0 <= k < |before| && !before[k].Advance? ensures AllDone(Reach(before[..k])) {
        assert steps[..k] == before[..k];
      }
      SerialRun(before);
      match steps[|steps| - 1]
      case Post(req) => SerialArrive(Reach(before), Posted(req));
      case Delete(id) => SerialArrive(Reach(before), Asked(id));
      case Show(symbol) => SerialArrive(Reach(before), Showing(symbol));
      case Advance(h) =>
        if h < |Reach(before).handlers| {
          SerialAdvance(Reach(before), h);
        }
    }
  }

  /** One at a time, a cancel reports exactly what was executed ... */
  lemma SerialCancelExact(steps: seq<Step>, h: nat)
    requires Serial(steps)
    requires var s := Reach(steps);
             h < |s.handlers| && s.handlers[h].Done? && s.handlers[h].reply.CancelReport?
    ensures var s := Reach(steps);
            var r := s.handlers[h].reply;
            r.id in s.ledger && r.cum == s.ledger[r.id].executed
  {
    SerialRun(steps);
    assert SerialHandler(Reach(steps), Reach(steps).handlers[h]);
  }

  /** ... and between requests the tracker is exactly what rests in the books. */
  lemma SerialIndexExact(steps: seq<Step>, x: string)
    requires Serial(steps) && AllDone(Reach(steps))
    ensures var s := Reach(steps);
            && (x in s.index <==> x in s.ledger && AtRest(s, x) > 0)
            && (x in s.index ==> s.index[x].remaining == AtRest(s, x)
                                 && s.index[x].symbol == s.ledger[x].symbol)
  {
    var s := Reach(steps);
    SerialRun(steps);
    TrackedIds(s);
    if x in s.ledger {
      assert SerialId(s, x);
      QuiescentIndex(steps, x);
      if x in s.index {
        assert TrackerOk(s, x);
      }
    }
  }

  ghost predicate RestsIn(b: Book, r: Resting) {
    r in b.bids || r in b.asks
  }

  /** The tracker holds exactly the resting orders of all books, with their quantities. */
  ghost predicate Mirrors(books: map<string, Book>, index: map<string, Tracker>) {
    && (forall sym, r :: sym in books && RestsIn(books[sym], r) ==>
          && r.order.id in index && index[r.order.id].symbol == sym
          && index[r.order.id].remaining == r.order.quantity)
    && (forall x :: x in index ==>
          && index[x].symbol in books
          && exists r :: RestsIn(books[index[x].symbol], r) && r.order.id == x)
  }

  lemma {:induction false} QtyOfOne(rs: seq<Resting>, r: Resting)
    requires DistinctIds(rs) && r in rs
    ensures QtyIn(iset{r.order.id}, rs) == r.order.quantity
  {
    if rs[0] == r {
      QtyInAbsent(r.order.id, rs[1..]);
    } else {
      QtyOfOne(rs[1..], r);
    }
  }

  lemma RestIs(b: Book, r: Resting)
    requires Inv(b) && RestsIn(b, r)
    ensures BookQty(iset{r.order.id}, b) == r.order.quantity > 0
  {
    if r in b.bids {
      assert Rests(Buy, b.clock, r);
      QtyOfOne(b.bids, r);
      QtyInAbsent(r.order.id, b.asks);
    } else {
      assert Rests(Sell, b.clock, r);
      QtyOfOne(b.asks, r);
      QtyInAbsent(r.order.id, b.bids);
    }
  }

  lemma SerialIndexMirrors(steps: seq<Step>)
    requires Serial(steps) && AllDone(Reach(steps))
    ensures Mirrors(Reach(steps).books, Reach(steps).index)
  {
    hide Inv, Reach, AtRest, Ok;
    var s := Reach(steps);
    forall sym, r | sym in s.books && RestsIn(s.books[sym], r)
      ensures r.order.id in s.index && s.index[r.order.id].symbol == sym
      ensures s.index[r.order.id].remaining == r.order.quantity
    {
      RestingEntry(steps, sym, r);
    }
    forall x | x in s.index
      ensures s.index[x].symbol in s.books
      ensures exists r :: RestsIn(s.books[s.index[x].symbol], r) && r.order.id == x
    {
      EntryRests(steps, x);
    }
  }

  lemma RestingEntry(steps: seq<Step>, sym: string, r: Resting)
    requires Serial(steps) && AllDone(Reach(steps))
    requires sym in Reach(steps).books && RestsIn(Reach(steps).books[sym], r)
    ensures var s := Reach(steps);
            && r.order.id in s.index && s.index[r.order.id].symbol == sym
            && s.index[r.order.id].remaining == r.order.quantity
  {
    var s := Reach(steps);
    AlwaysOk(steps);
    assert BookOk(s, sym);
    RestIs(s.books[sym], r);
    SerialIndexExact(steps, r.order.id);
  }

  lemma EntryRests(steps: seq<Step>, x: string)
    requires Serial(steps) && AllDone(Reach(steps)) && x in Reach(steps).index
    ensures var s := Reach(steps);
            && s.index[x].symbol in s.books
            && exists r :: RestsIn(s.books[s.index[x].symbol], r) && r.order.id == x
  {
    var s := Reach(steps);
    SerialIndexExact(steps, x);
    AlwaysOk(steps);
    IdAt(s, x);
    var b := s.books[s.index[x].symbol];
    RestIsKnown(b, x);
    var r :| (r in b.bids || r in b.asks) && r.order.id == x;
    assert RestsIn(b, r);
  }

  // ---- Exactness does not survive interleaving ----

  lemma ReachNext(steps: seq<Step>, step: Step)
    ensures Reach(steps + [step]) == Next(Reach(steps), step)
  {
    assert (steps + [step])[..|steps|] == steps;
  }

  const SELLER := "ORD-A-1"
  const BUYER := "ORD-A-2"

  function Trade(side: Side, q: int, p: int): Request {
    Request("A", side, Limit, q, p, "")
  }

  function TheFill(q: int, p: int): Fill {
    Fill(SELLER, BUYER, p, q)
  }

  /** The seller rests in the book; its POST has not reached the tracker. */
  function SellerInBook(q: int, p: int): State
    requires q > 0 && p > 0
  {
    var sell := Trade(Sell, q, p);
    State(map["A" := Book([], [Resting(OrderOf(sell, SELLER), 0)], 1)], map[], 1,
          [Updating(sell, SELLER, [], []), Posted(Trade(Buy, q, p))],
          map[SELLER := History("A", false, 0, 0, 0)])
  }

  /** The buyer has taken it; neither POST has touched the tracker. */
  function SellerTaken(q: int, p: int): State
    requires q > 0 && p > 0
  {
    var fill := TheFill(q, p);
    State(map["A" := Book([], [], 2)], map[], 2,
          [Updating(Trade(Sell, q, p), SELLER, [], []),
           Updating(Trade(Buy, q, p), BUYER, [fill], [fill])],
          map[SELLER := History("A", false, q, 0, 0), BUYER := History("A", false, q, 0, 0)])
  }

  lemma TheIds()
    ensures OrderId("A", 1) == SELLER && OrderId("A", 2) == BUYER && SELLER != BUYER
  {
    assert Decimal(1) == "1" && Decimal(2) == "2";
    assert SELLER[6] != BUYER[6];
  }

  lemma SellerArrives(q: int, p: int)
    requires q > 0 && p > 0
    ensures Reach([Post(Trade(Sell, q, p)), Post(Trade(Buy, q, p))]) ==
            START.(handlers := [Posted(Trade(Sell, q, p)), Posted(Trade(Buy, q, p))])
  {
    var sell, buy := Post(Trade(Sell, q, p)), Post(Trade(Buy, q, p));
    ReachNext([], sell);
    ReachNext([sell], buy);
    assert [] + [sell] == [sell];
    assert [sell] + [buy] == [sell, buy];
  }

  lemma SellerNumbered(q: int, p: int)
    requires q > 0 && p > 0
    ensures var s := START.(handlers := [Posted(Trade(Sell, q, p)), Posted(Trade(Buy, q, p))]);
            Next(Next(s, Advance(0)), Advance(0)) ==
            State(map["A" := EMPTY], map[], 1,
                  [Numbered(Trade(Sell, q, p), SELLER), Posted(Trade(Buy, q, p))],
                  map[SELLER := History("A", false, 0, 0, 0)])
  {
    TheIds();
    hide OrderId, Decimal;
  }

  lemma SellerBooked(q: int, p: int)
    requires q > 0 && p > 0
    ensures var s := State(map["A" := EMPTY], map[], 1,
                           [Numbered(Trade(Sell, q, p), SELLER), Posted(Trade(Buy, q, p))],
                           map[SELLER := History("A", false, 0, 0, 0)]);
            Next(s, Advance(0)) == SellerInBook(q, p)
  {
    hide AddVerdict, Add;
    OneSeller(q, p, SELLER);
    assert Charged(map[SELLER := History("A", false, 0, 0, 0)], SELLER, [])
        == map[SELLER := History("A", false, 0, 0, 0)];
  }

  lemma BuyerNumbered(q: int, p: int)
    requires q > 0 && p > 0
    ensures Next(Next(SellerInBook(q, p), Advance(1)), Advance(1)) ==
            SellerInBook(q, p).(
              counter := 2,
              handlers := [Updating(Trade(Sell, q, p), SELLER, [], []),
                           Numbered(Trade(Buy, q, p), BUYER)],
              ledger := map[SELLER := History("A", false, 0, 0, 0),
                            BUYER := History("A", false, 0, 0, 0)])
  {
    TheIds();
    hide OrderId, Decimal;
  }

  lemma BuyerFills(q: int, p: int)
    requires q > 0 && p > 0
    ensures var s := SellerInBook(q, p).(
                       counter := 2,
                       handlers := [Updating(Trade(Sell, q, p), SELLER, [], []),
                                    Numbered(Trade(Buy, q, p), BUYER)],
                       ledger := map[SELLER := History("A", false, 0, 0, 0),
                                     BUYER := History("A", false, 0, 0, 0)]);
            Next(s, Advance(1)) == SellerTaken(q, p)
  {
    hide AddVerdict, Add;
    TheIds();
    OneFill(q, p, SELLER, BUYER);
    var fills := [TheFill(q, p)];
    assert fills[1..] == [];
    var maker := fills[0].makerId;
    assert maker == SELLER && maker !in iset{BUYER} && maker in iset{SELLER};
    assert MadeIn(iset{SELLER}, fills[1..]) == 0 && MadeIn(iset{BUYER}, fills[1..]) == 0;
    assert MadeIn(iset{SELLER}, fills) == q;
    assert MadeIn(iset{BUYER}, fills) == 0;
    assert TradedQty(fills) == q;
    assert Charged(map[SELLER := History("A", false, 0, 0, 0),
                       BUYER := History("A", false, 0, 0, 0)], BUYER, [TheFill(q, p)])
        == SellerTaken(q, p).ledger;
  }

  lemma TrackersLast(q: int, p: int)
    requires q > 0 && p > 0
    ensures var s := Next(Next(Next(SellerTaken(q, p), Advance(1)), Advance(1)), Advance(0));
            && AllDone(s) && SELLER in s.index && SELLER in s.ledger
            && AtRest(s, SELLER) == 0 && s.index[SELLER].remaining == q
  {
    TheIds();
    var s1 := Next(SellerTaken(q, p), Advance(1));
    assert s1.handlers[1] == Updating(Trade(Buy, q, p), BUYER, [TheFill(q, p)], []);
    var s2 := Next(s1, Advance(1));
    assert s2.handlers[1].Done?;
    var s3 := Next(s2, Advance(0));
    assert SELLER in s3.index && s3.index[SELLER].remaining == q;
  }

  /** A sell order that is filled between its book call and its tracking: both handlers finish,
      nothing rests, and an entry for the full quantity stays behind. */
  lemma StaleEntry(q: int, p: int) returns (steps: seq<Step>)
    requires q > 0 && p > 0
    ensures var s := Reach(steps);
            && AllDone(s) && SELLER in s.index && SELLER in s.ledger
            && AtRest(s, SELLER) == 0 && s.index[SELLER].remaining == q
  {
    hide Reach, Next, AtRest, AllDone, SellerInBook, SellerTaken;
    SellerArrives(q, p);
    SellerNumbered(q, p);
    SellerBooked(q, p);
    BuyerNumbered(q, p);
    BuyerFills(q, p);
    TrackersLast(q, p);
    steps := [Post(Trade(Sell, q, p)), Post(Trade(Buy, q, p))];
    steps := Then(steps, 0);
    steps := Then(steps, 0);
    steps := Then(steps, 0);
    steps := Then(steps, 1);
    steps := Then(steps, 1);
    steps := Then(steps, 1);
    steps := Then(steps, 1);
    steps := Then(steps, 1);
    steps := Then(steps, 0);
  }

  lemma Then(steps: seq<Step>, h: nat) returns (more: seq<Step>)
    ensures Reach(more) == Next(Reach(steps), Advance(h))
  {
    more := steps + [Advance(h)];
    ReachNext(steps, Advance(h));
  }

  lemma OneSeller(q: int, p: int, x: string)
    requires q > 0 && p > 0 && x != ""
    ensures var o := Order(x, "", Sell, Limit, p, q);
            && AddVerdict(EMPTY, o, "") == Accepted([])
            && Add(EMPTY, o, "") == Book([], [Resting(o, 0)], 1)
  {
    var o := Order(x, "", Sell, Limit, p, q);
    assert Match(o, []) == Outcome([], [], q);
    assert o.(quantity := q) == o;
  }

  lemma OneFill(q: int, p: int, x: string, y: string)
    requires q > 0 && p > 0 && x != y && y != ""
    ensures var m := Resting(Order(x, "", Sell, Limit, p, q), 0);
            var o := Order(y, "", Buy, Limit, p, q);
            var b := Book([], [m], 1);
            && AddVerdict(b, o, "") == Accepted([Fill(x, y, p, q)])
            && Add(b, o, "") == Book([], [], 2)
  {
    var m := Resting(Order(x, "", Sell, Limit, p, q), 0);
    var o := Order(y, "", Buy, Limit, p, q);
    assert Match(o.(quantity := 0), []) == Outcome([], [], 0);
    assert Match(o, [m]) == Outcome([Fill(x, y, p, q)], [], 0);
    assert !HasId([m], y);
  }
}
