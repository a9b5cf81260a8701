/** What each command is answered, and where its order stands afterwards, for every well-formed book. */
module BookAnswers {
  import opened Book
  import opened BookLemmas
  import opened BookEvents
  import opened BookProperties

  /** An execution by the incoming order, or the event that puts the order on the book. */
  predicate OwnEvent(e: Event, o: Order) {
    (e.Executed? && e.aggressorId == o.id && e.aggressorSide == o.side) || e == Added(o.id, o.side, o.price, o.open)
  }

  lemma {:induction false} OwnExecutions(opp: seq<Order>, id: nat, side: Side, limit: int, qty: nat, matchId: nat)
    ensures forall e | e in Match(opp, id, side, limit, qty, matchId).events ::
      e.Executed? && e.aggressorId == id && e.aggressorSide == side
  {
    if !(qty == 0 || opp == [] || !Crosses(side, limit, opp[0].price)) && qty >= opp[0].open {
      OwnExecutions(opp[1..], id, side, limit, qty - opp[0].open, matchId + 1);
    }
  }

  /** A trade fills what it can, says so, and leaves the own side alone. */
  lemma {:induction false} TradeAnswered(s: State, id: nat, side: Side, limit: int, qty: nat)
    requires Wf(s)
    ensures var o := Trade(s, id, side, limit, qty);
      && o.reply.filled == SharesOf(o.events) == Min(qty, CrossTotal(s.On(Opposite(side)), side, limit))
      && o.s.On(side) == s.On(side)
      && (forall x | s.Find(x).None? :: o.s.Find(x).None?)
      && (forall e | e in o.events :: e.Executed? && e.aggressorId == id && e.aggressorSide == side)
  {
    var opp := s.On(Opposite(side));
    FillsAllItCan(opp, id, side, limit, qty, s.nextMatch);
    TradeConserves(opp, id, side, limit, qty, s.nextMatch);
    OwnExecutions(opp, id, side, limit, qty, s.nextMatch);
    forall x | s.Find(x).None? ensures Trade(s, id, side, limit, qty).s.Find(x).None? {
      TradeAddsNoIds(s, id, side, limit, qty, x);
    }
    hide Match, CrossTotal, SharesOf, Total, CanceledShares, Get, Wf;
  }

  /** An order that comes to rest stands at the back of the queue of its price. */
  lemma {:induction false} RestStands(s: State, id: nat, side: Side, price: int, qty: nat)
    requires Sorted(s.On(side), side) && s.Find(id).None?
    ensures var s', o := Rest(s, id, side, price, qty), Order(id, side, price, qty);
      && s'.Find(id) == Some(o) && s'.On(Opposite(side)) == s.On(Opposite(side))
      && (forall x | x != id :: Get(s'.On(side), x) == Get(s.On(side), x))
      && AtPrice(s'.On(side), price) == AtPrice(s.On(side), price) + [o]
  {
    var l, o := s.On(side), Order(id, side, price, qty);
    forall x ensures Get(Insert(l, o), x) == if x == id then Some(o) else Get(l, x) { GetAfterInsert(l, o, x); }
    AtPriceAfterInsert(l, o, price);
    hide Insert, Get, AtPrice, Sorted;
  }

  /** An order that enters: what it executes is answered as filled, and the rest stands at its price. */
  ghost predicate Entered(s: State, o: Outcome, id: nat, side: Side, price: int, qty: nat) {
    var filled := SharesOf(o.events);
    && filled == Min(qty, CrossTotal(s.On(Opposite(side)), side, price))
    && o.s.Find(id) == (if filled < qty then Some(Order(id, side, price, qty - filled)) else None)
    && (forall x | x != id :: Get(o.s.On(side), x) == Get(s.On(side), x))
    && AtPrice(o.s.On(side), price)
       == AtPrice(s.On(side), price) + (if filled < qty then [Order(id, side, price, qty - filled)] else [])
  }

  lemma {:induction false} EnterAnswered(s: State, id: nat, side: Side, price: int, qty: nat)
    requires Wf(s) && s.Find(id).None?
    ensures var o := Enter(s, id, side, price, qty);
      && Entered(s, o, id, side, price, qty)
      && o.reply == AddReply(Ok, SharesOf(o.events), qty - SharesOf(o.events))
      && forall e | e in o.events :: OwnEvent(e, Order(id, side, price, qty - SharesOf(o.events)))
  {
    assert Sorted(s.On(side), side);
    hide *;
    var t := Trade(s, id, side, price, qty);
    TradeAnswered(s, id, side, price, qty);
    EnterIs(s, id, side, price, qty);
    if t.reply.filled < qty {
      RestAnswered(s, t, id, side, price, qty);
    } else {
      FilledUp(s, t, id, side, price, qty);
    }
  }

  lemma {:induction false} EnterIs(s: State, id: nat, side: Side, price: int, qty: nat)
    ensures var t, o := Trade(s, id, side, price, qty), Enter(s, id, side, price, qty);
      var left := qty - t.reply.filled;
      && o.reply == AddReply(Ok, t.reply.filled, left)
      && o.events == (if left > 0 then t.events + [Added(id, side, price, left)] else t.events)
      && o.s == if left > 0 then Rest(t.s, id, side, price, left) else t.s
  {
    hide Trade, Rest;
  }

  lemma {:induction false} RestAnswered(s: State, t: Outcome, id: nat, side: Side, price: int, qty: nat)
    requires t.reply.FillReply? && t.reply.filled == SharesOf(t.events) < qty && t.s.On(side) == s.On(side)
    requires SharesOf(t.events) == Min(qty, CrossTotal(s.On(Opposite(side)), side, price))
    requires Sorted(s.On(side), side) && t.s.Find(id).None?
    requires forall e | e in t.events :: e.Executed? && e.aggressorId == id && e.aggressorSide == side
    ensures var left := qty - t.reply.filled;
      var es := t.events + [Added(id, side, price, left)];
      && Entered(s, Outcome(Rest(t.s, id, side, price, left), AddReply(Ok, t.reply.filled, left), es), id, side, price,
        qty)
      && SharesOf(es) == t.reply.filled && forall e | e in es :: OwnEvent(e, Order(id, side, price, left))
  {
    var left := qty - t.reply.filled;
    RestStands(t.s, id, side, price, left);
    SharesAppend(t.events, [Added(id, side, price, left)]);
    SharesOfOne(Added(id, side, price, left));
    hide Rest, Get, CrossTotal, SharesOf, AtPrice, Sorted;
  }

  lemma {:induction false} FilledUp(s: State, t: Outcome, id: nat, side: Side, price: int, qty: nat)
    requires t.reply.FillReply? && t.reply.filled == SharesOf(t.events) == qty && t.s.On(side) == s.On(side)
    requires SharesOf(t.events) == Min(qty, CrossTotal(s.On(Opposite(side)), side, price)) && t.s.Find(id).None?
    requires forall e | e in t.events :: e.Executed? && e.aggressorId == id && e.aggressorSide == side
    ensures Entered(s, Outcome(t.s, AddReply(Ok, qty, 0), t.events), id, side, price, qty)
    ensures forall e | e in t.events :: OwnEvent(e, Order(id, side, price, 0))
  {
    hide Get, CrossTotal, SharesOf, AtPrice;
    assert AtPrice(s.On(side), price) + [] == AtPrice(s.On(side), price);
  }

  /**
   An add is answered with the first reason against it, and then nothing changes; otherwise with what it filled, which
   is the smaller of its size and what crosses its price, and with what then rests at exactly that price.
   */
  lemma {:induction false} AddAnswered(s: State, id: nat, side: Side, price: int, qty: nat)
    requires Wf(s)
    ensures var o := Apply(s, Add(id, side, price, qty));
      && o.reply.AddReply?
      && o.reply.status == (if price <= 0 then BadPrice else if qty == 0 then BadQty
        else if s.Find(id).Some? then DuplicateId else Ok)
      && (!o.reply.status.Ok? ==> o.s == s && o.events == [] && o.reply.filled == 0 && o.reply.resting == 0)
      && (o.reply.status.Ok? ==>
            && Entered(s, o, id, side, price, qty)
            && o.reply.filled == SharesOf(o.events) && o.reply.resting == qty - o.reply.filled
            && forall e | e in o.events :: OwnEvent(e, Order(id, side, price, o.reply.resting)))
  {
    if price > 0 && qty > 0 && s.Find(id).None? { EnterAnswered(s, id, side, price, qty); }
    hide Entered, Enter, Get, Wf, SharesOf, OwnEvent;
  }

  /** An immediate order is answered with what it filled, and nothing of it rests. */
  lemma {:induction false} ImmediateAnswered(s: State, id: nat, side: Side, limit: int, qty: nat)
    requires Wf(s)
    ensures var o := Apply(s, Immediate(id, side, limit, qty));
      && o.reply == FillReply(SharesOf(o.events))
      && SharesOf(o.events) == Min(qty, CrossTotal(s.On(Opposite(side)), side, limit))
      && o.s.On(side) == s.On(side)
      && (forall x | s.Find(x).None? :: o.s.Find(x).None?)
      && (forall e | e in o.events :: e.Executed? && e.aggressorId == id && e.aggressorSide == side)
  {
    TradeAnswered(s, id, side, limit, qty);
    hide Trade, SharesOf, CrossTotal, Get, Wf;
  }

  lemma {:induction false} SetOpenPlaces(l: seq<Order>, id: nat, open: nat)
    requires UniqueIds(l)
    ensures |SetOpen(l, id, open)| == |l|
    ensures forall i | 0 <= i < |l| :: SetOpen(l, id, open)[i] == if l[i].id == id then l[i].(open := open) else l[i]
  {
    if l != [] {
      SetOpenPlaces(l[1..], id, open);
      forall i | 0 <= i < |l|
        ensures SetOpen(l, id, open)[i] == if l[i].id == id then l[i].(open := open) else l[i]
      {
        if i > 0 {
          assert l[1..][i - 1] == l[i];
          if l[0].id == id && l[i].id == id { Repeated(l, i); }
        }
      }
    }
  }

  lemma {:induction false} Repeated(l: seq<Order>, i: nat)
    requires UniqueIds(l) && 0 < i < |l|
    ensures l[0].id != l[i].id
  {
    assert l[i] == l[1..][i - 1];
    AbsentId(l[1..], l[0].id, i - 1);
  }

  lemma {:induction false} AbsentId(l: seq<Order>, id: nat, i: nat)
    requires Get(l, id).None? && i < |l|
    ensures l[i].id != id
  {
    if i > 0 { AbsentId(l[1..], id, i - 1); }
  }

  /**
   A cancel succeeds exactly if the order rests with more than the shares to keep. It then keeps exactly these, in its
   place, or is gone; the event says how many were taken; every other order is as it was.
   */
  lemma {:induction false} CancelAnswered(s: State, id: nat, keep: nat)
    requires Wf(s)
    ensures var o, was := Apply(s, Cancel(id, keep)), s.Find(id);
      && o.reply == BoolReply(was.Some? && keep < was.value.open)
      && (!o.reply.ok ==> o.s == s && o.events == [])
      && (o.reply.ok ==>
            && o.events == [Canceled(id, was.value.open - keep, keep == 0)]
            && o.s.Find(id) == (if keep == 0 then None else Some(was.value.(open := keep)))
            && (forall x | x != id :: o.s.Find(x) == s.Find(x))
            && (keep > 0 ==> SamePlaces(s.bids, o.s.bids, id, keep) && SamePlaces(s.asks, o.s.asks, id, keep)))
  {
    var was := s.Find(id);
    if was.Some? && keep < was.value.open {
      FindSide(s, id);
      var l := s.On(was.value.side);
      forall x ensures Get(Remove(l, id), x) == if x == id then None else Get(l, x) { GetAfterRemove(l, id, x); }
      forall x ensures Get(SetOpen(l, id, keep), x)
        == if x == id && Get(l, x).Some? then Some(Get(l, x).value.(open := keep)) else Get(l, x)
      {
        GetAfterSetOpen(l, id, keep, x);
      }
      SetOpenPlaces(l, id, keep);
      Untouched(s.On(Opposite(was.value.side)), id, keep);
      hide Remove, SetOpen, Get, Wf;
    }
  }

  /** The same orders in the same order, `id` with `open` shares. */
  predicate SamePlaces(l: seq<Order>, l': seq<Order>, id: nat, open: nat) {
    |l'| == |l| && forall i | 0 <= i < |l| :: l'[i] == if l[i].id == id then l[i].(open := open) else l[i]
  }

  lemma {:induction false} Untouched(l: seq<Order>, id: nat, open: nat)
    requires Get(l, id).None?
    ensures SamePlaces(l, l, id, open)
  {
    forall i | 0 <= i < |l| ensures l[i].id != id { AbsentId(l, id, i); }
  }

  /**
   A replace succeeds exactly if the old order rests, the new id is new and price and size are positive. The old order
   is then gone, and the new one, on the same side, executes what crosses its price and stands with the rest at exactly
   that price, behind everyone there.
   */
  lemma {:induction false} ReplaceAnswered(s: State, oldId: nat, newId: nat, price: int, qty: nat)
    requires Wf(s)
    ensures var o, was := Apply(s, Replace(oldId, newId, price, qty)), s.Find(oldId);
      && o.reply == BoolReply(was.Some? && newId != oldId && s.Find(newId).None? && price > 0 && qty > 0)
      && (!o.reply.ok ==> o.s == s && o.events == [])
      && (o.reply.ok ==>
            var side := was.value.side;
            && o.s.Find(oldId).None?
            && Entered(s.With(side, Remove(s.On(side), oldId)), o, newId, side, price, qty)
            && SharesOf(o.events) == Min(qty, CrossTotal(s.On(Opposite(side)), side, price)))
  {
    var was := s.Find(oldId);
    if was.Some? && newId != oldId && s.Find(newId).None? && price > 0 && qty > 0 {
      FindSide(s, oldId);
      var side := was.value.side;
      var s1 := s.With(side, Remove(s.On(side), oldId));
      LegalKeeps(s, Canceled(oldId, was.value.open, true));
      GetAfterRemove(s.On(side), oldId, newId);
      GetAfterRemove(s.On(side), oldId, oldId);
      assert Wf(s1) && s1.Find(newId).None? && s1.Find(oldId).None?;
      if WouldCross(s1, side, price) {
        CrossingAnswered(s1, oldId, was.value.open, newId, side, price, qty);
      } else {
        JoiningAnswered(s1, oldId, newId, side, price, qty);
      }
      hide Entered, Enter, Remove, Get, Wf, SharesOf, CrossTotal, WouldCross, Rest;
    }
  }

  lemma {:induction false} CrossingAnswered(s: State, oldId: nat, open: nat, newId: nat, side: Side, price: int,
      qty: nat)
    requires Wf(s) && s.Find(newId).None? && s.Find(oldId).None? && newId != oldId
    ensures var t := Enter(s, newId, side, price, qty);
      var es := [Canceled(oldId, open, true)] + t.events;
      Entered(s, Outcome(t.s, BoolReply(true), es), newId, side, price, qty) && t.s.Find(oldId).None?
  {
    var t := Enter(s, newId, side, price, qty);
    EnterAnswered(s, newId, side, price, qty);
    SharesAppend([Canceled(oldId, open, true)], t.events);
    SharesOfOne(Canceled(oldId, open, true));
    EnterAddsOnly(s, newId, side, price, qty, oldId);
    hide Enter, SharesOf, CrossTotal, AtPrice, Get, Wf;
  }

  lemma {:induction false} EnterAddsOnly(s: State, id: nat, side: Side, price: int, qty: nat, x: nat)
    requires Wf(s) && s.Find(id).None? && s.Find(x).None? && x != id
    ensures Enter(s, id, side, price, qty).s.Find(x).None?
  {
    var t := Trade(s, id, side, price, qty);
    TradeAnswered(s, id, side, price, qty);
    if t.reply.filled < qty { RestStands(t.s, id, side, price, qty - t.reply.filled); }
    hide Trade, Rest, AtPrice, CrossTotal, SharesOf, Wf;
  }

  lemma {:induction false} JoiningAnswered(s: State, oldId: nat, newId: nat, side: Side, price: int, qty: nat)
    requires Wf(s) && s.Find(newId).None? && s.Find(oldId).None? && newId != oldId && qty > 0
      && !WouldCross(s, side, price)
    ensures var s' := Rest(s, newId, side, price, qty);
      var es := [Replaced(oldId, newId, side, price, qty)];
      Entered(s, Outcome(s', BoolReply(true), es), newId, side, price, qty) && s'.Find(oldId).None?
  {
    NothingCrosses(s.On(Opposite(side)), side, price);
    SharesOfOne(Replaced(oldId, newId, side, price, qty));
    RestStands(s, newId, side, price, qty);
    hide Rest, AtPrice, CrossTotal, SharesOf, Wf;
  }

  /** Bids fall and asks rise, and after every run every bid is below every ask. */
  lemma {:induction false} NeverCrossed(cs: seq<Command>, i: nat, j: nat)
    ensures var s := Run(cs).s;
      && (i < j < |s.bids| ==> s.bids[i].price >= s.bids[j].price)
      && (i < j < |s.asks| ==> s.asks[i].price <= s.asks[j].price)
      && (i < |s.bids| && j < |s.asks| ==> 0 < s.bids[i].price < s.asks[j].price)
  {
    RunExplained(cs);
    var s := Run(cs).s;
    hide Run;
    if i < j < |s.bids| { PricesInOrder(s.bids, Buy, i, j); }
    if i < j < |s.asks| { PricesInOrder(s.asks, Sell, i, j); }
    if i < |s.bids| && j < |s.asks| {
      SortedHead(s.bids, Buy, s.bids[i]);
      SortedHead(s.asks, Sell, s.asks[j]);
    }
    hide Sorted, UniqueIds;
  }

  lemma {:induction false} PricesInOrder(l: seq<Order>, side: Side, i: nat, j: nat)
    requires Sorted(l, side) && i < j < |l|
    ensures !Better(side, l[j].price, l[i].price)
  {
    if i == 0 { SortedHead(l, side, l[j]); } else { PricesInOrder(l[1..], side, i - 1, j - 1); }
  }
}
