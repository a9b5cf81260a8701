/** One execution of a trade, as both books' matching loops make it. */
module Matching {
  import opened Book
  import opened BookLemmas
  import opened BookEvents

  /** The next execution of an incoming order: with the front of the opposite side. */
  function NextFill(s: State, id: nat, side: Side, qty: nat): Event
    requires s.On(Opposite(side)) != []
  {
    var o := s.On(Opposite(side))[0];
    Executed(o.id, id, side, o.price, if qty < o.open then qty else o.open, s.nextMatch)
  }

  /** Making one execution leaves the same trade to finish. */
  lemma {:induction false} TradeStep(s: State, id: nat, side: Side, limit: int, qty: nat)
    requires Wf(s) && qty > 0 && WouldCross(s, side, limit)
    ensures var e := NextFill(s, id, side, qty); var s' := After(s, e);
      && Legal(s, e) && Wf(s') && 0 < e.qty <= qty
      && s'.On(side) == s.On(side)
      && var t, t' := Trade(s, id, side, limit, qty), Trade(s', id, side, limit, qty - e.qty);
      && t.s == t'.s && t.events == [e] + t'.events && t.reply.filled == e.qty + t'.reply.filled
  {
    var opp := s.On(Opposite(side));
    var e := NextFill(s, id, side, qty);
    SortedHead(opp, Opposite(side), opp[0]);
    LegalKeeps(s, e);
    if qty < opp[0].open {
      assert After(s, e).On(Opposite(side)) == [opp[0].(open := opp[0].open - qty)] + opp[1..];
    } else {
      assert After(s, e).On(Opposite(side)) == opp[1..];
    }
  }

  /** `filled` shares and the events `done` of a trade are behind us; what is left of it is a trade from `s`. */
  ghost predicate Remaining(t: Outcome, filled: nat, done: seq<Event>, s: State, id: nat, side: Side, limit: int,
      qty: nat) {
    var t' := Trade(s, id, side, limit, qty);
    t.s == t'.s && t.events == done + t'.events && t.reply.FillReply? && t.reply.filled == filled + t'.reply.filled
  }

  lemma {:induction false} RemainingStep(t: Outcome, filled: nat, done: seq<Event>, s: State, id: nat, side: Side,
      limit: int, qty: nat)
    requires Wf(s) && qty > 0 && WouldCross(s, side, limit) && Remaining(t, filled, done, s, id, side, limit, qty)
    ensures var e := NextFill(s, id, side, qty);
      && 0 < e.qty <= qty && Legal(s, e) && Wf(After(s, e))
      && Remaining(t, filled + e.qty, done + [e], After(s, e), id, side, limit, qty - e.qty)
  {
    TradeStep(s, id, side, limit, qty);
    var e := NextFill(s, id, side, qty);
    assert done + ([e] + Trade(After(s, e), id, side, limit, qty - e.qty).events)
        == done + [e] + Trade(After(s, e), id, side, limit, qty - e.qty).events;
  }

  lemma {:induction false} RemainingStarts(s: State, id: nat, side: Side, limit: int, qty: nat)
    ensures Remaining(Trade(s, id, side, limit, qty), 0, [], s, id, side, limit, qty)
  {
  }

  /** A part of the remaining trade is done: that much more of the whole is done. */
  lemma {:induction false} RemainingCompose(t: Outcome, filled: nat, done: seq<Event>, s: State, id: nat, side: Side,
      limit: int, qty: nat, filled': nat, done': seq<Event>, s': State)
    requires Remaining(t, filled, done, s, id, side, limit, qty) && filled' <= qty
    requires Remaining(Trade(s, id, side, limit, qty), filled', done', s', id, side, limit, qty - filled')
    ensures Remaining(t, filled + filled', done + done', s', id, side, limit, qty - filled')
  {
    hide Match;
    var es := Trade(s', id, side, limit, qty - filled').events;
    assert done + (done' + es) == done + done' + es;
  }

  lemma {:induction false} RemainingEnds(t: Outcome, filled: nat, done: seq<Event>, s: State, id: nat, side: Side,
      limit: int, qty: nat)
    requires qty == 0 || !WouldCross(s, side, limit)
    requires Remaining(t, filled, done, s, id, side, limit, qty)
    ensures t.s == s && t.events == done && t.reply.filled == filled
  {
    assert s.With(Opposite(side), s.On(Opposite(side))).(nextMatch := s.nextMatch) == s;
  }

  /** What one execution does to the queues of the opposite side: only the best price changes, at its front. */
  lemma {:induction false} FillAtPrice(s: State, e: Event, p: int)
    requires Wf(s) && e.Executed? && Legal(s, e)
    ensures var opp := s.On(Opposite(e.aggressorSide)); var opp' := After(s, e).On(Opposite(e.aggressorSide));
      && AtPrice(opp, e.price) != [] && AtPrice(opp, e.price)[0] == opp[0]
      && (p != e.price ==> AtPrice(opp', p) == AtPrice(opp, p))
      && AtPrice(opp', e.price)
           == (if e.qty == opp[0].open then [] else [opp[0].(open := opp[0].open - e.qty)]) + AtPrice(opp, e.price)[1..]
  {
    var opp := s.On(Opposite(e.aggressorSide));
    var opp' := After(s, e).On(Opposite(e.aggressorSide));
    if e.qty == opp[0].open {
      assert opp' == opp[1..];
    } else {
      assert opp' == [opp[0].(open := opp[0].open - e.qty)] + opp[1..];
      assert opp'[1..] == opp[1..];
    }
  }

  /** Aggregates are 32-bit unsigned and wrap. */
  function Wrap(n: int): nat {
    n % 0x1_0000_0000
  }

  lemma {:induction false} WrapMinus(a: int, b: int)
    ensures Wrap(Wrap(a) - b) == Wrap(a - b)
    ensures Wrap(Wrap(a) + b) == Wrap(a + b)
  {
  }

  lemma {:induction false} TotalOfFront(q: seq<Order>, exec: nat)
    requires q != [] && exec <= q[0].open
    ensures Total([q[0].(open := q[0].open - exec)] + q[1..]) == Total(q) - exec
    ensures exec == q[0].open ==> Total(q[1..]) == Total(q) - exec
  {
    assert ([q[0].(open := q[0].open - exec)] + q[1..])[1..] == q[1..];
  }

  /** While its queue lasts, the best price stays the best price. */
  lemma {:induction false} BestStaysBest(opp0: seq<Order>, opp: seq<Order>, side: Side, p: int)
    requires Sorted(opp0, side) && Sorted(opp, side) && opp0 != [] && opp0[0].price == p
    requires forall q | q != p :: AtPrice(opp, q) == AtPrice(opp0, q)
    requires AtPrice(opp, p) != []
    ensures opp != [] && opp[0].price == p && opp[0] == AtPrice(opp, p)[0]
  {
    if opp[0].price != p {
      var q := opp[0].price;
      assert AtPrice(opp, q) != [];
      if Better(side, q, p) { NothingBeyondBest(opp0, side, q); } else { NothingBeyondBest(opp, side, p); }
      assert false;
    }
  }

  /** One execution inside a level is the next execution of the trade. */
  lemma {:induction false} ConsumeLegal(s: State, opp0: seq<Order>, p: int, id: nat, side: Side, want: nat)
    requires Wf(s) && want > 0 && Sorted(opp0, Opposite(side)) && opp0 != [] && opp0[0].price == p
    requires forall q | q != p :: AtPrice(s.On(Opposite(side)), q) == AtPrice(opp0, q)
    requires AtPrice(s.On(Opposite(side)), p) != []
    ensures var o := AtPrice(s.On(Opposite(side)), p)[0];
      && s.On(Opposite(side)) != [] && o == s.On(Opposite(side))[0] && o.price == p && o.open > 0
      && var e := NextFill(s, id, side, want);
      && e == Executed(o.id, id, side, p, if want < o.open then want else o.open, s.nextMatch)
      && Legal(s, e) && Wf(After(s, e)) && After(s, e).On(side) == s.On(side)
  {
    var opp := s.On(Opposite(side));
    BestStaysBest(opp0, opp, Opposite(side), p);
    SortedHead(opp, Opposite(side), opp[0]);
    LegalKeeps(s, NextFill(s, id, side, want));
  }

  /** It takes from the front of the queue and touches no other price. */
  lemma {:induction false} ConsumeQueue(s: State, e: Event, opp0: seq<Order>)
    requires Wf(s) && e.Executed? && Legal(s, e)
    requires forall q | q != e.price :: AtPrice(s.On(Opposite(e.aggressorSide)), q) == AtPrice(opp0, q)
    ensures var opp, opp' := s.On(Opposite(e.aggressorSide)), After(s, e).On(Opposite(e.aggressorSide));
      var queue := AtPrice(opp, e.price);
      && (forall q | q != e.price :: AtPrice(opp', q) == AtPrice(opp0, q))
      && queue != [] && queue[0] == opp[0]
      && AtPrice(opp', e.price)
           == (if e.qty == opp[0].open then queue[1..] else [opp[0].(open := opp[0].open - e.qty)] + queue[1..])
      && Total(AtPrice(opp', e.price)) == Total(queue) - e.qty
  {
    var opp, opp' := s.On(Opposite(e.aggressorSide)), After(s, e).On(Opposite(e.aggressorSide));
    forall q | q != e.price ensures AtPrice(opp', q) == AtPrice(opp0, q) { FillAtPrice(s, e, q); }
    FillAtPrice(s, e, e.price);
    TotalOfFront(AtPrice(opp, e.price), e.qty);
  }
}
