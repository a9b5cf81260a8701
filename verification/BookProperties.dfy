/** What price-time priority promises, over single commands and over whole runs. */
module BookProperties {
  import opened Book
  import opened BookLemmas
  import opened BookEvents

  function Min(a: nat, b: nat): nat {
    if a < b then a else b
  }

  // ---------------------------------------------------------------- the greedy prefix

  lemma {:induction false} NothingCrosses(l: seq<Order>, side: Side, limit: int)
    requires Sorted(l, Opposite(side)) && (l != [] ==> !Crosses(side, limit, l[0].price))
    ensures CrossTotal(l, side, limit) == 0
  {
    if l != [] { NothingCrosses(l[1..], side, limit); }
  }

  /** An incoming order fills exactly as much as it can: its own size or everything that crosses. */
  lemma {:induction false} FillsAllItCan(opp: seq<Order>, id: nat, side: Side, limit: int, qty: nat, matchId: nat)
    requires Sorted(opp, Opposite(side))
    ensures Match(opp, id, side, limit, qty, matchId).filled == Min(qty, CrossTotal(opp, side, limit))
  {
    if opp == [] || !Crosses(side, limit, opp[0].price) {
      NothingCrosses(opp, side, limit);
    } else if qty > 0 && qty >= opp[0].open {
      FillsAllItCan(opp[1..], id, side, limit, qty - opp[0].open, matchId + 1);
    }
  }

  function SharesOf(es: seq<Event>): nat {
    if es == [] then 0 else (if es[0].Executed? then es[0].qty else 0) + SharesOf(es[1..])
  }

  /** The `k`-th execution trades with the `k`-th order of the opposite side, at that order's price. */
  predicate Fill(e: Event, o: Order, id: nat, side: Side, limit: int, matchId: nat, last: bool) {
    && e.Executed? && Crosses(side, limit, o.price)
    && e == Executed(o.id, id, side, o.price, e.qty, matchId)
    && 0 < e.qty <= o.open && (!last ==> e.qty == o.open)
  }

  /**
   The executions are a prefix of the opposite side in priority order, at the resting prices, numbered
   without a gap; all but the last consume their resting order.
   */
  lemma {:induction false} GreedyPrefix(opp: seq<Order>, id: nat, side: Side, limit: int, qty: nat, matchId: nat)
    requires Sorted(opp, Opposite(side))
    ensures var es := Match(opp, id, side, limit, qty, matchId).events;
      && |es| <= |opp|
      && forall k | 0 <= k < |es| :: Fill(es[k], opp[k], id, side, limit, matchId + k, k == |es| - 1)
  {
    if !(qty == 0 || opp == [] || !Crosses(side, limit, opp[0].price)) && qty >= opp[0].open {
      var es := Match(opp, id, side, limit, qty, matchId).events;
      var t := Match(opp[1..], id, side, limit, qty - opp[0].open, matchId + 1).events;
      GreedyPrefix(opp[1..], id, side, limit, qty - opp[0].open, matchId + 1);
      forall k | 0 <= k < |es| ensures Fill(es[k], opp[k], id, side, limit, matchId + k, k == |es| - 1) {
        if k > 0 {
          assert Fill(t[k - 1], opp[1..][k - 1], id, side, limit, matchId + 1 + (k - 1), k - 1 == |t| - 1);
        }
      }
    }
  }

  /** The opposite side without its first `n` orders, or led by the `n`-th with part of its shares. */
  predicate Remains(opp: seq<Order>, n: nat, rest: seq<Order>, exhausted: bool) {
    && n <= |opp|
    && (rest == opp[n..]
        || (&& n > 0 && rest != [] && rest[1..] == opp[n..] && exhausted
            && rest[0] == opp[n - 1].(open := rest[0].open) && 0 < rest[0].open < opp[n - 1].open))
  }

  /** Executed orders are gone; only the last may remain in part, and only if the incoming order is filled. */
  lemma {:induction false} GreedyRest(opp: seq<Order>, id: nat, side: Side, limit: int, qty: nat, matchId: nat)
    ensures var m := Match(opp, id, side, limit, qty, matchId);
      Remains(opp, |m.events|, m.rest, m.filled == qty)
  {
    if !(qty == 0 || opp == [] || !Crosses(side, limit, opp[0].price)) && qty >= opp[0].open {
      var t := Match(opp[1..], id, side, limit, qty - opp[0].open, matchId + 1);
      GreedyRest(opp[1..], id, side, limit, qty - opp[0].open, matchId + 1);
      assert opp[1..][|t.events|..] == opp[|t.events| + 1..];
    }
  }

  // ---------------------------------------------------------------- time priority over runs

  /** When the order came to rest: the position in the event log of the last event that put `id` on the book. */
  function Stamp(log: seq<Event>, id: nat): nat {
    if log == [] then 0
    else if Enters(log[|log| - 1], id) then |log|
    else Stamp(log[..|log| - 1], id)
  }

  lemma {:induction false} StampBound(log: seq<Event>, id: nat)
    ensures Stamp(log, id) <= |log|
  {
    if log != [] { StampBound(log[..|log| - 1], id); }
  }

  lemma {:induction false} StampAppend(log: seq<Event>, e: Event, id: nat)
    ensures Stamp(log + [e], id) == if Enters(e, id) then |log| + 1 else Stamp(log, id)
  {
    assert (log + [e])[..|log|] == log;
  }

  ghost predicate Timed(l: seq<Order>, log: seq<Event>) {
    l != [] ==>
      && (forall o | o in l[1..] && o.price == l[0].price :: Stamp(log, l[0].id) < Stamp(log, o.id))
      && Timed(l[1..], log)
  }

  lemma {:induction false} MembersAfter(l: seq<Order>, o: Order, id: nat, open: nat)
    ensures forall x | x in Insert(l, o) :: x == o || x in l
    ensures forall x | x in Remove(l, id) :: x in l
    ensures forall x | x in SetOpen(l, id, open) :: exists y :: y in l && x.id == y.id && x.price == y.price
  {
    if l != [] {
      MembersAfter(l[1..], o, id, open);
      forall x | x in SetOpen(l, id, open)
        ensures exists y :: y in l && x.id == y.id && x.price == y.price
      {
        if x in l { }
        else if x == SetOpen(l, id, open)[0] { assert l[0] in l; }
        else {
          assert x in SetOpen(l[1..], id, open);
          var y :| y in l[1..] && x.id == y.id && x.price == y.price;
          assert y in l;
        }
      }
    }
  }

  lemma {:induction false} TimedAfterInsert(l: seq<Order>, o: Order, log: seq<Event>, e: Event)
    requires Sorted(l, o.side) && UniqueIds(l) && Timed(l, log) && Get(l, o.id).None?
    requires forall id :: Enters(e, id) <==> id == o.id
    ensures Timed(Insert(l, o), log + [e])
  {
    if l == [] || Better(o.side, o.price, l[0].price) {
      assert ([o] + l)[1..] == l;
      TimedAfterOther(l, log, e, o.id);
      forall x | x in l && x.price == o.price ensures false { SortedHead(l, o.side, x); }
    } else {
      assert ([l[0]] + Insert(l[1..], o))[1..] == Insert(l[1..], o);
      TimedAfterInsert(l[1..], o, log, e);
      MembersAfter(l[1..], o, 0, 0);
      forall x | x in Insert(l[1..], o) && x.price == l[0].price
        ensures Stamp(log + [e], l[0].id) < Stamp(log + [e], x.id)
      {
        StampAppend(log, e, l[0].id);
        StampAppend(log, e, x.id);
        StampBound(log, l[0].id);
        if x != o { MemberIsFound(l, x); }
      }
    }
  }

  /** An event that brings only orders from elsewhere to rest does not change anybody's place here. */
  lemma {:induction false} TimedAfterOther(l: seq<Order>, log: seq<Event>, e: Event, other: nat)
    requires UniqueIds(l) && Timed(l, log) && Get(l, other).None?
    requires forall id | Enters(e, id) :: id == other
    ensures Timed(l, log + [e])
  {
    if l != [] {
      TimedAfterOther(l[1..], log, e, other);
      forall o | o in l[1..] && o.price == l[0].price
        ensures Stamp(log + [e], l[0].id) < Stamp(log + [e], o.id)
      {
        StampAppend(log, e, l[0].id);
        StampAppend(log, e, o.id);
        MemberIsFound(l, o);
      }
    }
  }

  lemma {:induction false} TimedAfterShrink(l: seq<Order>, id: nat, open: nat, log: seq<Event>)
    requires Timed(l, log)
    ensures Timed(Remove(l, id), log) && Timed(SetOpen(l, id, open), log)
  {
    if l != [] {
      assert ([l[0].(open := open)] + l[1..])[1..] == l[1..];
      assert ([l[0]] + Remove(l[1..], id))[1..] == Remove(l[1..], id);
      assert ([l[0]] + SetOpen(l[1..], id, open))[1..] == SetOpen(l[1..], id, open);
      TimedAfterShrink(l[1..], id, open, log);
      MembersAfter(l[1..], l[0], id, open);
    }
  }

  lemma {:induction false} TimedAfterAdded(s: State, e: Event, log: seq<Event>)
    requires Wf(s) && e.Added? && Legal(s, e) && Timed(s.bids, log) && Timed(s.asks, log)
    ensures Timed(After(s, e).bids, log + [e]) && Timed(After(s, e).asks, log + [e])
  {
    TimedAfterInsert(s.On(e.side), Order(e.id, e.side, e.price, e.qty), log, e);
    TimedAfterOther(s.On(Opposite(e.side)), log, e, e.id);
  }

  lemma {:induction false} TimedAfterReduced(s: State, e: Event, side: Side, id: nat, log: seq<Event>)
    requires Wf(s) && (e.Executed? || e.Canceled?) && Legal(s, e) && Timed(s.bids, log) && Timed(s.asks, log)
    requires After(s, e).On(side) == Reduce(s.On(side), id, e.qty)
    requires After(s, e).On(Opposite(side)) == s.On(Opposite(side))
    ensures Timed(After(s, e).bids, log + [e]) && Timed(After(s, e).asks, log + [e])
  {
    LegalKeeps(s, e);
    TimedReduce(s.On(side), id, e.qty, log);
    hide Wf, Legal, Timed, Reduce, After;
    NoOneEnters(After(s, e), e, log);
  }

  lemma {:induction false} TimedReduce(l: seq<Order>, id: nat, less: nat, log: seq<Event>)
    requires Timed(l, log)
    ensures Timed(Reduce(l, id, less), log)
  {
    hide Timed;
    var o := Get(l, id);
    if o.Some? && less < o.value.open { TimedAfterShrink(l, id, o.value.open - less, log); }
    else { TimedAfterShrink(l, id, 0, log); }
  }

  lemma {:induction false} TimedAfterReplaced(s: State, e: Event, log: seq<Event>)
    requires Wf(s) && e.Replaced? && Legal(s, e) && Timed(s.bids, log) && Timed(s.asks, log)
    ensures Timed(After(s, e).bids, log + [e]) && Timed(After(s, e).asks, log + [e])
  {
    var l := s.On(e.side);
    TimedAfterShrink(l, e.oldId, 0, log);
    RemoveKeeps(l, e.side, e.oldId);
    GetAfterRemove(l, e.oldId, e.newId);
    TimedAfterInsert(Remove(l, e.oldId), Order(e.newId, e.side, e.price, e.qty), log, e);
    TimedAfterOther(s.On(Opposite(e.side)), log, e, e.newId);
  }

  lemma {:induction false} TimedAfter(s: State, e: Event, log: seq<Event>)
    requires Wf(s) && Legal(s, e) && Timed(s.bids, log) && Timed(s.asks, log)
    ensures Timed(After(s, e).bids, log + [e]) && Timed(After(s, e).asks, log + [e])
  {
    match e {
      case Added(_, _, _, _) => TimedAfterAdded(s, e, log);
      case Executed(restingId, _, side, _, _, _) => TimedAfterReduced(s, e, Opposite(side), restingId, log);
      case Canceled(id, _, _) => TimedAfterReduced(s, e, s.Find(id).value.side, id, log);
      case Replaced(_, _, _, _, _) => TimedAfterReplaced(s, e, log);
    }
  }

  /** Some id that neither list holds. */
  lemma {:induction false} FreshId(l: seq<Order>) returns (id: nat)
    ensures forall x :: x >= id ==> Get(l, x).None?
  {
    id := 0;
    if l != [] {
      var t := FreshId(l[1..]);
      id := if t > l[0].id then t else l[0].id + 1;
    }
  }

  lemma {:induction false} NoOneEnters(s: State, e: Event, log: seq<Event>)
    requires Wf(s) && Timed(s.bids, log) && Timed(s.asks, log) && (e.Executed? || e.Canceled?)
    ensures Timed(s.bids, log + [e]) && Timed(s.asks, log + [e])
  {
    var b := FreshId(s.bids);
    TimedAfterOther(s.bids, log, e, b);
    var a := FreshId(s.asks);
    TimedAfterOther(s.asks, log, e, a);
  }

  lemma {:induction false} TimedReplay(s: State, es: seq<Event>, log: seq<Event>)
    requires Wf(s) && AllLegal(s, es) && Timed(s.bids, log) && Timed(s.asks, log)
    ensures Timed(Replay(s, es).bids, log + es) && Timed(Replay(s, es).asks, log + es)
    decreases |es|
  {
    if es == [] {
      assert log + es == log;
    } else {
      TimedAfter(s, es[0], log);
      LegalKeeps(s, es[0]);
      TimedReplay(After(s, es[0]), es[1..], log + [es[0]]);
      assert log + [es[0]] + es[1..] == log + es;
    }
  }

  lemma {:induction false} InOrder(l: seq<Order>, side: Side, log: seq<Event>, i: nat, j: nat)
    requires Sorted(l, side) && Timed(l, log) && i < j < |l|
    ensures Better(side, l[i].price, l[j].price)
         || (l[i].price == l[j].price && Stamp(log, l[i].id) < Stamp(log, l[j].id))
  {
    if i == 0 {
      assert l[j] == l[1..][j - 1];
      SortedHead(l, side, l[j]);
    } else {
      InOrder(l[1..], side, log, i - 1, j - 1);
    }
  }

  /**
   After any run, each side holds its orders best price first and, within a price, in the order in which
   they came to rest. Fills and partial cancels keep an order's place; a replacement starts anew.
   */
  lemma {:induction false} PriceTimePriority(cs: seq<Command>, side: Side, i: nat, j: nat)
    requires i < j < |Run(cs).s.On(side)|
    ensures var l := Run(cs).s.On(side); var log := Run(cs).events;
      || Better(side, l[i].price, l[j].price)
      || (l[i].price == l[j].price && Stamp(log, l[i].id) < Stamp(log, l[j].id))
  {
    RunExplained(cs);
    TimedReplay(EMPTY, Run(cs).events, []);
    assert [] + Run(cs).events == Run(cs).events;
    InOrder(Run(cs).s.On(side), side, Run(cs).events, i, j);
  }

  // ---------------------------------------------------------------- match ids

  function Executions(es: seq<Event>): (xs: seq<Event>)
    ensures forall x | x in xs :: x.Executed?
  {
    if es == [] then []
    else if es[0].Executed? then [es[0]] + Executions(es[1..])
    else Executions(es[1..])
  }

  lemma {:induction false} NumberedFrom(s: State, es: seq<Event>)
    requires AllLegal(s, es)
    ensures Replay(s, es).nextMatch == s.nextMatch + |Executions(es)|
    ensures forall k | 0 <= k < |Executions(es)| :: Executions(es)[k].matchId == s.nextMatch + k
    decreases |es|
  {
    if es != [] { NumberedFrom(After(s, es[0]), es[1..]); }
  }

  /** Over any run the executions are numbered 1, 2, 3, ... */
  lemma {:induction false} MatchIdsCountUp(cs: seq<Command>)
    ensures var xs := Executions(Run(cs).events);
      forall k | 0 <= k < |xs| :: xs[k].matchId == k + 1
  {
    RunExplained(cs);
    NumberedFrom(EMPTY, Run(cs).events);
  }

  // ---------------------------------------------------------------- conservation of shares

  function Resting(s: State): nat {
    Total(s.bids) + Total(s.asks)
  }

  function CanceledShares(es: seq<Event>): nat {
    if es == [] then 0 else (if es[0].Canceled? then es[0].qty else 0) + CanceledShares(es[1..])
  }

  /** Shares a command brings to the book: all of an accepted order, what an immediate order trades. */
  function Accepted(s: State, c: Command): nat {
    var r := Apply(s, c).reply;
    match c
    case Add(_, _, _, qty) => if r.AddReply? && r.status.Ok? then qty else 0
    case Cancel(_, _) => 0
    case Replace(_, _, _, qty) => if r.BoolReply? && r.ok then qty else 0
    case Immediate(_, _, _, _) => if r.FillReply? then r.filled else 0
  }

  /** Open shares that a non-crossing replace retires without a cancel event. */
  function Retired(s: State, c: Command): nat {
    var es := Apply(s, c).events;
    if c.Replace? && |es| == 1 && es[0].Replaced? && s.Find(c.oldId).Some? then s.Find(c.oldId).value.open else 0
  }

  function AcceptedInRun(cs: seq<Command>): nat {
    if cs == [] then 0 else AcceptedInRun(cs[..|cs| - 1]) + Accepted(Run(cs[..|cs| - 1]).s, cs[|cs| - 1])
  }

  function RetiredInRun(cs: seq<Command>): nat {
    if cs == [] then 0 else RetiredInRun(cs[..|cs| - 1]) + Retired(Run(cs[..|cs| - 1]).s, cs[|cs| - 1])
  }

  lemma {:induction false} SharesAppend(es: seq<Event>, es': seq<Event>)
    ensures SharesOf(es + es') == SharesOf(es) + SharesOf(es')
    ensures CanceledShares(es + es') == CanceledShares(es) + CanceledShares(es')
  {
    if es == [] {
      assert es + es' == es';
    } else {
      assert (es + es')[1..] == es[1..] + es';
      SharesAppend(es[1..], es');
    }
  }

  lemma {:induction false} TradeConserves(opp: seq<Order>, id: nat, side: Side, limit: int, qty: nat, matchId: nat)
    ensures var m := Match(opp, id, side, limit, qty, matchId);
      && Total(m.rest) + m.filled == Total(opp)
      && SharesOf(m.events) == m.filled && CanceledShares(m.events) == 0
  {
    if !(qty == 0 || opp == [] || !Crosses(side, limit, opp[0].price)) {
      var m := Match(opp, id, side, limit, qty, matchId);
      if qty < opp[0].open {
        assert m.events[1..] == [];
        assert m.rest[1..] == opp[1..];
      } else {
        TradeConserves(opp[1..], id, side, limit, qty - opp[0].open, matchId + 1);
        assert m.events[1..] == Match(opp[1..], id, side, limit, qty - opp[0].open, matchId + 1).events;
      }
    }
  }

  lemma {:induction false} EnterConserves(s: State, id: nat, side: Side, price: int, qty: nat)
    ensures var t := Enter(s, id, side, price, qty);
      Resting(s) + qty == Resting(t.s) + 2 * SharesOf(t.events) && CanceledShares(t.events) == 0
  {
    hide Match, Insert, Total, SharesOf, CanceledShares;
    var t := Trade(s, id, side, price, qty);
    TradeConserves(s.On(Opposite(side)), id, side, price, qty, s.nextMatch);
    var left := qty - t.reply.filled;
    if left > 0 {
      var e := Added(id, side, price, left);
      SharesOfOne(e);
      SharesAppend(t.events, [e]);
      TotalAfterInsert(t.s.On(side), Order(id, side, price, left));
    }
  }

  lemma {:induction false} SharesOfOne(e: Event)
    ensures SharesOf([e]) == if e.Executed? then e.qty else 0
    ensures CanceledShares([e]) == if e.Canceled? then e.qty else 0
  {
    assert [e][1..] == [];
  }

  ghost predicate Conserves(s: State, c: Command) {
    var t := Apply(s, c);
    Resting(s) + Accepted(s, c) == Resting(t.s) + 2 * SharesOf(t.events) + CanceledShares(t.events) + Retired(s, c)
  }

  lemma {:induction false} CancelConserves(s: State, c: Command)
    requires Wf(s) && c.Cancel?
    ensures Conserves(s, c)
  {
    var t := ApplyCancel(s, c.id, c.keep);
    if t.reply.ok {
      FindSide(s, c.id);
      hide Wf, Get, Remove, SetOpen;
      var o := s.Find(c.id).value;
      TotalAfterRemove(s.On(o.side), c.id);
      TotalAfterSetOpen(s.On(o.side), c.id, c.keep);
      assert t.events == [t.events[0]];
      SharesOfOne(t.events[0]);
    }
  }

  lemma {:induction false} ReplaceConserves(s: State, c: Command)
    requires Wf(s) && c.Replace?
    ensures Conserves(s, c)
  {
    var t := ApplyReplace(s, c.oldId, c.newId, c.price, c.qty);
    if t.reply.ok {
      FindSide(s, c.oldId);
      hide Wf, Get, Remove, Insert, Enter;
      var o := s.Find(c.oldId).value;
      TotalAfterRemove(s.On(o.side), c.oldId);
      var s1 := s.With(o.side, Remove(s.On(o.side), c.oldId));
      if WouldCross(s1, o.side, c.price) {
        EnterConserves(s1, c.newId, o.side, c.price, c.qty);
        assert t.events[1..] == Enter(s1, c.newId, o.side, c.price, c.qty).events;
      } else {
        TotalAfterInsert(s1.On(o.side), Order(c.newId, o.side, c.price, c.qty));
        assert t.events == [t.events[0]];
        SharesOfOne(t.events[0]);
      }
    }
  }

  lemma {:induction false} StepConserves(s: State, c: Command)
    requires Wf(s)
    ensures Conserves(s, c)
  {
    match c {
      case Add(id, side, price, qty) =>
        hide Wf, Get, Enter;
        if price > 0 && qty > 0 && s.Find(id).None? { EnterConserves(s, id, side, price, qty); }
      case Cancel(_, _) => CancelConserves(s, c);
      case Replace(_, _, _, _) => ReplaceConserves(s, c);
      case Immediate(id, side, limit, qty) =>
        hide Wf, Match;
        TradeConserves(s.On(Opposite(side)), id, side, limit, qty, s.nextMatch);
    }
  }

  /** Over any run: accepted shares rest, traded (counted for both parties), were canceled or were retired. */
  lemma {:induction false} SharesConserved(cs: seq<Command>)
    ensures AcceptedInRun(cs)
         == Resting(Run(cs).s) + 2 * SharesOf(Run(cs).events) + CanceledShares(Run(cs).events) + RetiredInRun(cs)
  {
    if cs != [] {
      var before, c := cs[..|cs| - 1], cs[|cs| - 1];
      SharesConserved(before);
      RunExplained(before);
      StepConserves(Run(before).s, c);
      SharesAppend(Run(before).events, Apply(Run(before).s, c).events);
    }
  }
}
