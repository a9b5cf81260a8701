/**
 The event stream as a state machine of its own.

 `Legal` says which event a listener may see next and `After` what the event means for the book.
 The main theorem, `EventsExplain`, says that every command emits a legal stream whose replay ends
 in exactly the state in which the command leaves the book.
 */
module BookEvents {
  import opened Book
  import opened BookLemmas

  predicate Legal(s: State, e: Event) {
    match e
    case Added(id, side, price, qty) =>
      price > 0 && qty > 0 && s.Find(id).None? && !WouldCross(s, side, price)
    case Executed(restingId, _, side, price, qty, matchId) =>
      var opp := s.On(Opposite(side));
      && opp != [] && opp[0].id == restingId && opp[0].price == price
      && 0 < qty <= opp[0].open && matchId == s.nextMatch
    case Canceled(id, qty, removed) =>
      && s.Find(id).Some?
      && if removed then qty == s.Find(id).value.open else 0 < qty < s.Find(id).value.open
    case Replaced(oldId, newId, side, price, qty) =>
      && s.Find(oldId).Some? && s.Find(oldId).value.side == side
      && newId != oldId && s.Find(newId).None? && price > 0 && qty > 0 && !WouldCross(s, side, price)
  }

  /** An order loses `less` open shares in place, and leaves the book when it has no more. */
  function Reduce(l: seq<Order>, id: nat, less: nat): seq<Order> {
    var o := Get(l, id);
    if o.None? then l
    else if less >= o.value.open then Remove(l, id)
    else SetOpen(l, id, o.value.open - less)
  }

  function After(s: State, e: Event): State {
    match e
    case Added(id, side, price, qty) => Rest(s, id, side, price, qty)
    case Executed(restingId, _, side, _, qty, _) =>
      var opp := Opposite(side);
      s.With(opp, Reduce(s.On(opp), restingId, qty)).(nextMatch := s.nextMatch + 1)
    case Canceled(id, qty, _) =>
      if s.Find(id).None? then s
      else var side := s.Find(id).value.side; s.With(side, Reduce(s.On(side), id, qty))
    case Replaced(oldId, newId, side, price, qty) =>
      Rest(s.With(side, Remove(s.On(side), oldId)), newId, side, price, qty)
  }

  /** The event puts order `id` on the book. */
  predicate Enters(e: Event, id: nat) {
    (e.Added? && e.id == id) || (e.Replaced? && e.newId == id)
  }

  predicate AllLegal(s: State, es: seq<Event>)
    decreases |es|
  {
    es != [] ==> Legal(s, es[0]) && AllLegal(After(s, es[0]), es[1..])
  }

  function Replay(s: State, es: seq<Event>): State
    decreases |es|
  {
    if es == [] then s else Replay(After(s, es[0]), es[1..])
  }

  // ---------------------------------------------------------------- every legal event keeps the book well formed

  lemma {:induction false} FindSide(s: State, id: nat)
    requires Wf(s) && s.Find(id).Some?
    ensures var o := s.Find(id).value;
      && o in s.On(o.side) && o.id == id && Get(s.On(o.side), id) == Some(o)
      && Get(s.On(Opposite(o.side)), id).None?
      && o.open > 0 && o.price > 0
  {
    GetIsMember(s.bids, id);
    GetIsMember(s.asks, id);
    var o := s.Find(id).value;
    if Get(s.bids, id).Some? { SortedHead(s.bids, Buy, o); } else { SortedHead(s.asks, Sell, o); }
  }

  lemma {:induction false} ShrinkKeeps(s: State, side: Side, id: nat, open: nat)
    requires Wf(s)
    ensures Wf(s.With(side, Remove(s.On(side), id)))
    ensures open > 0 ==> Wf(s.With(side, SetOpen(s.On(side), id, open)))
  {
    var l := s.On(side);
    RemoveKeeps(l, side, id);
    forall x ensures Get(Remove(l, id), x) == if x == id then None else Get(l, x) { GetAfterRemove(l, id, x); }
    if open > 0 {
      SetOpenKeeps(l, side, id, open);
      forall x ensures Get(SetOpen(l, id, open), x).None? <==> Get(l, x).None? { GetAfterSetOpen(l, id, open, x); }
    }
  }

  lemma {:induction false} RestKeeps(s: State, id: nat, side: Side, price: int, qty: nat)
    requires Wf(s) && price > 0 && qty > 0 && s.Find(id).None? && !WouldCross(s, side, price)
    ensures Wf(Rest(s, id, side, price, qty))
  {
    var l, o := s.On(side), Order(id, side, price, qty);
    InsertKeeps(l, o);
    forall x ensures Get(Insert(l, o), x) == if x == id then Some(o) else Get(l, x) { GetAfterInsert(l, o, x); }
  }

  lemma {:induction false} LegalKeeps(s: State, e: Event)
    requires Wf(s) && Legal(s, e)
    ensures Wf(After(s, e))
  {
    match e {
      case Added(id, side, price, qty) =>
        RestKeeps(s, id, side, price, qty);
      case Executed(restingId, _, side, _, qty, _) =>
        var opp := s.On(Opposite(side));
        ShrinkKeeps(s, Opposite(side), restingId, opp[0].open - qty);
      case Canceled(id, qty, _) =>
        FindSide(s, id);
        var o := s.Find(id).value;
        ShrinkKeeps(s, o.side, id, o.open - qty);
      case Replaced(oldId, newId, side, price, qty) =>
        ShrinkKeeps(s, side, oldId, 1);
        GetAfterRemove(s.On(side), oldId, newId);
        RestKeeps(s.With(side, Remove(s.On(side), oldId)), newId, side, price, qty);
    }
  }

  lemma {:induction false} ReplayKeeps(s: State, es: seq<Event>)
    requires Wf(s) && AllLegal(s, es)
    ensures Wf(Replay(s, es))
    decreases |es|
  {
    if es != [] {
      LegalKeeps(s, es[0]);
      ReplayKeeps(After(s, es[0]), es[1..]);
    }
  }

  // ---------------------------------------------------------------- streams compose

  lemma {:induction false} ReplayAppend(s: State, es: seq<Event>, es': seq<Event>)
    ensures Replay(s, es + es') == Replay(Replay(s, es), es')
    ensures AllLegal(s, es + es') <==> AllLegal(s, es) && AllLegal(Replay(s, es), es')
    decreases |es|
  {
    if es == [] {
      assert es + es' == es';
    } else {
      assert (es + es')[1..] == es[1..] + es';
      ReplayAppend(After(s, es[0]), es[1..], es');
    }
  }

  // ---------------------------------------------------------------- commands emit legal streams

  lemma {:induction false} TradeExplained(s: State, id: nat, side: Side, limit: int, qty: nat)
    requires Wf(s)
    ensures var t := Trade(s, id, side, limit, qty); AllLegal(s, t.events) && Replay(s, t.events) == t.s
    decreases |s.On(Opposite(side))|
  {
    var opp := s.On(Opposite(side));
    if qty == 0 || opp == [] || !Crosses(side, limit, opp[0].price) {
      assert s.With(Opposite(side), opp).(nextMatch := s.nextMatch) == s;
    } else if qty < opp[0].open {
      var e := Executed(opp[0].id, id, side, opp[0].price, qty, s.nextMatch);
      assert After(s, e) == Trade(s, id, side, limit, qty).s;
      assert [e][1..] == [];
    } else {
      var e := Executed(opp[0].id, id, side, opp[0].price, opp[0].open, s.nextMatch);
      var s1 := After(s, e);
      assert s1.On(Opposite(side)) == opp[1..];
      SortedHead(opp, Opposite(side), opp[0]);
      LegalKeeps(s, e);
      TradeExplained(s1, id, side, limit, qty - opp[0].open);
      var es := Trade(s1, id, side, limit, qty - opp[0].open).events;
      assert ([e] + es)[1..] == es;
    }
  }

  /** A trade that is not filled completely leaves nothing that still crosses. */
  lemma {:induction false} TradeStops(s: State, id: nat, side: Side, limit: int, qty: nat)
    requires Wf(s)
    ensures var t := Trade(s, id, side, limit, qty);
      t.reply.filled < qty ==> !WouldCross(t.s, side, limit)
    decreases |s.On(Opposite(side))|
  {
    var opp := s.On(Opposite(side));
    if !(qty == 0 || opp == [] || !Crosses(side, limit, opp[0].price)) && qty >= opp[0].open {
      var e := Executed(opp[0].id, id, side, opp[0].price, opp[0].open, s.nextMatch);
      SortedHead(opp, Opposite(side), opp[0]);
      LegalKeeps(s, e);
      assert After(s, e).On(Opposite(side)) == opp[1..];
      TradeStops(After(s, e), id, side, limit, qty - opp[0].open);
    }
  }

  /** A trade only removes or reduces resting orders. */
  lemma {:induction false} TradeAddsNoIds(s: State, id: nat, side: Side, limit: int, qty: nat, x: nat)
    requires Wf(s) && s.Find(x).None?
    ensures Trade(s, id, side, limit, qty).s.Find(x).None?
    decreases |s.On(Opposite(side))|
  {
    var opp := s.On(Opposite(side));
    if !(qty == 0 || opp == [] || !Crosses(side, limit, opp[0].price)) {
      if qty < opp[0].open {
        GetAfterSetOpen(opp, opp[0].id, opp[0].open - qty, x);
        assert SetOpen(opp, opp[0].id, opp[0].open - qty) == [opp[0].(open := opp[0].open - qty)] + opp[1..];
      } else {
        var e := Executed(opp[0].id, id, side, opp[0].price, opp[0].open, s.nextMatch);
        SortedHead(opp, Opposite(side), opp[0]);
        LegalKeeps(s, e);
        assert After(s, e).On(Opposite(side)) == opp[1..];
        TradeAddsNoIds(After(s, e), id, side, limit, qty - opp[0].open, x);
      }
    }
  }

  lemma {:induction false} EnterExplained(s: State, id: nat, side: Side, price: int, qty: nat)
    requires Wf(s) && price > 0 && qty > 0 && s.Find(id).None?
    ensures var t := Enter(s, id, side, price, qty); AllLegal(s, t.events) && Replay(s, t.events) == t.s
  {
    var t := Trade(s, id, side, price, qty);
    TradeExplained(s, id, side, price, qty);
    if t.reply.filled < qty {
      TradeStops(s, id, side, price, qty);
      TradeAddsNoIds(s, id, side, price, qty, id);
      var e := Added(id, side, price, qty - t.reply.filled);
      assert [e][1..] == [];
      ReplayAppend(s, t.events, [e]);
    }
  }

  lemma {:induction false} CancelExplained(s: State, id: nat, keep: nat)
    requires Wf(s)
    ensures var t := ApplyCancel(s, id, keep); AllLegal(s, t.events) && Replay(s, t.events) == t.s
  {
    if s.Find(id).Some? {
      FindSide(s, id);
      var t := ApplyCancel(s, id, keep);
      if t.events != [] { assert t.events == [t.events[0]] && t.events[1..] == []; }
    }
  }

  lemma {:induction false} ReplaceExplained(s: State, oldId: nat, newId: nat, price: int, qty: nat)
    requires Wf(s)
    ensures var t := ApplyReplace(s, oldId, newId, price, qty); AllLegal(s, t.events) && Replay(s, t.events) == t.s
  {
    var t := ApplyReplace(s, oldId, newId, price, qty);
    if t.reply.ok {
      FindSide(s, oldId);
      var o := s.Find(oldId).value;
      var s1 := s.With(o.side, Remove(s.On(o.side), oldId));
      if WouldCross(s1, o.side, price) {
        var e := Canceled(oldId, o.open, true);
        LegalKeeps(s, e);
        assert After(s, e) == s1;
        GetAfterRemove(s.On(o.side), oldId, newId);
        EnterExplained(s1, newId, o.side, price, qty);
        var es := Enter(s1, newId, o.side, price, qty).events;
        assert ([e] + es)[1..] == es;
      } else {
        assert t.events[1..] == [];
      }
    }
  }

  /** Every command emits a legal event stream, and the stream says everything that happened to the book. */
  lemma {:induction false} EventsExplain(s: State, c: Command)
    requires Wf(s)
    ensures AllLegal(s, Apply(s, c).events)
    ensures Replay(s, Apply(s, c).events) == Apply(s, c).s
    ensures Wf(Apply(s, c).s)
  {
    match c {
      case Add(id, side, price, qty) =>
        if price > 0 && qty > 0 && s.Find(id).None? { EnterExplained(s, id, side, price, qty); }
      case Cancel(id, keep) => CancelExplained(s, id, keep);
      case Replace(oldId, newId, price, qty) => ReplaceExplained(s, oldId, newId, price, qty);
      case Immediate(id, side, limit, qty) => TradeExplained(s, id, side, limit, qty);
    }
    ReplayKeeps(s, Apply(s, c).events);
  }

  /** The same over every run: the published events alone rebuild the book, and every book is well formed. */
  lemma {:induction false} RunExplained(cs: seq<Command>)
    ensures AllLegal(EMPTY, Run(cs).events)
    ensures Replay(EMPTY, Run(cs).events) == Run(cs).s
    ensures Wf(Run(cs).s)
  {
    if cs != [] {
      var before := cs[..|cs| - 1];
      RunExplained(before);
      EventsExplain(Run(before).s, cs[|cs| - 1]);
      ReplayAppend(EMPTY, Run(before).events, Apply(Run(before).s, cs[|cs| - 1]).events);
    }
  }
}
