/** Where an order of a client stands after its command, for every command after every run. */
module EngineOrders {
  import opened Book
  import opened BookLemmas
  import opened BookProperties
  import opened BookAnswers
  import opened EngineSpec
  import opened EngineTables
  import opened EngineInvariant
  import opened EngineReplies
  import opened EnginePrices
  import opened EngineGate

  /** The events that the command added to the feed: these, with the command's time and this symbol. */
  predicate Published(g: Engine, g': Engine, ts: nat, sym: Symbol, es: seq<Event>) {
    && |g'.tables.feed| == |g.tables.feed| + |es| && g.tables.feed <= g'.tables.feed
    && forall i | 0 <= i < |es| :: g'.tables.feed[|g.tables.feed| + i] == MarketEvent(ts, sym, es[i])
  }

  lemma {:induction false} FeedGrew(g: Engine, g': Engine, ts: nat, sym: Symbol, es: seq<Event>)
    requires g'.tables.feed == g.tables.feed + FeedOf(ts, sym, es)
    ensures Published(g, g', ts, sym, es)
  {
  }

  // ---------------------------------------------------------------- entering an order

  /** An order that is worked on changes the book of its symbol only, as one command would. */
  lemma {:induction false} WorkedOnBook(g: Engine, ts: nat, client: nat, m: Message, side: Side, ref: nat)
    returns (es: seq<Event>)
    requires AtWork(g, client, m, side, ref) && !Killed(g.books[m.stock], m, side)
    ensures var o, g' := Apply(g.books[m.stock], BookCommand(m, side, ref)), Work(g, ts, client, m, side, ref);
      && g'.books == g.books[m.stock := o.s]
      && es == o.events && g'.tables.feed == g.tables.feed + FeedOf(ts, m.stock, es)
  {
    es := Apply(g.books[m.stock], BookCommand(m, side, ref)).events;
    EventsFeed(g.tables, ts, m.stock, false, es);
    hide Agree, Tokens, Killed, Apply, OnEvents, FeedOf, EnterLimit, TokenView, Trade;
  }

  /** The order is gone from the live ones, and the last response tells its client that so many shares were canceled. */
  predicate LastCanceled(t: Tables, client: nat, token: Token, left: int) {
    && t.out != [] && left > 0 && t.out[|t.out| - 1] == To(client, CanceledMsg(token, left, 'I'))
    && KeyOf(client, token) !in t.live
  }

  /** What is left of an immediate order is canceled, and the client is told last of all. */
  lemma {:induction false} RemainderCanceled(g: Engine, ts: nat, client: nat, m: Message, side: Side, ref: nat)
    requires AtWork(g, client, m, side, ref) && !Killed(g.books[m.stock], m, side) && IsIoc(m)
    ensures var left := m.shares - Trade(g.books[m.stock], ref, side, EnterLimit(m, side), m.shares).reply.filled;
      left > 0 ==> LastCanceled(Work(g, ts, client, m, side, ref).tables, client, m.token, left)
  {
    hide Agree, Tokens, Killed, OnEvents, EnterLimit, TokenView, Trade, IsIoc;
  }

  /** Where the order stands, and what else changed: its book, and nothing else. */
  ghost predicate Placed(g: Engine, g': Engine, m: Message, side: Side, ref: nat, filled: nat)
    requires m.EnterOrder?
  {
    var s, s' := BookOf(g.books, m.stock), BookOf(g'.books, m.stock);
    && (forall sym | sym != m.stock :: BookOf(g'.books, sym) == BookOf(g.books, sym))
    && if m.price == 0x7FFF_FFFF || m.tif == 0 then
         s'.On(side) == s.On(side) && s'.Find(ref).None?
       else
         && s'.Find(ref) == (if filled < m.shares then Some(Order(ref, side, m.price, m.shares - filled)) else None)
         && (forall x | x != ref :: Get(s'.On(side), x) == Get(s.On(side), x))
         && AtPrice(s'.On(side), m.price)
            == AtPrice(s.On(side), m.price)
              + (if filled < m.shares then [Order(ref, side, m.price, m.shares - filled)] else [])
  }

  /** All events are executions of this order or put it on the book. */
  predicate OwnEvents(es: seq<Event>, o: Order) {
    forall e | e in es :: OwnEvent(e, o)
  }

  lemma {:induction false} WorkedPlaces(s: State, m: Message, side: Side, ref: nat)
    requires m.EnterOrder? && Wf(s) && Priced(s) && s.Find(ref).None? && m.shares > 0
      && (m.price == MARKET_PRICE || m.price > 0)
    ensures var o := Apply(s, BookCommand(m, side, ref));
      && SharesOf(o.events) == Min(m.shares, Available(s, m, side))
      && OwnEvents(o.events, Order(ref, side, m.price, m.shares - SharesOf(o.events)))
      && (m.price == 0x7FFF_FFFF || m.tif == 0 ==> o.s.On(side) == s.On(side) && o.s.Find(ref).None?)
      && (m.price != 0x7FFF_FFFF && m.tif != 0 ==> Entered(s, o, ref, side, m.price, m.shares))
  {
    LimitReaches(s, m, side);
    hide Wf, Priced, Apply, Entered, SharesOf, CrossTotal, Total, EnterLimit, Get;
    if m.price == 0x7FFF_FFFF || m.tif == 0 {
      ImmediateAnswered(s, ref, side, EnterLimit(m, side), m.shares);
    } else {
      AddAnswered(s, ref, side, m.price, m.shares);
      EnteredShares(s, Apply(s, Add(ref, side, m.price, m.shares)), ref, side, m.price, m.shares);
    }
  }

  lemma {:induction false} EnteredShares(s: State, o: Outcome, id: nat, side: Side, price: int, qty: nat)
    requires Entered(s, o, id, side, price, qty)
    ensures SharesOf(o.events) == Min(qty, CrossTotal(s.On(Opposite(side)), side, price))
  {
  }

  lemma {:induction false} PlacedFrom(g: Engine, g1: Engine, g': Engine, m: Message, side: Side, ref: nat, o: Outcome)
    requires m.EnterOrder? && m.stock in g1.books && g1.books[m.stock] == BookOf(g.books, m.stock)
    requires (forall sym :: BookOf(g1.books, sym) == BookOf(g.books, sym)) && g'.books == g1.books[m.stock := o.s]
    requires var s := BookOf(g.books, m.stock);
      && (m.price == 0x7FFF_FFFF || m.tif == 0 ==> o.s.On(side) == s.On(side) && o.s.Find(ref).None?)
      && (m.price != 0x7FFF_FFFF && m.tif != 0 ==> Entered(s, o, ref, side, m.price, m.shares))
    ensures Placed(g, g', m, side, ref, SharesOf(o.events))
  {
    hide Get, AtPrice, SharesOf, CrossTotal;
    forall sym | sym != m.stock ensures BookOf(g'.books, sym) == BookOf(g.books, sym) {
      assert BookOf(g1.books, sym) == BookOf(g.books, sym);
    }
  }

  /**
   An order that is accepted and passes the gate, after any run. A market order executes the smaller of its size and
   everything on the other side, a limit order the smaller of its size and what crosses its price, and these executions
   are published. Market orders and orders with time in force 0 rest nothing, and what is left of them is canceled; any
   other order stands with what is left at its price, behind everyone there.
   */
  lemma {:induction false} EnterOverRuns(cs: seq<ClientCommand>, ts: nat, client: nat, m: Message)
    returns (es: seq<Event>)
    requires AllOnWire(cs) && m.EnterOrder? && OnWire(m) && Refusal(RunEngine(cs), client, m).None?
    requires var side := if m.side == 'B' then Buy else Sell;
      m.minQty > 0 ==> Available(BookOf(RunEngine(cs).books, m.stock), m, side) % 0x1_0000_0000 >= m.minQty
    ensures var g, g' := RunEngine(cs), Handle(RunEngine(cs), ts, client, m);
      var side := if m.side == 'B' then Buy else Sell;
      var opp := BookOf(g.books, m.stock).On(Opposite(side));
      var filled := Min(m.shares, if m.price == 0x7FFF_FFFF then Total(opp) else CrossTotal(opp, side, m.price));
      && Published(g, g', ts, m.stock, es) && SharesOf(es) == filled
      && OwnEvents(es, Order(g.tables.nextRef, side, m.price, m.shares - filled))
      && Placed(g, g', m, side, g.tables.nextRef, filled)
      && ((m.price == 0x7FFF_FFFF || m.tif == 0) && filled < m.shares ==>
            LastCanceled(g'.tables, client, m.token, m.shares - filled))
  {
    hide *;
    var g, side := RunEngine(cs), if m.side == 'B' then Buy else Sell;
    RunSound(cs);
    SoundBook(g, m.stock);
    RunPriced(cs);
    BookPriced(g.books, m.stock);
    NotKilled(g, m, side);
    es := AcceptedPlaced(g, ts, client, m, side);
    if m.price == 0x7FFF_FFFF || m.tif == 0 { AcceptedRemainder(g, ts, client, m, side); }
    AvailableIs(BookOf(g.books, m.stock), m, side);
  }

  lemma {:induction false} SoundBook(g: Engine, sym: Symbol)
    requires Sound(g)
    ensures Wf(BookOf(g.books, sym))
  {
    if sym in g.books { BookIsWf(g.books, g.tables, 0, 0, sym); }
  }

  /** The gate of the run's statement is the gate of the order's command. */
  lemma {:induction false} NotKilled(g: Engine, m: Message, side: Side)
    requires m.EnterOrder? && Wf(BookOf(g.books, m.stock)) && Priced(BookOf(g.books, m.stock))
    requires m.minQty > 0 ==> Available(BookOf(g.books, m.stock), m, side) % 0x1_0000_0000 >= m.minQty
    ensures !Killed(BookOf(g.books, m.stock), m, side)
  {
    hide *;
    KilledIs(BookOf(g.books, m.stock), m, side);
  }

  lemma {:induction false} AcceptedPlaced(g: Engine, ts: nat, client: nat, m: Message, side: Side)
    returns (es: seq<Event>)
    requires Sound(g) && m.EnterOrder? && OnWire(m) && Refusal(g, client, m).None?
    requires side == (if m.side == 'B' then Buy else Sell) && Priced(BookOf(g.books, m.stock))
    requires !Killed(BookOf(g.books, m.stock), m, side)
    ensures var g' := Handle(g, ts, client, m);
      var filled := Min(m.shares, Available(BookOf(g.books, m.stock), m, side));
      && Published(g, g', ts, m.stock, es) && SharesOf(es) == filled
      && OwnEvents(es, Order(g.tables.nextRef, side, m.price, m.shares - filled))
      && Placed(g, g', m, side, g.tables.nextRef, filled)
  {
    hide *;
    var g1, ref, s := Accept(g, client, m, side), g.tables.nextRef, BookOf(g.books, m.stock);
    AcceptedIsWorked(g, ts, client, m);
    AcceptedAtWork(g, client, m, side);
    WorkingIsWf(g1, client, m, side, ref);
    es := WorkedOnBook(g1, ts, client, m, side, ref);
    FreshAtWork(g1, client, m, side, ref);
    WorkedPlaces(s, m, side, ref);
    PlacedFrom(g, g1, Handle(g, ts, client, m), m, side, ref, Apply(s, BookCommand(m, side, ref)));
    FeedGrew(g, Handle(g, ts, client, m), ts, m.stock, es);
  }

  lemma {:induction false} AcceptedRemainder(g: Engine, ts: nat, client: nat, m: Message, side: Side)
    requires Sound(g) && m.EnterOrder? && OnWire(m) && Refusal(g, client, m).None?
    requires side == (if m.side == 'B' then Buy else Sell) && Priced(BookOf(g.books, m.stock))
    requires !Killed(BookOf(g.books, m.stock), m, side) && (m.price == 0x7FFF_FFFF || m.tif == 0)
    ensures var g' := Handle(g, ts, client, m);
      var filled := Min(m.shares, Available(BookOf(g.books, m.stock), m, side));
      filled < m.shares ==> LastCanceled(g'.tables, client, m.token, m.shares - filled)
  {
    hide *;
    var g1, ref, s := Accept(g, client, m, side), g.tables.nextRef, BookOf(g.books, m.stock);
    AcceptedIsWorked(g, ts, client, m);
    AcceptedAtWork(g, client, m, side);
    WorkingIsWf(g1, client, m, side, ref);
    ImmediateFills(s, m, side, ref);
    RemainderCanceled(g1, ts, client, m, side, ref);
  }

  lemma {:induction false} FreshAtWork(g: Engine, client: nat, m: Message, side: Side, ref: nat)
    requires AtWork(g, client, m, side, ref)
    ensures g.books[m.stock].Find(ref).None?
  {
  }

  lemma {:induction false} AvailableIs(s: State, m: Message, side: Side)
    requires m.EnterOrder?
    ensures var opp := s.On(Opposite(side));
      Available(s, m, side) == if m.price == 0x7FFF_FFFF then Total(opp) else CrossTotal(opp, side, m.price)
  {
  }

  lemma {:induction false} ImmediateFills(s: State, m: Message, side: Side, ref: nat)
    requires m.EnterOrder? && (m.price == 0x7FFF_FFFF || m.tif == 0) && Wf(s) && Priced(s)
    ensures IsIoc(m)
    ensures Trade(s, ref, side, EnterLimit(m, side), m.shares).reply.filled == Min(m.shares, Available(s, m, side))
  {
    LimitReaches(s, m, side);
    TradeAnswered(s, ref, side, EnterLimit(m, side), m.shares);
    hide Wf, Priced, Trade, CrossTotal, Total, SharesOf, Get, EnterLimit;
  }

  // ---------------------------------------------------------------- canceling and replacing an order

  /** The order behind a live token, and the book it rests on. */
  lemma {:induction false} LiveOrder(g: Engine, client: nat, token: Token)
    requires Sound(g) && KeyOf(client, token) in g.tables.live
    ensures var id := g.tables.live[KeyOf(client, token)];
      && id in g.tables.orders
      && var info := g.tables.orders[id];
      && info.symbol in g.books && g.books[info.symbol] == BookOf(g.books, info.symbol) && Wf(g.books[info.symbol])
      && g.books[info.symbol].Find(id).Some?
      && g.books[info.symbol].Find(id).value.side == info.side && g.books[info.symbol].Find(id).value.open == info.open
      && g.books[info.symbol].Find(g.tables.nextRef).None? && g.tables.nextRef != id
  {
    LiveKey(g, KeyOf(client, token));
    var id := g.tables.live[KeyOf(client, token)];
    var sym := g.tables.orders[id].symbol;
    hide TokenView, Get, Wf, Tokens;
    assert Entry(g.books, g.tables, 0, 0, id) && Entry(g.books, g.tables, 0, 0, g.tables.nextRef);
    assert Listed(g.books, g.tables, 0, 0, sym, g.tables.nextRef);
  }

  /** A cancel on the book: the order keeps what the client wants to keep, in its place, and no other order changes. */
  lemma {:induction false} CancelOverRuns(cs: seq<ClientCommand>, ts: nat, client: nat, m: Message)
    returns (es: seq<Event>)
    requires AllOnWire(cs) && m.CancelOrder? && KeyOf(client, m.token) in RunEngine(cs).tables.live
    ensures var g, g' := RunEngine(cs), Handle(RunEngine(cs), ts, client, m);
      var id := g.tables.live[KeyOf(client, m.token)];
      && id in g.tables.orders
      && var sym := g.tables.orders[id].symbol;
      && var s, s' := BookOf(g.books, sym), BookOf(g'.books, sym);
      && s.Find(id).Some?
      && var was := s.Find(id).value;
      && (forall x | x != sym :: BookOf(g'.books, x) == BookOf(g.books, x))
      && Published(g, g', ts, sym, es)
      && (m.keep >= was.open ==> s' == s && es == [])
      && (m.keep < was.open ==>
            && es == [Canceled(id, was.open - m.keep, m.keep == 0)]
            && s'.Find(id) == (if m.keep == 0 then None else Some(was.(open := m.keep)))
            && (forall x | x != id :: s'.Find(x) == s.Find(x))
            && (m.keep > 0 ==> SamePlaces(s.bids, s'.bids, id, m.keep) && SamePlaces(s.asks, s'.asks, id, m.keep)))
  {
    var g := RunEngine(cs);
    hide RunEngine, Sound, TokenView, Apply, OnEvents, Get, Wf, SamePlaces, FeedOf, Published;
    RunSound(cs);
    LiveOrder(g, client, m.token);
    var id := g.tables.live[KeyOf(client, m.token)];
    var sym := g.tables.orders[id].symbol;
    BookAnswers.CancelAnswered(g.books[sym], id, m.keep);
    es := Apply(g.books[sym], Cancel(id, m.keep)).events;
    EventsFeed(g.tables, ts, sym, false, es);
    FeedGrew(g, Handle(g, ts, client, m), ts, sym, es);
  }

  /** The old order is gone; what is left of the new one stands at its price; the rest of the side is as it was. */
  ghost predicate Renewed(s: State, s': State, oldId: nat, o: Order, left: int) {
    && s.Find(oldId).Some? && s'.Find(oldId).None?
    && s'.Find(o.id) == (if left > 0 then Some(o.(open := left)) else None)
    && (forall x | x != o.id && x != oldId :: Get(s'.On(o.side), x) == Get(s.On(o.side), x))
    && AtPrice(s'.On(o.side), o.price)
       == AtPrice(Remove(s.On(o.side), oldId), o.price) + (if left > 0 then [o.(open := left)] else [])
  }

  lemma {:induction false} RenewedFrom(s: State, o: Outcome, oldId: nat, n: Order)
    requires Wf(s) && s.Find(oldId).Some? && o.s.Find(oldId).None?
    requires Entered(s.With(n.side, Remove(s.On(n.side), oldId)), o, n.id, n.side, n.price, n.open)
    ensures Renewed(s, o.s, oldId, n, n.open - SharesOf(o.events))
  {
    forall x ensures Get(Remove(s.On(n.side), oldId), x) == if x == oldId then None else Get(s.On(n.side), x) {
      GetAfterRemove(s.On(n.side), oldId, x);
    }
    hide Get, Remove, AtPrice, SharesOf, CrossTotal, Wf;
  }

  /** A replace that is carried out is one on the book of its order. */
  lemma {:induction false} ReplacedOnBook(g: Engine, ts: nat, client: nat, m: Message, id: nat, o: Outcome)
    requires m.ReplaceOrder? && Replaceable(g, client, m) && id == g.tables.live[KeyOf(client, m.existing)]
    requires id in g.tables.orders
      && o == Apply(BookOf(g.books, g.tables.orders[id].symbol), Replace(id, g.tables.nextRef, m.price, m.shares))
    ensures var g', sym := Handle(g, ts, client, m), g.tables.orders[id].symbol;
      && BookOf(g'.books, sym) == o.s && (forall x | x != sym :: BookOf(g'.books, x) == BookOf(g.books, x))
      && Published(g, g', ts, sym, o.events)
  {
    var key, sym := KeyOf(client, m.existing), g.tables.orders[id].symbol;
    hide TokenView, Apply, OnEvents, FeedOf, Published, Swap;
    EventsFeed(Swap(g.tables, id, key, client, m), ts, sym, true, o.events);
    SwapKeepsFeed(g.tables, id, key, client, m);
    FeedGrew(g, Handle(g, ts, client, m), ts, sym, o.events);
  }

  /**
   A replace, after any run: the old order is gone; the new one, on the same side of the same book, executes the
   smaller of its size and what crosses the new price, and what is left stands at exactly the new price, behind
   everyone there.
   */
  lemma {:induction false} ReplaceOverRuns(cs: seq<ClientCommand>, ts: nat, client: nat, m: Message)
    returns (es: seq<Event>)
    requires AllOnWire(cs) && m.ReplaceOrder? && OnWire(m) && Replaceable(RunEngine(cs), client, m)
    ensures var g, g' := RunEngine(cs), Handle(RunEngine(cs), ts, client, m);
      var id, ref := g.tables.live[KeyOf(client, m.existing)], g.tables.nextRef;
      && id in g.tables.orders
      && var sym, side := g.tables.orders[id].symbol, g.tables.orders[id].side;
      && var s, s' := BookOf(g.books, sym), BookOf(g'.books, sym);
      && var filled := Min(m.shares, CrossTotal(s.On(Opposite(side)), side, m.price));
      && (forall x | x != sym :: BookOf(g'.books, x) == BookOf(g.books, x))
      && Published(g, g', ts, sym, es) && SharesOf(es) == filled
      && Renewed(s, s', id, Order(ref, side, m.price, m.shares), m.shares - filled)
  {
    hide *;
    var g := RunEngine(cs);
    RunSound(cs);
    LivePart(g, client, m);
    LiveOrder(g, client, m.existing);
    var id, ref := g.tables.live[KeyOf(client, m.existing)], g.tables.nextRef;
    var s, side := BookOf(g.books, g.tables.orders[id].symbol), g.tables.orders[id].side;
    var o := Apply(s, Replace(id, ref, m.price, m.shares));
    es := o.events;
    BookAnswers.ReplaceAnswered(s, id, ref, m.price, m.shares);
    ReplacedOnBook(g, ts, client, m, id, o);
    RenewedFrom(s, o, id, Order(ref, side, m.price, m.shares));
  }

  lemma {:induction false} LivePart(g: Engine, client: nat, m: Message)
    requires m.ReplaceOrder? && Replaceable(g, client, m)
    ensures KeyOf(client, m.existing) in g.tables.live && m.price > 0 && m.shares > 0
  {
  }

  lemma {:induction false} SwapKeepsFeed(t: Tables, oldRef: nat, key: Key, client: nat, m: Message)
    requires m.ReplaceOrder? && oldRef in t.orders
    ensures Swap(t, oldRef, key, client, m).feed == t.feed
  {
    hide TokenView;
  }
}
