/** Minimum-quantity and fill-or-kill orders. */
module EngineGate {
  import opened Book
  import opened BookLemmas
  import opened BookProperties
  import opened BookAnswers
  import opened Matching
  import opened EngineSpec
  import opened EngineTables
  import opened EngineInvariant
  import opened EngineReplies
  import opened EnginePrices

  /** What an incoming order could trade with on this book: everything, or what crosses its price. */
  function Available(s: State, m: Message, side: Side): nat
    requires m.EnterOrder?
  {
    if m.price == 0x7FFF_FFFF then Total(s.On(Opposite(side))) else CrossTotal(s.On(Opposite(side)), side, m.price)
  }

  lemma {:induction false} AllCross(l: seq<Order>, side: Side, limit: int)
    requires forall o | o in l :: Crosses(side, limit, o.price)
    ensures CrossTotal(l, side, limit) == Total(l)
  {
    if l != [] {
      assert l[0] in l && forall o | o in l[1..] :: o in l;
      AllCross(l[1..], side, limit);
    }
  }

  /** The limit that the engine gives a market order reaches every resting order. */
  lemma {:induction false} LimitReaches(s: State, m: Message, side: Side)
    requires m.EnterOrder? && Wf(s) && Priced(s)
    ensures CrossTotal(s.On(Opposite(side)), side, EnterLimit(m, side)) == Available(s, m, side)
  {
    if m.price == MARKET_PRICE {
      var l := s.On(Opposite(side));
      forall o | o in l ensures Crosses(side, EnterLimit(m, side), o.price) { SortedHead(l, Opposite(side), o); }
      AllCross(l, side, EnterLimit(m, side));
    }
  }

  /** The gate, in numbers. */
  lemma {:induction false} KilledIs(s: State, m: Message, side: Side)
    requires m.EnterOrder? && Wf(s) && Priced(s)
    ensures Killed(s, m, side) <==> m.minQty > 0 && Available(s, m, side) % 0x1_0000_0000 < m.minQty
  {
    LimitReaches(s, m, side);
    hide Wf, Available, CrossTotal, EnterLimit;
  }

  /** The shares the order executes when it is worked on. */
  function FilledBy(s: State, m: Message, side: Side, ref: nat): nat
    requires m.EnterOrder?
  {
    if Killed(s, m, side) then 0 else Trade(s, ref, side, EnterLimit(m, side), m.shares).reply.filled
  }

  /** A killed order leaves every book as it was and is canceled in full; nothing is published. */
  lemma {:induction false} KilledUntouched(g: Engine, ts: nat, client: nat, m: Message, side: Side, ref: nat)
    requires AtWork(g, client, m, side, ref) && Killed(g.books[m.stock], m, side)
    ensures var g' := Work(g, ts, client, m, side, ref);
      && g'.books == g.books && g'.tables.feed == g.tables.feed
      && g'.tables.out == g.tables.out + [To(client, CanceledMsg(m.token, m.shares, 'D'))]
      && ref !in g'.tables.orders && Sound(g')
  {
    WorkSound(g, ts, client, m, side, ref);
    hide Sound, Agree, Tokens, Killed;
  }

  /** The command that an accepted order becomes on its book. */
  function BookCommand(m: Message, side: Side, ref: nat): Command
    requires m.EnterOrder?
  {
    if IsIoc(m) then Immediate(ref, side, EnterLimit(m, side), m.shares) else Add(ref, side, m.price, m.shares)
  }

  /** An order that is worked on executes all it can, and these executions are what the engine publishes. */
  lemma {:induction false} WorkedFills(g: Engine, ts: nat, client: nat, m: Message, side: Side, ref: nat)
    returns (es: seq<Event>)
    requires AtWork(g, client, m, side, ref) && !Killed(g.books[m.stock], m, side) && Priced(g.books[m.stock])
    ensures Work(g, ts, client, m, side, ref).tables.feed == g.tables.feed + FeedOf(ts, m.stock, es)
    ensures SharesOf(es) == FilledBy(g.books[m.stock], m, side, ref)
      == Min(m.shares, Available(g.books[m.stock], m, side))
  {
    es := Apply(g.books[m.stock], BookCommand(m, side, ref)).events;
    BookIsWf(g.books, g.tables, ref, m.shares, m.stock);
    FilledShares(g.books[m.stock], m, side, ref);
    EventsFeed(g.tables, ts, m.stock, false, es);
    hide Agree, Tokens, Killed, Wf, SharesOf, Available, Apply, OnEvents, FeedOf, EnterLimit, TokenView, Trade, Priced;
  }

  lemma {:induction false} FilledShares(s: State, m: Message, side: Side, ref: nat)
    requires Wf(s) && m.EnterOrder? && !Killed(s, m, side) && m.shares > 0 && (m.price == MARKET_PRICE || m.price > 0)
    requires s.Find(ref).None? && Priced(s)
    ensures SharesOf(Apply(s, BookCommand(m, side, ref)).events) == FilledBy(s, m, side, ref)
      == Min(m.shares, Available(s, m, side))
  {
    hide *;
    LimitReaches(s, m, side);
    TradeAnswered(s, ref, side, EnterLimit(m, side), m.shares);
    NotKilledFills(s, m, side, ref);
    if IsIoc(m) {
      ImmediateAnswered(s, ref, side, EnterLimit(m, side), m.shares);
    } else {
      DayOrder(m);
      AddAnswered(s, ref, side, m.price, m.shares);
      DayFills(s, m, side, ref);
    }
  }

  lemma {:induction false} NotKilledFills(s: State, m: Message, side: Side, ref: nat)
    requires m.EnterOrder? && !Killed(s, m, side)
    ensures FilledBy(s, m, side, ref) == Trade(s, ref, side, EnterLimit(m, side), m.shares).reply.filled
    ensures IsIoc(m) ==> BookCommand(m, side, ref) == Immediate(ref, side, EnterLimit(m, side), m.shares)
  {
    hide Killed, Trade;
  }

  lemma {:induction false} DayFills(s: State, m: Message, side: Side, ref: nat)
    requires m.EnterOrder? && !IsIoc(m) && m.price != MARKET_PRICE
    requires Entered(s, Apply(s, Add(ref, side, m.price, m.shares)), ref, side, m.price, m.shares)
    ensures SharesOf(Apply(s, BookCommand(m, side, ref)).events) == Min(m.shares, Available(s, m, side))
  {
    hide Apply, SharesOf, CrossTotal, AtPrice, Get;
  }

  /**
   An order with a minimum quantity that passes the gate executes at least that minimum, or all of itself, if that is
   less. Whenever less than the minimum crosses it does not pass.
   */
  lemma {:induction false} MinimumQuantity(s: State, m: Message, side: Side, ref: nat)
    requires Wf(s) && Priced(s) && m.EnterOrder?
    ensures Available(s, m, side) < m.minQty ==> Killed(s, m, side)
    ensures !Killed(s, m, side) ==> FilledBy(s, m, side, ref) >= Min(m.minQty, m.shares)
  {
    LimitReaches(s, m, side);
    FillsAllItCan(s.On(Opposite(side)), ref, side, EnterLimit(m, side), m.shares, s.nextMatch);
    WrapShrinks(Available(s, m, side));
    hide Wf, Match, CrossTotal, Wrap, Available, Priced;
  }

  lemma {:induction false} WrapShrinks(n: nat)
    ensures Wrap(n) <= n
  {
  }

  /** Fill-or-kill: all or nothing; and all exactly if enough crosses, wherever the gate decides rightly. */
  lemma {:induction false} FillOrKill(s: State, m: Message, side: Side, ref: nat)
    requires Wf(s) && Priced(s) && m.EnterOrder? && 0 < m.minQty == m.shares < 0x1_0000_0000
    ensures FilledBy(s, m, side, ref) == if Available(s, m, side) % 0x1_0000_0000 < m.shares then 0 else m.shares
    ensures (FilledBy(s, m, side, ref) == m.shares <==> Available(s, m, side) >= m.shares)
       <==> (Available(s, m, side) < 0x1_0000_0000 || Available(s, m, side) % 0x1_0000_0000 >= m.shares)
  {
    MinimumQuantity(s, m, side, ref);
    KilledIs(s, m, side);
    GateIsRight(s, m, side);
    hide Wf, Killed, Available, Priced;
  }

  /**
   The gate looks at a 32-bit sum. It decides rightly if and only if the sum does not wrap below the minimum.
   */
  lemma {:induction false} GateIsRight(s: State, m: Message, side: Side)
    requires Wf(s) && Priced(s) && m.EnterOrder? && 0 < m.minQty < 0x1_0000_0000
    ensures (Killed(s, m, side) <==> Available(s, m, side) < m.minQty)
       <==> (Available(s, m, side) < 0x1_0000_0000 || Available(s, m, side) % 0x1_0000_0000 >= m.minQty)
  {
    KilledIs(s, m, side);
    hide Available, Killed, Wf, Priced;
    var a := Available(s, m, side);
    if a < 0x1_0000_0000 { ExactWrap(a); }
  }

  /**
   The gate over runs. After any run, an order that is not refused is accepted. If it has a minimum quantity that the
   32-bit sum of what it could trade with does not reach, it is canceled in full, with every book and the feed as they
   were. Otherwise its executions on the feed, all with the time of the command, amount to the smaller of its size and
   what it could trade with, which is at least the smaller of its size and its minimum.
   */
  lemma {:induction false} GateOverRuns(cs: seq<ClientCommand>, ts: nat, client: nat, m: Message)
    returns (es: seq<Event>)
    requires AllOnWire(cs) && m.EnterOrder? && OnWire(m) && Refusal(RunEngine(cs), client, m).None?
    ensures var g, g' := RunEngine(cs), Handle(RunEngine(cs), ts, client, m);
      var side := if m.side == 'B' then Buy else Sell;
      var a := Available(BookOf(g.books, m.stock), m, side);
      var killed := m.minQty > 0 && a % 0x1_0000_0000 < m.minQty;
      && g'.tables.feed == g.tables.feed + FeedOf(ts, m.stock, es)
      && (killed ==>
            && es == [] && (forall sym :: BookOf(g'.books, sym) == BookOf(g.books, sym))
            && g'.tables.out == g.tables.out
              + [To(client, Acceptance(g, m, side)), To(client, CanceledMsg(m.token, m.shares, 'D'))])
      && (!killed ==> SharesOf(es) == Min(m.shares, a) >= Min(m.minQty, m.shares))
  {
    var g, side := RunEngine(cs), if m.side == 'B' then Buy else Sell;
    var g1, ref := Accept(g, client, m, side), g.tables.nextRef;
    hide *;
    RunSound(cs);
    RunPriced(cs);
    BookPriced(g.books, m.stock);
    AcceptedIsWorked(g, ts, client, m);
    AcceptedAtWork(g, client, m, side);
    es := GateAtWork(g1, ts, client, m, side, ref);
    TwoMore(g.tables.out, To(client, Acceptance(g, m, side)), To(client, CanceledMsg(m.token, m.shares, 'D')));
  }

  lemma {:induction false} TwoMore(out: seq<ClientResponse>, a: ClientResponse, b: ClientResponse)
    ensures out + [a] + [b] == out + [a, b]
  {
  }

  /** What the gate does with an order that has just been accepted. */
  lemma {:induction false} GateAtWork(g: Engine, ts: nat, client: nat, m: Message, side: Side, ref: nat)
    returns (es: seq<Event>)
    requires AtWork(g, client, m, side, ref) && m.EnterOrder? && m.stock in g.books && Priced(g.books[m.stock])
    ensures var a, g' := Available(g.books[m.stock], m, side), Work(g, ts, client, m, side, ref);
      var killed := m.minQty > 0 && a % 0x1_0000_0000 < m.minQty;
      && g'.tables.feed == g.tables.feed + FeedOf(ts, m.stock, es)
      && (killed ==>
            && es == [] && g'.books == g.books
            && g'.tables.out == g.tables.out + [To(client, CanceledMsg(m.token, m.shares, 'D'))])
      && (!killed ==> SharesOf(es) == Min(m.shares, a) >= Min(m.minQty, m.shares))
  {
    hide *;
    WorkingIsWf(g, client, m, side, ref);
    KilledIs(g.books[m.stock], m, side);
    MinimumQuantity(g.books[m.stock], m, side, ref);
    if Killed(g.books[m.stock], m, side) {
      es := [];
      KilledUntouched(g, ts, client, m, side, ref);
      NoFeed(ts, m.stock);
    } else {
      es := WorkedFills(g, ts, client, m, side, ref);
    }
  }

  /** The response that announces an accepted order. */
  function Acceptance(g: Engine, m: Message, side: Side): Response
    requires m.EnterOrder?
  {
    AcceptedMsg(m.token, side, m.shares, m.stock, m.price, g.tables.nextRef)
  }

  lemma {:induction false} AcceptedIsWorked(g: Engine, ts: nat, client: nat, m: Message)
    requires m.EnterOrder? && Refusal(g, client, m).None?
    ensures var side := if m.side == 'B' then Buy else Sell;
      Handle(g, ts, client, m) == Work(Accept(g, client, m, side), ts, client, m, side, g.tables.nextRef)
    ensures m.shares > 0 && (m.price == MARKET_PRICE || m.price > 0) && KeyOf(client, m.token) !in g.tables.used
  {
    hide Work, Accept, TokenView;
  }

  /** Accepting an order announces it, opens its book and changes no other. */
  lemma {:induction false} AcceptedAtWork(g: Engine, client: nat, m: Message, side: Side)
    requires Sound(g) && m.EnterOrder? && OnWire(m) && m.shares > 0 && (m.price == MARKET_PRICE || m.price > 0)
    requires KeyOf(client, m.token) !in g.tables.used
    ensures var g1 := Accept(g, client, m, side);
      && AtWork(g1, client, m, side, g.tables.nextRef)
      && g1.tables.feed == g.tables.feed && g1.tables.out == g.tables.out + [To(client, Acceptance(g, m, side))]
      && m.stock in g1.books && g1.books[m.stock] == BookOf(g.books, m.stock)
      && forall sym :: BookOf(g1.books, sym) == BookOf(g.books, sym)
  {
    AcceptAgrees(g, client, m, side);
    hide Agree, Tokens, TokenView, Get, Sound;
  }

  lemma {:induction false} WorkingIsWf(g: Engine, client: nat, m: Message, side: Side, ref: nat)
    requires AtWork(g, client, m, side, ref)
    ensures Wf(g.books[m.stock])
  {
  }

  lemma {:induction false} NoFeed(ts: nat, sym: Symbol)
    ensures FeedOf(ts, sym, []) == []
  {
  }
}
