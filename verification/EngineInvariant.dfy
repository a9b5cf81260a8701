/** After every command of every run, the engine's tables agree with its books. */
module EngineInvariant {
  import opened Book
  import opened BookLemmas
  import opened BookEvents
  import opened BookProperties
  import opened EngineSpec
  import opened EngineTables

  ghost predicate Sound(g: Engine) {
    Agree(g.books, g.tables, 0, 0) && Tokens(g.tables)
  }

  // ---------------------------------------------------------------- orders enter and leave the tables

  lemma {:induction false} NoAggressor(books: map<Symbol, State>, t: Tables, agg: nat)
    requires Agree(books, t, agg, 0)
    ensures Agree(books, t, 0, 0)
  {
    hide Wf, Get, Booked;
    forall x ensures Entry(books, t, 0, 0, x) { assert Entry(books, t, agg, 0, x); }
    forall sm, x ensures Listed(books, t, 0, 0, sm, x) { assert Listed(books, t, agg, 0, sm, x); }
  }

  lemma {:induction false} OpenBookAgrees(books: map<Symbol, State>, t: Tables, sym: Symbol, agg: nat, rem: nat)
    requires Agree(books, t, agg, rem)
    ensures Agree(books[sym := BookOf(books, sym)], t, agg, rem)
  {
    assert forall id :: EMPTY.Find(id).None?;
    assert Wf(EMPTY);
    hide Wf, Get;
    var books' := books[sym := BookOf(books, sym)];
    forall x ensures Entry(books', t, agg, rem, x) { assert Entry(books, t, agg, rem, x); }
    forall sm, x ensures Listed(books', t, agg, rem, sm, x) { assert Listed(books, t, agg, rem, sm, x); }
  }

  /** A new order is in the tables and in no book. */
  lemma {:induction false} IntroduceAgrees(books: map<Symbol, State>, t: Tables, info: OrderInfo, msg: Response)
    requires Agree(books, t, 0, 0) && Tokens(t) && InfoKey(info) !in t.used && 0 < info.open < 0x1_0000_0000
    ensures var t' := Introduce(t, t.nextRef, info, msg);
      && Agree(books, t', t.nextRef, info.open) && Tokens(t')
      && t.nextRef !in t.orders && forall sym | sym in books :: books[sym].Find(t.nextRef).None?
  {
    hide Wf, Get, TokenView;
    var ref, t' := t.nextRef, Introduce(t, t.nextRef, info, msg);
    assert Entry(books, t, 0, 0, ref);
    forall x ensures Entry(books, t', ref, info.open, x) { assert Entry(books, t, 0, 0, x); }
    forall sm, x ensures Listed(books, t', ref, info.open, sm, x) { assert Listed(books, t, 0, 0, sm, x); }
    forall sm | sm in books ensures books[sm].Find(ref).None? { assert Listed(books, t, 0, 0, sm, ref); }
    forall x | x in t'.orders ensures InfoKey(t'.orders[x]) in t'.live && t'.live[InfoKey(t'.orders[x])] == x {
      assert x != ref ==> x in t.orders && InfoKey(t.orders[x]) in t.used;
    }
  }

  /** Shares that never rested are canceled: the order leaves the tables. */
  lemma {:induction false} ForgetAgrees(books: map<Symbol, State>, t: Tables, agg: nat, rem: nat, client: nat,
      token: Token, qty: nat, reason: char)
    requires Agree(books, t, agg, rem) && Tokens(t) && rem > 0
    requires t.orders[agg].client == client && t.orders[agg].token == token
    ensures var t' := CancelUnrested(t, client, agg, token, qty, reason);
      Agree(books, t', 0, 0) && Tokens(t') && t'.out == t.out + [To(client, CanceledMsg(token, qty, reason))]
        && t'.feed == t.feed
  {
    hide Wf, Get, TokenView, Booked;
    var t' := CancelUnrested(t, client, agg, token, qty, reason);
    forall x ensures Entry(books, t', 0, 0, x) { assert Entry(books, t, agg, rem, x); }
    forall sm, x ensures Listed(books, t', 0, 0, sm, x) { assert Listed(books, t, agg, rem, sm, x); }
  }

  /** An order is taken off its book and out of the tables. */
  lemma {:induction false} WithdrawAgrees(books: map<Symbol, State>, t: Tables, id: nat)
    requires Agree(books, t, 0, 0) && Tokens(t) && id in t.orders
    ensures var info := t.orders[id];
      && info.symbol in books && books[info.symbol].Find(id).Some?
        && books[info.symbol].Find(id).value.side == info.side
      && var s := books[info.symbol];
      && var t' := t.(live := t.live - {InfoKey(info)}, orders := t.orders - {id});
      && Agree(books[info.symbol := s.With(info.side, Remove(s.On(info.side), id))], t', 0, 0) && Tokens(t')
  {
    assert Entry(books, t, 0, 0, id);
    var info := t.orders[id];
    var s := books[info.symbol];
    ShrinkKeeps(s, info.side, id, 0);
    FindRemoved(s, id);
    var s' := s.With(info.side, Remove(s.On(info.side), id));
    hide Wf, Get, TokenView, Remove;
    var books', t' := books[info.symbol := s'], t.(live := t.live - {InfoKey(info)}, orders := t.orders - {id});
    hide Tokens;
    forall x ensures Entry(books', t', 0, 0, x) { assert Entry(books, t, 0, 0, x); }
    forall sm, x ensures Listed(books', t', 0, 0, sm, x) { assert Listed(books, t, 0, 0, sm, x); }
    WithdrawTokens(t, id);
  }

  lemma {:induction false} WithdrawTokens(t: Tables, id: nat)
    requires Tokens(t) && id in t.orders
    ensures Tokens(t.(live := t.live - {InfoKey(t.orders[id])}, orders := t.orders - {id}))
  {
    hide TokenView;
  }

  lemma {:induction false} FindRemoved(s: State, id: nat)
    requires Wf(s) && s.Find(id).Some?
    ensures var side := s.Find(id).value.side; var s' := s.With(side, Remove(s.On(side), id));
      forall x :: s'.Find(x) == if x == id then None else s.Find(x)
  {
    FindSide(s, id);
    var side := s.Find(id).value.side;
    hide Get, Remove, Sorted;
    forall x ensures Get(Remove(s.On(side), id), x) == if x == id then None else Get(s.On(side), x) {
      GetAfterRemove(s.On(side), id, x);
    }
  }

  // ---------------------------------------------------------------- a trade and what follows it

  lemma {:induction false} OnEventsAppend(t: Tables, ts: nat, sym: Symbol, suppress: bool, es: seq<Event>,
      es': seq<Event>)
    ensures OnEvents(t, ts, sym, suppress, es + es')
      == OnEvents(OnEvents(t, ts, sym, suppress, es), ts, sym, suppress, es')
    decreases |es|
  {
    hide OnEvent;
    if es == [] {
      assert es + es' == es';
    } else {
      assert (es + es')[1..] == es[1..] + es';
      OnEventsAppend(OnEvent(t, ts, sym, suppress, es[0]), ts, sym, suppress, es[1..], es');
    }
  }

  lemma {:induction false} OnOneEvent(t: Tables, ts: nat, sym: Symbol, suppress: bool, e: Event)
    ensures OnEvents(t, ts, sym, suppress, [e]) == OnEvent(t, ts, sym, suppress, e)
  {
    hide OnEvent;
    assert [e][1..] == [];
  }

  lemma {:induction false} MatchIsByAggressor(opp: seq<Order>, id: nat, side: Side, limit: int, qty: nat, matchId: nat)
    ensures AllBy(Match(opp, id, side, limit, qty, matchId).events, id)
  {
    if !(qty == 0 || opp == [] || !Crosses(side, limit, opp[0].price)) && qty >= opp[0].open {
      MatchIsByAggressor(opp[1..], id, side, limit, qty - opp[0].open, matchId + 1);
    }
  }

  lemma {:induction false} TradeFacts(s: State, agg: nat, side: Side, limit: int, qty: nat)
    requires Wf(s)
    ensures var o := Trade(s, agg, side, limit, qty);
      AllLegal(s, o.events) && Replay(s, o.events) == o.s && AllBy(o.events, agg)
        && SharesOf(o.events) == o.reply.filled
  {
    TradeExplained(s, agg, side, limit, qty);
    MatchIsByAggressor(s.On(Opposite(side)), agg, side, limit, qty, s.nextMatch);
    TradeConserves(s.On(Opposite(side)), agg, side, limit, qty, s.nextMatch);
    hide Match, Wf, AllLegal, Replay, AllBy, SharesOf, CanceledShares, Total;
  }

  lemma {:induction false} BookIsWf(books: map<Symbol, State>, t: Tables, agg: nat, rem: nat, sym: Symbol)
    requires Agree(books, t, agg, rem) && sym in books
    ensures Wf(books[sym])
  {
  }

  lemma {:induction false} TradeAgrees(books: map<Symbol, State>, t: Tables, ts: nat, sym: Symbol, suppress: bool,
      agg: nat, side: Side, limit: int, qty: nat)
    requires Agree(books, t, agg, qty) && Tokens(t) && sym in books && qty > 0
    ensures var o := Trade(books[sym], agg, side, limit, qty); var t' := OnEvents(t, ts, sym, suppress, o.events);
      && Agree(books[sym := o.s], t', agg, qty - o.reply.filled) && Tokens(t') && t'.nextRef == t.nextRef
        && t'.used == t.used
      && (o.reply.filled < qty ==> agg in t'.orders && t'.orders[agg] == t.orders[agg].(open := qty - o.reply.filled))
  {
    hide *;
    BookIsWf(books, t, agg, qty, sym);
    TradeFacts(books[sym], agg, side, limit, qty);
    ExecutionsAgree(books, t, ts, sym, suppress, Trade(books[sym], agg, side, limit, qty).events, agg, qty);
  }

  /** The order trades and its remainder comes to rest. */
  lemma {:induction false} EnterAgrees(books: map<Symbol, State>, t: Tables, ts: nat, sym: Symbol, suppress: bool,
      agg: nat, side: Side, price: int, qty: nat)
    requires Agree(books, t, agg, qty) && Tokens(t) && sym in books && qty > 0 && price > 0
    requires t.orders[agg].symbol == sym && t.orders[agg].side == side
    ensures var o := Enter(books[sym], agg, side, price, qty); var t' := OnEvents(t, ts, sym, suppress, o.events);
      Agree(books[sym := o.s], t', 0, 0) && Tokens(t') && t'.nextRef == t.nextRef && t'.used == t.used
  {
    hide Trade, OnEvents, Agree, Tokens, WouldCross, Wf, Rest, AllLegal, Replay, AllBy, SharesOf;
    var s := books[sym];
    BookIsWf(books, t, agg, qty, sym);
    TradeStops(s, agg, side, price, qty);
    TradeAgrees(books, t, ts, sym, suppress, agg, side, price, qty);
    var o := Trade(s, agg, side, price, qty);
    var t1, books1 := OnEvents(t, ts, sym, suppress, o.events), books[sym := o.s];
    var left := qty - o.reply.filled;
    if left == 0 {
      NoAggressor(books1, t1, agg);
    } else {
      var e := Added(agg, side, price, left);
      OnEventsAppend(t, ts, sym, suppress, o.events, [e]);
      OnOneEvent(t1, ts, sym, suppress, e);
      RestedAgrees(books1, t1, sym, agg, left, price);
      var s2 := Rest(o.s, agg, side, price, left);
      assert books1[sym := s2] == books[sym := s2];
      var feed := t1.feed + [MarketEvent(ts, sym, e)];
      SendAgrees(books1[sym := s2], t1, t1.out, feed, 0, 0);
      SendTokens(t1, t1.out, feed);
      assert OnEvent(t1, ts, sym, suppress, e) == t1.(out := t1.out, feed := feed);
    }
  }

  // ---------------------------------------------------------------- the commands

  lemma {:induction false} AcceptAgrees(g: Engine, client: nat, m: Message, side: Side)
    requires Sound(g) && m.EnterOrder? && 0 < m.shares < 0x1_0000_0000 && KeyOf(client, m.token) !in g.tables.used
    ensures var g1, ref := Accept(g, client, m, side), g.tables.nextRef;
      && Agree(g1.books, g1.tables, ref, m.shares) && Tokens(g1.tables)
      && m.stock in g1.books && g1.books[m.stock].Find(ref).None?
      && ref in g1.tables.orders && g1.tables.orders[ref] == OrderInfo(client, m.token, m.stock, side, m.shares)
  {
    var ref, info := g.tables.nextRef, OrderInfo(client, m.token, m.stock, side, m.shares);
    hide Agree, Tokens, TokenView, Get;
    OpenBookAgrees(g.books, g.tables, m.stock, 0, 0);
    IntroduceAgrees(g.books[m.stock := BookOf(g.books, m.stock)], g.tables, info,
      AcceptedMsg(m.token, side, m.shares, m.stock, m.price, ref));
  }

  lemma {:induction false} EnterSound(g: Engine, ts: nat, client: nat, m: Message)
    requires Sound(g) && m.EnterOrder? && OnWire(m)
    ensures Sound(HandleEnter(g, ts, client, m))
  {
    if KeyOf(client, m.token) in g.tables.used || (m.price != MARKET_PRICE && m.price <= 0) || m.shares == 0
      || SideOf(m.side).None? {
      RejectSound(g, client, m.token, 'T');
      RejectSound(g, client, m.token, 'X');
      RejectSound(g, client, m.token, 'Z');
      RejectSound(g, client, m.token, 'S');
      hide Sound, Reject, TokenView;
    } else {
      EnterAccepted(g, ts, client, m);
    }
  }

  lemma {:induction false} RejectSound(g: Engine, client: nat, token: Token, reason: char)
    requires Sound(g)
    ensures Sound(Reject(g, client, token, reason))
  {
    hide Agree, Tokens;
    SendAgrees(g.books, g.tables, g.tables.out + [To(client, RejectedMsg(token, reason))], g.tables.feed, 0, 0);
    SendTokens(g.tables, g.tables.out + [To(client, RejectedMsg(token, reason))], g.tables.feed);
  }

  /** The order `ref` has been accepted and is about to be worked on. */
  ghost predicate AtWork(g: Engine, client: nat, m: Message, side: Side, ref: nat) {
    && m.EnterOrder? && m.shares > 0 && (m.price == MARKET_PRICE || m.price > 0)
    && Agree(g.books, g.tables, ref, m.shares) && Tokens(g.tables)
    && m.stock in g.books && g.books[m.stock].Find(ref).None?
    && ref in g.tables.orders && g.tables.orders[ref] == OrderInfo(client, m.token, m.stock, side, m.shares)
  }

  lemma {:induction false} EnterAccepted(g: Engine, ts: nat, client: nat, m: Message)
    requires Sound(g) && m.EnterOrder? && OnWire(m)
    requires KeyOf(client, m.token) !in g.tables.used && (m.price == MARKET_PRICE || m.price > 0) && m.shares > 0
      && SideOf(m.side).Some?
    ensures Sound(HandleEnter(g, ts, client, m))
  {
    hide Agree, Tokens, TokenView, Accept, Work, Get, KeyOf, SideOf, Sound;
    AcceptAgrees(g, client, m, SideOf(m.side).value);
    WorkSound(Accept(g, client, m, SideOf(m.side).value), ts, client, m, SideOf(m.side).value, g.tables.nextRef);
  }

  lemma {:induction false} WorkSound(g: Engine, ts: nat, client: nat, m: Message, side: Side, ref: nat)
    requires AtWork(g, client, m, side, ref)
    ensures Sound(Work(g, ts, client, m, side, ref))
  {
    hide Agree, Tokens, TokenView, Killed, Trade, Enter, OnEvents, Get, CancelUnrested, EnterLimit, KeyOf, IsIoc;
    if Killed(g.books[m.stock], m, side) {
      ForgetAgrees(g.books, g.tables, ref, m.shares, client, m.token, m.shares, 'D');
    } else if IsIoc(m) {
      IocAgrees(g.books, g.tables, ts, m.stock, ref, side, EnterLimit(m, side), m.shares, client, m.token);
    } else {
      DayOrder(m);
      EnterAgrees(g.books, g.tables, ts, m.stock, false, ref, side, m.price, m.shares);
    }
  }

  lemma {:induction false} DayOrder(m: Message)
    requires m.EnterOrder? && !IsIoc(m)
    ensures m.price != MARKET_PRICE
  {
  }

  /** An immediate order trades and its remainder is canceled. */
  lemma {:induction false} IocAgrees(books: map<Symbol, State>, t: Tables, ts: nat, sym: Symbol, agg: nat, side: Side,
      limit: int, qty: nat, client: nat, token: Token)
    requires Agree(books, t, agg, qty) && Tokens(t) && sym in books && qty > 0
    requires agg in t.orders && t.orders[agg].client == client && t.orders[agg].token == token
    ensures var o := Trade(books[sym], agg, side, limit, qty); var t1 := OnEvents(t, ts, sym, false, o.events);
      var left := qty - o.reply.filled;
      var t2 := if left > 0 then CancelUnrested(t1, client, agg, token, left, 'I') else t1;
      Agree(books[sym := o.s], t2, 0, 0) && Tokens(t2)
  {
    hide *;
    TradeAgrees(books, t, ts, sym, false, agg, side, limit, qty);
    var o := Trade(books[sym], agg, side, limit, qty);
    var t1, left := OnEvents(t, ts, sym, false, o.events), qty - o.reply.filled;
    if left > 0 {
      ForgetAgrees(books[sym := o.s], t1, agg, left, client, token, left, 'I');
    } else {
      NoAggressor(books[sym := o.s], t1, agg);
    }
  }

  lemma {:induction false} CancelSound(g: Engine, ts: nat, client: nat, m: Message)
    requires Sound(g) && m.CancelOrder?
    ensures Sound(HandleCancel(g, ts, client, m))
  {
    var key, t := KeyOf(client, m.token), g.tables;
    if key in t.live && t.live[key] in t.orders {
      var id := t.live[key];
      assert Entry(g.books, t, 0, 0, id);
      var sym := t.orders[id].symbol;
      var o := ApplyCancel(g.books[sym], id, m.keep);
      CancelExplained(g.books[sym], id, m.keep);
      if o.events == [] {
        assert g.books[sym := o.s] == g.books;
      } else {
        var e := o.events[0];
        assert o.events == [e] && e.Canceled?;
        OneEventLegal(g.books[sym], e, o.s);
        hide Agree, Tokens, TokenView, OnEvents, ApplyCancel, Wf, Get, AllLegal, Replay, After, Legal, KeyOf;
        OnOneEvent(t, ts, sym, false, e);
        CanceledAgrees(g.books, t, ts, sym, e);
      }
    }
  }

  lemma {:induction false} OneEventLegal(s: State, e: Event, s': State)
    requires AllLegal(s, [e]) && Replay(s, [e]) == s'
    ensures Legal(s, e) && After(s, e) == s'
  {
    assert [e][1..] == [];
  }

  lemma {:induction false} ReplaceSound(g: Engine, ts: nat, client: nat, m: Message)
    requires Sound(g) && m.ReplaceOrder? && OnWire(m)
    ensures Sound(HandleReplace(g, ts, client, m))
  {
    var key, t := KeyOf(client, m.existing), g.tables;
    if key in t.live && KeyOf(client, m.replacement) !in t.used && m.price > 0 && m.shares > 0
      && t.live[key] in t.orders {
      ReplaceAgrees(g, ts, client, m, t.live[key]);
    }
  }

  /** The tables after the swap agree with the books from which the old order is gone. */
  lemma {:induction false} SwapAgrees(g: Engine, client: nat, m: Message, oldRef: nat)
    requires Sound(g) && m.ReplaceOrder? && 0 < m.shares < 0x1_0000_0000
    requires oldRef in g.tables.orders && KeyOf(client, m.replacement) !in g.tables.used
    ensures var t := g.tables; var info := t.orders[oldRef];
      && info.symbol in g.books && g.books[info.symbol].Find(oldRef).Some?
        && g.books[info.symbol].Find(oldRef).value.side == info.side
      && g.books[info.symbol].Find(t.nextRef).None? && t.nextRef != oldRef
      && var s := g.books[info.symbol]; var s1 := s.With(info.side, Remove(s.On(info.side), oldRef));
      && var t' := Swap(t, oldRef, InfoKey(info), client, m);
      && Agree(g.books[info.symbol := s1], t', t.nextRef, m.shares) && Tokens(t')
      && t.nextRef in t'.orders && t'.orders[t.nextRef]
        == OrderInfo(client, m.replacement, info.symbol, info.side, m.shares)
      && oldRef !in t'.orders
  {
    var t := g.tables;
    var info := t.orders[oldRef];
    WithdrawAgrees(g.books, t, oldRef);
    assert Entry(g.books, t, 0, 0, oldRef) && Entry(g.books, t, 0, 0, t.nextRef)
      && Listed(g.books, t, 0, 0, info.symbol, t.nextRef);
    hide Agree, Tokens, TokenView, Get, Remove, Entry, Listed;
    var s := g.books[info.symbol];
    var books1 := g.books[info.symbol := s.With(info.side, Remove(s.On(info.side), oldRef))];
    var t1 := t.(live := t.live - {InfoKey(info)}, orders := t.orders - {oldRef});
    IntroduceAgrees(books1, t1, OrderInfo(client, m.replacement, info.symbol, info.side, m.shares),
                    ReplacedMsg(m.replacement, info.token, info.side, m.shares, info.symbol, m.price, t.nextRef));
  }

  lemma {:induction false} ReplaceAgrees(g: Engine, ts: nat, client: nat, m: Message, oldRef: nat)
    requires Sound(g) && m.ReplaceOrder? && OnWire(m) && m.price > 0 && m.shares > 0
    requires KeyOf(client, m.existing) in g.tables.live && g.tables.live[KeyOf(client, m.existing)] == oldRef
    requires oldRef in g.tables.orders && KeyOf(client, m.replacement) !in g.tables.used
    ensures Sound(HandleReplace(g, ts, client, m))
  {
    hide Agree, Tokens, TokenView, Get, Remove, Swap, Enter, OnEvents, Rest, WouldCross, InfoKey, KeyOf, Sound;
    var t := g.tables;
    var info := t.orders[oldRef];
    LiveKey(g, KeyOf(client, m.existing));
    SwapAgrees(g, client, m, oldRef);
    var sym, s, newRef := info.symbol, g.books[info.symbol], t.nextRef;
    var s1, t1 := s.With(info.side, Remove(s.On(info.side), oldRef)), Swap(t, oldRef, InfoKey(info), client, m);
    var books1 := g.books[sym := s1];
    var o := ApplyReplace(s, oldRef, newRef, m.price, m.shares);
    if WouldCross(s1, info.side, m.price) {
      CrossingAgrees(books1, t1, ts, sym, oldRef, s.Find(oldRef).value.open, newRef, info.side, m.price, m.shares);
    } else {
      JoiningAgrees(books1, t1, ts, sym, oldRef, newRef, info.side, m.price, m.shares);
    }
    assert books1[sym := o.s] == g.books[sym := o.s];
    SoundIs(HandleReplace(g, ts, client, m));
  }

  lemma {:induction false} LiveKey(g: Engine, k: Key)
    requires Sound(g) && k in g.tables.live
    ensures g.tables.live[k] in g.tables.orders && InfoKey(g.tables.orders[g.tables.live[k]]) == k
  {
    hide Agree, InfoKey;
  }

  lemma {:induction false} SoundIs(g: Engine)
    requires Agree(g.books, g.tables, 0, 0) && Tokens(g.tables)
    ensures Sound(g)
  {
    hide Agree, Tokens;
  }

  /** A crossing replace, once the old order is gone: a cancel for the market, then the life of a new order. */
  lemma {:induction false} CrossingAgrees(books: map<Symbol, State>, t: Tables, ts: nat, sym: Symbol, oldRef: nat,
      oldOpen: nat, newRef: nat, side: Side, price: int, qty: nat)
    requires Agree(books, t, newRef, qty) && Tokens(t) && sym in books && qty > 0 && price > 0 && oldRef !in t.orders
    requires newRef in t.orders && t.orders[newRef].symbol == sym && t.orders[newRef].side == side
    ensures var o := Enter(books[sym], newRef, side, price, qty);
      var t' := OnEvents(t, ts, sym, true, [Canceled(oldRef, oldOpen, true)] + o.events);
      Agree(books[sym := o.s], t', 0, 0) && Tokens(t')
  {
    hide *;
    var e, es := Canceled(oldRef, oldOpen, true), Enter(books[sym], newRef, side, price, qty).events;
    RetiredCancel(t, ts, sym, e, es);
    var feed := t.feed + [MarketEvent(ts, sym, e)];
    SendAgrees(books, t, t.out, feed, newRef, qty);
    SendTokens(t, t.out, feed);
    EnterAgrees(books, t.(out := t.out, feed := feed), ts, sym, true, newRef, side, price, qty);
  }

  /** A replace that does not cross: the new order joins its queue. */
  lemma {:induction false} JoiningAgrees(books: map<Symbol, State>, t: Tables, ts: nat, sym: Symbol, oldRef: nat,
      newRef: nat, side: Side, price: int, qty: nat)
    requires Agree(books, t, newRef, qty) && Tokens(t) && sym in books && qty > 0 && price > 0
      && !WouldCross(books[sym], side, price)
    requires newRef in t.orders && t.orders[newRef].symbol == sym && t.orders[newRef].side == side
    ensures var t' := OnEvents(t, ts, sym, true, [Replaced(oldRef, newRef, side, price, qty)]);
      Agree(books[sym := Rest(books[sym], newRef, side, price, qty)], t', 0, 0) && Tokens(t')
  {
    var e := Replaced(oldRef, newRef, side, price, qty);
    OnOneEvent(t, ts, sym, true, e);
    var feed := t.feed + [MarketEvent(ts, sym, e)];
    assert OnEvent(t, ts, sym, true, e) == t.(out := t.out, feed := feed);
    hide *;
    RestedAgrees(books, t, sym, newRef, qty, price);
    SendAgrees(books[sym := Rest(books[sym], newRef, side, price, qty)], t, t.out, feed, 0, 0);
    SendTokens(t, t.out, feed);
  }

  /** The cancel of a crossing replace: published to the market, unseen by the client, without effect on the tables. */
  lemma {:induction false} RetiredCancel(t: Tables, ts: nat, sym: Symbol, e: Event, es: seq<Event>)
    requires e.Canceled? && e.removed && e.id !in t.orders
    ensures OnEvents(t, ts, sym, true, [e] + es)
      == OnEvents(t.(out := t.out, feed := t.feed + [MarketEvent(ts, sym, e)]), ts, sym, true, es)
  {
    assert ([e] + es)[1..] == es;
  }

  lemma {:induction false} HandleSound(g: Engine, ts: nat, client: nat, m: Message)
    requires Sound(g) && OnWire(m)
    ensures Sound(Handle(g, ts, client, m))
  {
    hide Sound, HandleEnter, HandleCancel, HandleReplace;
    match m {
      case EnterOrder(_, _, _, _, _, _, _) => EnterSound(g, ts, client, m);
      case CancelOrder(_, _) => CancelSound(g, ts, client, m);
      case ReplaceOrder(_, _, _, _) => ReplaceSound(g, ts, client, m);
    }
  }

  /**
   After every run, the orders table holds exactly the resting orders of all books, with the same symbols, sides and
   open quantities, and the live tokens are a bijection onto it.
   */
  lemma {:induction false} RunSound(cs: seq<ClientCommand>)
    requires AllOnWire(cs)
    ensures Sound(RunEngine(cs))
  {
    if cs != [] {
      var c := cs[|cs| - 1];
      RunSound(cs[..|cs| - 1]);
      HandleSound(RunEngine(cs[..|cs| - 1]), c.ts, c.client, c.msg);
    }
  }
}
