/** The engine's tables agree with its books, event by event. */
module EngineTables {
  import opened Book
  import opened BookLemmas
  import opened BookEvents
  import opened BookProperties
  import opened Matching
  import opened EngineSpec

  predicate Same(info: OrderInfo, symbol: Symbol, o: Order) {
    info.symbol == symbol && info.side == o.side && info.open == o.open
  }

  ghost predicate Booked(books: map<Symbol, State>, id: nat, info: OrderInfo) {
    info.symbol in books && books[info.symbol].Find(id).Some?
      && Same(info, info.symbol, books[info.symbol].Find(id).value)
  }

  /** A resting order is in the table, under its symbol, and is not the order that is being matched. */
  ghost predicate Listed(books: map<Symbol, State>, t: Tables, agg: nat, rem: nat, sym: Symbol, id: nat) {
    sym in books && books[sym].Find(id).Some? ==>
      id in t.orders && t.orders[id].symbol == sym && (rem > 0 ==> id != agg)
  }

  /** An order in the table rests with the same symbol, side and open quantity, or is the one being matched. */
  ghost predicate Entry(books: map<Symbol, State>, t: Tables, agg: nat, rem: nat, id: nat) {
    id in t.orders ==>
      && id < t.nextRef && 0 < t.orders[id].open < 0x1_0000_0000
      && if rem > 0 && id == agg then t.orders[id].open == rem else Booked(books, id, t.orders[id])
  }

  /**
   The orders table holds exactly the resting orders of all books, with their symbols, sides and open quantities,
   and besides them the order `agg` that is being matched, with the `rem` shares it has left.
   */
  ghost predicate Agree(books: map<Symbol, State>, t: Tables, agg: nat, rem: nat) {
    && (forall sym | sym in books :: Wf(books[sym]))
    && (forall sym, id :: Listed(books, t, agg, rem, sym, id))
    && (forall id :: Entry(books, t, agg, rem, id))
    && (rem > 0 ==> agg in t.orders)
  }

  /** The live tokens are in bijection with the orders table, and only used tokens are live. */
  ghost predicate Tokens(t: Tables) {
    && (forall id | id in t.orders :: InfoKey(t.orders[id]) in t.live && t.live[InfoKey(t.orders[id])] == id)
    && (forall k | k in t.live :: t.live[k] in t.orders && InfoKey(t.orders[t.live[k]]) == k && k in t.used)
  }

  // ---------------------------------------------------------------- a book changes one order

  /** In the book, order `id` now has `open` shares; everything else is as before. */
  ghost predicate OnlyOrder(s: State, s': State, id: nat, open: nat) {
    && (forall x | x != id :: s'.Find(x) == s.Find(x))
    && s.Find(id).Some?
    && s'.Find(id) == if open == 0 then None else Some(s.Find(id).value.(open := open))
  }

  lemma {:induction false} ReducedInBook(s: State, side: Side, id: nat, less: nat, n: nat)
    requires Wf(s) && Get(s.On(side), id).Some? && less <= Get(s.On(side), id).value.open
    ensures OnlyOrder(s, s.With(side, Reduce(s.On(side), id, less)).(nextMatch := n), id,
      Get(s.On(side), id).value.open - less)
  {
    var l := s.On(side);
    assert Get(s.On(Opposite(side)), id).None?;
    hide Sorted, UniqueIds, Get, Remove, SetOpen;
    var open := Get(l, id).value.open - less;
    forall x ensures Get(Remove(l, id), x) == if x == id then None else Get(l, x) { GetAfterRemove(l, id, x); }
    forall x ensures Get(SetOpen(l, id, open), x) == if x == id then Some(Get(l, x).value.(open := open))
      else Get(l, x) {
      GetAfterSetOpen(l, id, open, x);
    }
  }

  lemma {:induction false} ExecutedInBook(s: State, e: Event)
    requires Wf(s) && e.Executed? && Legal(s, e)
    ensures s.Find(e.restingId).Some? && e.qty <= s.Find(e.restingId).value.open
    ensures OnlyOrder(s, After(s, e), e.restingId, s.Find(e.restingId).value.open - e.qty)
  {
    var opp := Opposite(e.aggressorSide);
    var o := s.On(opp)[0];
    assert Get(s.On(opp), o.id) == Some(o);
    assert Get(s.On(e.aggressorSide), o.id).None?;
    hide Sorted, UniqueIds, Get, Reduce;
    ReducedInBook(s, opp, o.id, e.qty, s.nextMatch + 1);
  }

  lemma {:induction false} CanceledInBook(s: State, e: Event)
    requires Wf(s) && e.Canceled? && Legal(s, e)
    ensures e.qty <= s.Find(e.id).value.open
    ensures OnlyOrder(s, After(s, e), e.id, s.Find(e.id).value.open - e.qty)
  {
    FindSide(s, e.id);
    var o := s.Find(e.id).value;
    hide Wf, Get, Reduce;
    ReducedInBook(s, o.side, e.id, e.qty, s.nextMatch);
  }

  // ---------------------------------------------------------------- table steps

  /** Reducing an order in its book and in the tables keeps them in step. */
  lemma {:induction false} ReduceAgrees(books: map<Symbol, State>, t: Tables, sym: Symbol, s': State, id: nat,
      less: nat, agg: nat, rem: nat)
    requires Agree(books, t, agg, rem) && sym in books && Wf(s') && books[sym].Find(id).Some?
    requires less <= books[sym].Find(id).value.open
      && OnlyOrder(books[sym], s', id, books[sym].Find(id).value.open - less)
    ensures Agree(books[sym := s'], ReduceOpen(t, id, less), agg, rem)
  {
    hide Wf, Get;
    assert Listed(books, t, agg, rem, sym, id) && Entry(books, t, agg, rem, id);
    ExactWrap(t.orders[id].open - less);
    hide Wrap, TokenView;
    var books', t' := books[sym := s'], ReduceOpen(t, id, less);
    forall x ensures Entry(books', t', agg, rem, x) { assert Entry(books, t, agg, rem, x); }
    forall sm, x ensures Listed(books', t', agg, rem, sm, x) {
      assert Listed(books, t, agg, rem, sm, x) && Entry(books, t, agg, rem, x);
    }
  }

  /** The order being matched loses shares in the tables only. */
  lemma {:induction false} AggressorAgrees(books: map<Symbol, State>, t: Tables, less: nat, agg: nat, rem: nat)
    requires Agree(books, t, agg, rem) && 0 < less <= rem
    ensures Agree(books, ReduceOpen(t, agg, less), agg, rem - less)
    ensures rem - less > 0 ==> ReduceOpen(t, agg, less).orders[agg] == t.orders[agg].(open := rem - less)
  {
    hide Wf, Get;
    assert Entry(books, t, agg, rem, agg);
    ExactWrap(rem - less);
    hide Wrap, TokenView, Booked;
    var t', left := ReduceOpen(t, agg, less), rem - less;
    forall x ensures Entry(books, t', agg, left, x) { assert Entry(books, t, agg, rem, x); }
    forall sm, x ensures Listed(books, t', agg, left, sm, x) { assert Listed(books, t, agg, rem, sm, x); }
  }

  lemma {:induction false} ExactWrap(n: int)
    requires 0 <= n < 0x1_0000_0000
    ensures Wrap(n) == n
  {
  }

  lemma {:induction false} ReduceTokens(t: Tables, id: nat, less: nat)
    requires Tokens(t)
    ensures Tokens(ReduceOpen(t, id, less))
  {
    hide Wrap, TokenView;
    if id in t.orders {
      var t' := ReduceOpen(t, id, less);
      forall x | x in t'.orders ensures InfoKey(t'.orders[x]) in t'.live && t'.live[InfoKey(t'.orders[x])] == x {
        assert x in t.orders;
      }
    }
  }

  lemma {:induction false} SendAgrees(books: map<Symbol, State>, t: Tables, out: seq<ClientResponse>,
      feed: seq<MarketEvent>, agg: nat, rem: nat)
    requires Agree(books, t, agg, rem)
    ensures Agree(books, t.(out := out, feed := feed), agg, rem)
  {
    hide Wf, Get, Booked;
    var t' := t.(out := out, feed := feed);
    forall x ensures Entry(books, t', agg, rem, x) { assert Entry(books, t, agg, rem, x); }
    forall sm, x ensures Listed(books, t', agg, rem, sm, x) { assert Listed(books, t, agg, rem, sm, x); }
  }

  lemma {:induction false} SendTokens(t: Tables, out: seq<ClientResponse>, feed: seq<MarketEvent>)
    requires Tokens(t)
    ensures Tokens(t.(out := out, feed := feed))
  {
  }

  // ---------------------------------------------------------------- event steps

  /** What an execution tells both owners. */
  function FillsOf(t: Tables, e: Event): seq<ClientResponse>
    requires e.Executed? && e.restingId in t.orders && e.aggressorId in t.orders
  {
    [To(t.orders[e.restingId].client, ExecutedMsg(t.orders[e.restingId].token, e.qty, e.price, 'A', e.matchId)),
     To(t.orders[e.aggressorId].client, ExecutedMsg(t.orders[e.aggressorId].token, e.qty, e.price, 'R', e.matchId))]
  }

  lemma {:induction false} OnExecutedIs(t: Tables, ts: nat, sym: Symbol, suppress: bool, e: Event)
    requires e.Executed? && e.restingId in t.orders && e.aggressorId in t.orders
    ensures OnEvent(t, ts, sym, suppress, e)
         == ReduceOpen(ReduceOpen(t.(out := t.out + FillsOf(t, e), feed := t.feed + [MarketEvent(ts, sym, e)]),
           e.restingId, e.qty), e.aggressorId, e.qty)
  {
    hide ReduceOpen;
    var t1 := t.(feed := t.feed + [MarketEvent(ts, sym, e)]);
    var t2 := Notify(Notify(t1, e.restingId, e, 'A'), e.aggressorId, e, 'R');
    assert t2 == t.(out := t.out + FillsOf(t, e), feed := t1.feed);
  }

  lemma {:induction false} ReduceFrame(t: Tables, id: nat, less: nat)
    ensures var t' := ReduceOpen(t, id, less);
      && t'.out == t.out && t'.feed == t.feed && t'.used == t.used && t'.nextRef == t.nextRef
      && forall x | x != id :: (x in t'.orders <==> x in t.orders) && (x in t.orders ==> t'.orders[x] == t.orders[x])
  {
    hide Wrap, TokenView;
  }

  lemma {:induction false} Parties(books: map<Symbol, State>, t: Tables, sym: Symbol, e: Event, agg: nat, rem: nat)
    requires Agree(books, t, agg, rem) && sym in books && e.Executed? && Legal(books[sym], e) && e.aggressorId == agg
      && e.qty <= rem
    ensures 0 < e.qty && agg in t.orders && e.restingId in t.orders && e.restingId != agg
      && t.orders[e.restingId].symbol == sym
    ensures t.orders[agg].open == rem
  {
    ExecutedInBook(books[sym], e);
    hide Wf, Get, After, OnlyOrder, Booked;
    assert Listed(books, t, agg, rem, sym, e.restingId) && Entry(books, t, agg, rem, agg);
  }

  /** An execution: both parties are told, both lose the shares, and both tables follow the book. */
  lemma {:induction false} ExecutedAgrees(books: map<Symbol, State>, t: Tables, ts: nat, sym: Symbol, suppress: bool,
      e: Event, agg: nat, rem: nat)
    requires Agree(books, t, agg, rem) && Tokens(t) && sym in books && e.Executed? && Legal(books[sym], e)
    requires e.aggressorId == agg && e.qty <= rem
    ensures var t' := OnEvent(t, ts, sym, suppress, e);
      && Agree(books[sym := After(books[sym], e)], t', agg, rem - e.qty) && Tokens(t')
      && e.restingId in t.orders && agg in t.orders
      && t'.out == t.out + FillsOf(t, e) && t'.nextRef == t.nextRef && t'.used == t.used
      && (rem - e.qty > 0 ==> agg in t'.orders && t'.orders[agg] == t.orders[agg].(open := rem - e.qty))
  {
    var s, s' := books[sym], After(books[sym], e);
    LegalKeeps(s, e);
    ExecutedInBook(s, e);
    Parties(books, t, sym, e, agg, rem);
    hide Wf, Get, Legal, After, OnlyOrder, Agree, Tokens, ReduceOpen, OnEvent, FillsOf;
    OnExecutedIs(t, ts, sym, suppress, e);
    var t2 := t.(out := t.out + FillsOf(t, e), feed := t.feed + [MarketEvent(ts, sym, e)]);
    SendAgrees(books, t, t2.out, t2.feed, agg, rem);
    SendTokens(t, t2.out, t2.feed);
    ReduceAgrees(books, t2, sym, s', e.restingId, e.qty, agg, rem);
    ReduceTokens(t2, e.restingId, e.qty);
    ReduceFrame(t2, e.restingId, e.qty);
    var t3 := ReduceOpen(t2, e.restingId, e.qty);
    AggressorAgrees(books[sym := s'], t3, e.qty, agg, rem);
    ReduceTokens(t3, agg, e.qty);
    ReduceFrame(t3, agg, e.qty);
    if rem - e.qty > 0 { StillThere(books[sym := s'], ReduceOpen(t3, agg, e.qty), agg, rem - e.qty); }
  }

  lemma {:induction false} StillThere(books: map<Symbol, State>, t: Tables, agg: nat, rem: nat)
    requires Agree(books, t, agg, rem) && rem > 0
    ensures agg in t.orders && t.orders[agg].open == rem
  {
    assert Entry(books, t, agg, rem, agg);
  }

  lemma {:induction false} OnCanceledIs(t: Tables, ts: nat, sym: Symbol, e: Event)
    requires e.Canceled? && e.id in t.orders && e.qty <= t.orders[e.id].open < 0x1_0000_0000
      && (!e.removed ==> e.qty < t.orders[e.id].open)
    ensures OnEvent(t, ts, sym, false, e)
         == ReduceOpen(t.(out := t.out + [To(t.orders[e.id].client, CanceledMsg(t.orders[e.id].token, e.qty, 'U'))],
                          feed := t.feed + [MarketEvent(ts, sym, e)]), e.id, e.qty)
  {
    ExactWrap(t.orders[e.id].open - e.qty);
    hide Wrap, TokenView;
  }

  /** A cancel that the client is told about. */
  lemma {:induction false} CanceledAgrees(books: map<Symbol, State>, t: Tables, ts: nat, sym: Symbol, e: Event)
    requires Agree(books, t, 0, 0) && Tokens(t) && sym in books && e.Canceled? && Legal(books[sym], e)
    ensures var t' := OnEvent(t, ts, sym, false, e);
      && Agree(books[sym := After(books[sym], e)], t', 0, 0) && Tokens(t')
      && t'.used == t.used && t'.nextRef == t.nextRef
      && e.id in t.orders && 0 < e.qty <= t.orders[e.id].open
      && t'.out == t.out + [To(t.orders[e.id].client, CanceledMsg(t.orders[e.id].token, e.qty, 'U'))]
  {
    var s, s' := books[sym], After(books[sym], e);
    LegalKeeps(s, e);
    CanceledInBook(s, e);
    FindSide(s, e.id);
    assert Listed(books, t, 0, 0, sym, e.id) && Entry(books, t, 0, 0, e.id);
    assert (!e.removed ==> e.qty < t.orders[e.id].open) && (e.removed ==> e.qty == t.orders[e.id].open);
    hide Wf, Get, Legal, After, OnlyOrder, Agree, Tokens, ReduceOpen, OnEvent, Entry, Listed;
    OnCanceledIs(t, ts, sym, e);
    var out := t.out + [To(t.orders[e.id].client, CanceledMsg(t.orders[e.id].token, e.qty, 'U'))];
    var feed := t.feed + [MarketEvent(ts, sym, e)];
    SendAgrees(books, t, out, feed, 0, 0);
    SendTokens(t, out, feed);
    var t1 := t.(out := out, feed := feed);
    ReduceAgrees(books, t1, sym, s', e.id, e.qty, 0, 0);
    ReduceTokens(t1, e.id, e.qty);
    ReduceFrame(t1, e.id, e.qty);
  }

  /** The order that was being matched comes to rest with what it has left. */
  lemma {:induction false} RestedAgrees(books: map<Symbol, State>, t: Tables, sym: Symbol, agg: nat, rem: nat,
      price: int)
    requires Agree(books, t, agg, rem) && rem > 0 && sym in books && t.orders[agg].symbol == sym && price > 0
    requires !WouldCross(books[sym], t.orders[agg].side, price)
    ensures books[sym].Find(agg).None?
    ensures Agree(books[sym := Rest(books[sym], agg, t.orders[agg].side, price, rem)], t, 0, 0)
  {
    var s, side := books[sym], t.orders[agg].side;
    assert Listed(books, t, agg, rem, sym, agg) && Entry(books, t, agg, rem, agg);
    RestKeeps(s, agg, side, price, rem);
    FindRested(s, agg, side, price, rem);
    hide Wf, WouldCross, Rest, Get;
    var s' := Rest(s, agg, side, price, rem);
    var books' := books[sym := s'];
    forall x ensures Entry(books', t, 0, 0, x) { assert Entry(books, t, agg, rem, x); }
    forall sm, x ensures Listed(books', t, 0, 0, sm, x) { assert Listed(books, t, agg, rem, sm, x); }
  }

  lemma {:induction false} FindRested(s: State, id: nat, side: Side, price: int, qty: nat)
    requires s.Find(id).None?
    ensures forall x :: Rest(s, id, side, price, qty).Find(x) == if x == id then Some(Order(id, side, price, qty))
      else s.Find(x)
  {
    hide Get, Insert;
    var o := Order(id, side, price, qty);
    forall x ensures Get(Insert(s.On(side), o), x) == if x == id then Some(o) else Get(s.On(side), x) {
      GetAfterInsert(s.On(side), o, x);
    }
  }

  // ---------------------------------------------------------------- the executions of one order

  /** All of these are executions of incoming order `agg`. */
  ghost predicate AllBy(es: seq<Event>, agg: nat) {
    forall e | e in es :: e.Executed? && e.aggressorId == agg
  }

  /** Throughout a match loop the recorded open quantity of the aggressor is what it has left. */
  lemma {:induction false} ExecutionsAgree(books: map<Symbol, State>, t: Tables, ts: nat, sym: Symbol, suppress: bool,
      es: seq<Event>, agg: nat, rem: nat)
    requires Agree(books, t, agg, rem) && Tokens(t) && sym in books && AllLegal(books[sym], es) && AllBy(es, agg)
      && SharesOf(es) <= rem
    ensures var t' := OnEvents(t, ts, sym, suppress, es); var s' := Replay(books[sym], es);
      && Agree(books[sym := s'], t', agg, rem - SharesOf(es)) && Tokens(t')
      && t'.nextRef == t.nextRef && t'.used == t.used
      && (rem - SharesOf(es) > 0 ==> agg in t'.orders && t'.orders[agg] == t.orders[agg].(open := rem - SharesOf(es)))
    decreases |es|
  {
    hide Agree, Tokens, Legal, After, OnEvent;
    if es == [] {
      assert books[sym := books[sym]] == books;
      if rem > 0 { StillThere(books, t, agg, rem); }
    } else {
      var e := es[0];
      assert e in es;
      ExecutedAgrees(books, t, ts, sym, suppress, e, agg, rem);
      var books1 := books[sym := After(books[sym], e)];
      ExecutionsAgree(books1, OnEvent(t, ts, sym, suppress, e), ts, sym, suppress, es[1..], agg, rem - e.qty);
      assert books1[sym := Replay(books1[sym], es[1..])] == books[sym := Replay(books[sym], es)];
    }
  }

  // ---------------------------------------------------------------- the feed

  function FeedOf(ts: nat, sym: Symbol, es: seq<Event>): (f: seq<MarketEvent>)
    ensures |f| == |es|
  {
    seq(|es|, i requires 0 <= i < |es| => MarketEvent(ts, sym, es[i]))
  }

  lemma {:induction false} OneEventFeed(t: Tables, ts: nat, sym: Symbol, suppress: bool, e: Event)
    ensures var t' := OnEvent(t, ts, sym, suppress, e);
      t'.feed == t.feed + [MarketEvent(ts, sym, e)] && t'.nextRef == t.nextRef
  {
    hide TokenView;
  }

  /** The callbacks put every event on the feed, in order, and hand out no reference. */
  lemma {:induction false} EventsFeed(t: Tables, ts: nat, sym: Symbol, suppress: bool, es: seq<Event>)
    ensures var t' := OnEvents(t, ts, sym, suppress, es);
      t'.feed == t.feed + FeedOf(ts, sym, es) && t'.nextRef == t.nextRef
    decreases |es|
  {
    hide OnEvent;
    if es != [] {
      OneEventFeed(t, ts, sym, suppress, es[0]);
      EventsFeed(OnEvent(t, ts, sym, suppress, es[0]), ts, sym, suppress, es[1..]);
      assert FeedOf(ts, sym, es) == [MarketEvent(ts, sym, es[0])] + FeedOf(ts, sym, es[1..]);
    }
  }
}
