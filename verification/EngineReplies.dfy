/** What a client is told about each of its commands, and what a refused command leaves alone. */
module EngineReplies {
  import opened Book
  import opened Matching
  import opened EngineSpec
  import opened EngineTables
  import opened EngineInvariant

  // ---------------------------------------------------------------- responses are only ever appended

  lemma {:induction false} EventAppends(t: Tables, ts: nat, sym: Symbol, suppress: bool, e: Event)
    ensures var t' := OnEvent(t, ts, sym, suppress, e); t.out <= t'.out && t'.used == t.used && t'.nextRef == t.nextRef
  {
    hide TokenView, Wrap;
  }

  lemma {:induction false} EventsAppend(t: Tables, ts: nat, sym: Symbol, suppress: bool, es: seq<Event>)
    ensures var t' := OnEvents(t, ts, sym, suppress, es);
      t.out <= t'.out && t'.used == t.used && t'.nextRef == t.nextRef
    decreases |es|
  {
    hide OnEvent;
    if es != [] {
      EventAppends(t, ts, sym, suppress, es[0]);
      EventsAppend(OnEvent(t, ts, sym, suppress, es[0]), ts, sym, suppress, es[1..]);
    }
  }

  lemma {:induction false} WorkAppends(g: Engine, ts: nat, client: nat, m: Message, side: Side, ref: nat)
    requires m.EnterOrder?
    ensures var g' := Work(g, ts, client, m, side, ref);
      g.tables.out <= g'.tables.out && g'.tables.used == g.tables.used && g'.tables.nextRef == g.tables.nextRef
  {
    var book := BookOf(g.books, m.stock);
    var limit := EnterLimit(m, side);
    EventsAppend(g.tables, ts, m.stock, false, Trade(book, ref, side, limit, m.shares).events);
    EventsAppend(g.tables, ts, m.stock, false, ApplyAdd(book, ref, side, m.price, m.shares).events);
    hide OnEvents, Killed, Trade, ApplyAdd, TokenView, EnterLimit;
  }

  // ---------------------------------------------------------------- entering an order

  /** Why an order is refused, if it is: the first reason that applies. */
  function Refusal(g: Engine, client: nat, m: Message): Option<char>
    requires m.EnterOrder?
  {
    if KeyOf(client, m.token) in g.tables.used then Some('T')
    else if m.price != 0x7FFF_FFFF && m.price <= 0 then Some('X')
    else if m.shares == 0 then Some('Z')
    else if m.side != 'B' && m.side != 'S' then Some('S')
    else None
  }

  /**
   Every order is answered at once and first of all: a refused one with its reason, and nothing else changes; any other
   one with an acceptance that repeats the order under a new reference, and its token is used from then on.
   */
  lemma {:induction false} EnterAnswered(g: Engine, ts: nat, client: nat, m: Message)
    requires m.EnterOrder?
    ensures var g', n, why := HandleEnter(g, ts, client, m), |g.tables.out|, Refusal(g, client, m);
      && g.tables.out < g'.tables.out
      && (why.Some? ==> g' == g.(tables := g.tables.(out := g.tables.out
        + [To(client, RejectedMsg(m.token, why.value))])))
      && (why.None? ==>
            && g'.tables.out[n] == To(client,
              AcceptedMsg(m.token, if m.side == 'B' then Buy else Sell, m.shares, m.stock, m.price, g.tables.nextRef))
            && g'.tables.used == g.tables.used + {KeyOf(client, m.token)} && g'.tables.nextRef == g.tables.nextRef + 1)
  {
    if Refusal(g, client, m).None? {
      var side := if m.side == 'B' then Buy else Sell;
      WorkAppends(Accept(g, client, m, side), ts, client, m, side, g.tables.nextRef);
      hide Work, TokenView;
    }
  }

  // ---------------------------------------------------------------- replacing an order

  /** The replace names a live order and a new token, with a price and a size. */
  predicate Replaceable(g: Engine, client: nat, m: Message)
    requires m.ReplaceOrder?
  {
    && KeyOf(client, m.existing) in g.tables.live && KeyOf(client, m.replacement) !in g.tables.used
    && m.price > 0 && m.shares > 0
  }

  /**
   A replace either changes nothing at all or is answered first of all with the new order and the token it replaces.
   */
  lemma {:induction false} ReplaceAnswered(g: Engine, ts: nat, client: nat, m: Message)
    requires Sound(g) && m.ReplaceOrder?
    ensures !Replaceable(g, client, m) ==> HandleReplace(g, ts, client, m) == g
    ensures Replaceable(g, client, m) ==>
      var g', n, id := HandleReplace(g, ts, client, m), |g.tables.out|, g.tables.live[KeyOf(client, m.existing)];
      && id in g.tables.orders && g.tables.out < g'.tables.out
      && g'.tables.out[n] == To(client,
        ReplacedMsg(m.replacement, m.existing, g.tables.orders[id].side, m.shares, g.tables.orders[id].symbol, m.price,
          g.tables.nextRef))
      && g'.tables.used == g.tables.used + {KeyOf(client, m.replacement)} && g'.tables.nextRef == g.tables.nextRef + 1
  {
    if Replaceable(g, client, m) {
      var key := KeyOf(client, m.existing);
      var id := g.tables.live[key];
      OwnToken(g, client, m.existing);
      var sym := g.tables.orders[id].symbol;
      var t1 := Swap(g.tables, id, key, client, m);
      EventsAppend(t1, ts, sym, true,
        ApplyReplace(BookOf(g.books, sym), id, g.tables.nextRef, m.price, m.shares).events);
      hide OnEvents, ApplyReplace, TokenView, Sound;
    }
  }

  /** A live token of a client leads to an order of that client under exactly that token. */
  lemma {:induction false} OwnToken(g: Engine, client: nat, token: Token)
    requires Sound(g) && KeyOf(client, token) in g.tables.live
    ensures var id := g.tables.live[KeyOf(client, token)];
      id in g.tables.orders && g.tables.orders[id].client == client && g.tables.orders[id].token == token
  {
    LiveKey(g, KeyOf(client, token));
    TokenViewInjective(g.tables.orders[g.tables.live[KeyOf(client, token)]].token, token);
    hide TokenView, Agree, Tokens;
  }

  // ---------------------------------------------------------------- canceling an order

  /** The open shares of a token. */
  function OpenOf(t: Tables, key: Key): nat {
    if key in t.live && t.live[key] in t.orders then t.orders[t.live[key]].open else 0
  }

  /**
   A cancel leaves the smaller of what is open and what the client wants to keep, takes nothing from any other order,
   and is answered with the shares that it took, if any.
   */
  lemma {:induction false} CancelAnswered(g: Engine, ts: nat, client: nat, m: Message)
    requires Sound(g) && m.CancelOrder?
    ensures var g', key := HandleCancel(g, ts, client, m), KeyOf(client, m.token);
      && var open := OpenOf(g.tables, key);
      && OpenOf(g'.tables, key) == (if open < m.keep then open else m.keep)
      && (forall k | k != key :: OpenOf(g'.tables, k) == OpenOf(g.tables, k))
      && g'.tables.out == g.tables.out + if m.keep < open then [To(client, CanceledMsg(m.token, open - m.keep, 'U'))]
        else []
  {
    var key, t := KeyOf(client, m.token), g.tables;
    if key in t.live {
      LiveKey(g, key);
      OwnToken(g, client, m.token);
      var id := t.live[key];
      Rests(g, id);
      var sym, open := t.orders[id].symbol, t.orders[id].open;
      hide Sound, TokenView;
      if m.keep < open {
        var e := Canceled(id, open - m.keep, m.keep == 0);
        CancelEvent(g.books[sym], id, m.keep);
        OnOneEvent(t, ts, sym, false, e);
        hide ApplyCancel, OnEvents;
        CancelTakes(g, ts, sym, e, key);
      } else {
        assert t.out + [] == t.out;
      }
    } else {
      assert t.out + [] == t.out;
    }
  }

  lemma {:induction false} Rests(g: Engine, id: nat)
    requires Sound(g) && id in g.tables.orders
    ensures var info := g.tables.orders[id];
      && info.symbol in g.books && g.books[info.symbol].Find(id).Some?
        && g.books[info.symbol].Find(id).value.open == info.open
      && 0 < info.open < 0x1_0000_0000
  {
    hide Wf, Get;
    assert Entry(g.books, g.tables, 0, 0, id);
  }

  lemma {:induction false} CancelEvent(s: State, id: nat, keep: nat)
    requires s.Find(id).Some? && keep < s.Find(id).value.open
    ensures ApplyCancel(s, id, keep).events == [Canceled(id, s.Find(id).value.open - keep, keep == 0)]
  {
  }

  lemma {:induction false} CancelTakes(g: Engine, ts: nat, sym: Symbol, e: Event, key: Key)
    requires Sound(g) && e.Canceled? && key in g.tables.live && g.tables.live[key] == e.id && e.id in g.tables.orders
    requires var open := g.tables.orders[e.id].open;
      0 < open < 0x1_0000_0000 && e.qty <= open && (e.removed <==> e.qty == open)
    ensures var t, t' := g.tables, OnEvent(g.tables, ts, sym, false, e);
      && OpenOf(t', key) == OpenOf(t, key) - e.qty
      && (forall k | k != key :: OpenOf(t', k) == OpenOf(t, k))
      && t'.out == t.out + [To(t.orders[e.id].client, CanceledMsg(t.orders[e.id].token, e.qty, 'U'))]
  {
    var t := g.tables;
    LiveKey(g, key);
    ExactWrap(t.orders[e.id].open - e.qty);
    forall k | k != key && k in t.live ensures t.live[k] in t.orders && t.live[k] != e.id { LiveKey(g, k); }
    hide Sound, TokenView, Wrap, InfoKey;
  }
}
