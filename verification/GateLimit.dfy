/**
 The minimum-quantity gate fails on orders that the gateway lets through: 4295 resting orders of at most a million
 shares each add up to 2^32 shares, and the engine kills an order that asks for one of them.
 */
module GateLimit {
  import opened Book
  import opened EngineSpec
  import opened EngineTables
  import opened EngineInvariant
  import opened EngineReplies
  import opened EngineGate

  /** The gateway's limits for an order. */
  predicate WithinCaps(m: Message)
    requires m.EnterOrder?
  {
    m.shares <= 1_000_000 && (m.price == MARKET_PRICE || m.price <= 1_999_999_900)
  }

  const PRICE := 100
  const TIF_DAY := 99999

  /** A day order to sell. */
  function Offer(token: Token, stock: Symbol, qty: nat): Message {
    EnterOrder(token, 'S', qty, stock, PRICE, TIF_DAY, 0)
  }

  /** Each client offers one quantity. */
  function Offers(token: Token, stock: Symbol, qs: seq<nat>): (cs: seq<ClientCommand>)
    ensures |cs| == |qs|
  {
    seq(|qs|, i requires 0 <= i < |qs| => ClientCommand(0, i, Offer(token, stock, qs[i])))
  }

  function Sum(qs: seq<nat>): nat {
    if qs == [] then 0 else Sum(qs[..|qs| - 1]) + qs[|qs| - 1]
  }

  lemma {:induction false} CrossInsert(l: seq<Order>, o: Order, side: Side, limit: int)
    requires Crosses(side, limit, o.price)
    ensures CrossTotal(Insert(l, o), side, limit) == CrossTotal(l, side, limit) + o.open
  {
    if l == [] || Better(o.side, o.price, l[0].price) {
      assert ([o] + l)[1..] == l;
    } else {
      CrossInsert(l[1..], o, side, limit);
      assert ([l[0]] + Insert(l[1..], o))[1..] == Insert(l[1..], o);
    }
  }

  /** An order to sell rests when there is nobody to buy. */
  lemma {:induction false} SellRests(s: State, id: nat, price: int, qty: nat)
    requires s.bids == [] && s.Find(id).None? && price > 0 && qty > 0
    ensures Apply(s, Add(id, Sell, price, qty)).s == s.(asks := Insert(s.asks, Order(id, Sell, price, qty)))
  {
    hide Insert, Get;
  }

  /** Clients below `n` have offered `total` shares, and nothing else has happened. */
  ghost predicate Offered(g: Engine, stock: Symbol, n: nat, total: nat) {
    && Sound(g)
    && (forall k | k in g.tables.used :: k.0 < n)
    && BookOf(g.books, stock).bids == [] && CrossTotal(BookOf(g.books, stock).asks, Buy, PRICE) == total
  }

  lemma {:induction false} NewKey(g: Engine, n: nat, token: Token)
    requires forall k | k in g.tables.used :: k.0 < n
    ensures KeyOf(n, token) !in g.tables.used && KeyOf(n, token).0 == n
  {
  }

  lemma {:induction false} OfferedToBook(g: Engine, client: nat, m: Message, ref: nat)
    requires m.EnterOrder? && m == Offer(m.token, m.stock, m.shares) && m.stock in g.books
    ensures Work(g, 0, client, m, Sell, ref).books
         == g.books[m.stock := Apply(g.books[m.stock], Add(ref, Sell, PRICE, m.shares)).s]
  {
    hide OnEvents, Apply, CrossTotal, Trade;
  }

  lemma {:induction false} OneOffer(g: Engine, token: Token, stock: Symbol, n: nat, total: nat, qty: nat)
    requires Offered(g, stock, n, total) && 0 < qty < 0x1_0000_0000 && WireSymbol(stock)
    ensures Offered(Handle(g, 0, n, Offer(token, stock, qty)), stock, n + 1, total + qty)
  {
    hide Sound, Handle, KeyOf, Apply, Insert, CrossTotal, Agree, Get, Work, Accept;
    var m, ref := Offer(token, stock, qty), g.tables.nextRef;
    var g1, s := Accept(g, n, m, Sell), BookOf(g.books, stock);
    NewKey(g, n, token);
    HandleSound(g, 0, n, m);
    EnterAnswered(g, 0, n, m);
    assert Refusal(g, n, m).None?;
    AcceptedIsWorked(g, 0, n, m);
    AcceptedAtWork(g, n, m, Sell);
    SellRests(s, ref, PRICE, qty);
    CrossInsert(s.asks, Order(ref, Sell, PRICE, qty), Buy, PRICE);
    OfferedToBook(g1, n, m, ref);
  }

  lemma {:induction false} AllOffered(token: Token, stock: Symbol, qs: seq<nat>)
    requires WireSymbol(stock) && forall i | 0 <= i < |qs| :: 0 < qs[i] <= 1_000_000
    ensures AllOnWire(Offers(token, stock, qs)) && Offered(RunEngine(Offers(token, stock, qs)), stock, |qs|, Sum(qs))
  {
    var cs := Offers(token, stock, qs);
    if qs == [] {
      RunSound([]);
      assert cs == [];
    } else {
      hide Offered, Handle;
      var n := |qs| - 1;
      AllOffered(token, stock, qs[..n]);
      assert cs[..n] == Offers(token, stock, qs[..n]);
      var g := RunEngine(cs[..n]);
      assert RunEngine(cs) == Handle(g, 0, n, Offer(token, stock, qs[n]));
      hide RunEngine;
      OneOffer(g, token, stock, n, Sum(qs[..n]), qs[n]);
    }
  }

  function Same(n: nat, q: nat): (qs: seq<nat>)
    ensures |qs| == n && forall i | 0 <= i < n :: qs[i] == q
  {
    seq(n, _ => q)
  }

  lemma {:induction false} SumSame(n: nat, q: nat)
    ensures Sum(Same(n, q)) == n * q
  {
    if n > 0 {
      assert Same(n, q)[..n - 1] == Same(n - 1, q);
      SumSame(n - 1, q);
      assert n * q == (n - 1) * q + q;
    }
  }

  /** 4294 times a million shares and 967296 more are 2^32 shares. */
  lemma {:induction false} FullTurn() returns (qs: seq<nat>)
    ensures |qs| == 4295 && Sum(qs) == 0x1_0000_0000 && forall i | 0 <= i < |qs| :: 0 < qs[i] <= 1_000_000
  {
    var many := Same(4294, 1_000_000);
    qs := many + [967_296];
    SumSame(4294, 1_000_000);
    assert qs[..4294] == many;
    hide Same, Sum;
    assert Sum(qs) == Sum(many) + 967_296 by { SumLast(many, 967_296); }
  }

  lemma {:induction false} SumLast(qs: seq<nat>, q: nat)
    ensures Sum(qs + [q]) == Sum(qs) + q
  {
    assert (qs + [q])[..|qs|] == qs;
  }

  /**
   After 4295 orders within the gateway's caps, 2^32 shares are on offer; an order for up to a million shares that asks
   for at least one is accepted, executes nothing and is canceled in full.
   */
  lemma {:induction false} GateWraps(token: Token, stock: Symbol, ts: nat) returns (cs: seq<ClientCommand>, m: Message)
    requires WireSymbol(stock)
    ensures AllOnWire(cs) && forall c | c in cs :: c.msg.EnterOrder? && WithinCaps(c.msg)
    ensures m.EnterOrder? && OnWire(m) && WithinCaps(m) && m.shares == 1_000_000 && m.minQty == 1
    ensures var g, g' := RunEngine(cs), Handle(RunEngine(cs), ts, |cs|, m);
      && Available(BookOf(g.books, stock), m, Buy) == 0x1_0000_0000
      && g'.tables.feed == g.tables.feed
      && g'.tables.out == g.tables.out
        + [To(|cs|, Acceptance(g, m, Buy)), To(|cs|, CanceledMsg(m.token, m.shares, 'D'))]
  {
    m := EnterOrder(token, 'B', 1_000_000, stock, PRICE, TIF_DAY, 1);
    hide *;
    var qs := FullTurn();
    cs := Offers(token, stock, qs);
    OffersWithinCaps(token, stock, qs);
    AllOffered(token, stock, qs);
    Buyer(RunEngine(cs), m, |cs|, 0x1_0000_0000);
    WrappedAway(cs, ts, |cs|, m);
  }

  lemma {:induction false} OffersWithinCaps(token: Token, stock: Symbol, qs: seq<nat>)
    requires forall i | 0 <= i < |qs| :: 0 < qs[i] <= 1_000_000
    ensures |Offers(token, stock, qs)| == |qs|
    ensures forall c | c in Offers(token, stock, qs) :: c.msg.EnterOrder? && WithinCaps(c.msg)
  {
  }

  /** An order to buy at the offers' price is not refused, and all that is on offer crosses it. */
  lemma {:induction false} Buyer(g: Engine, m: Message, n: nat, total: nat)
    requires m.EnterOrder? && m == EnterOrder(m.token, 'B', 1_000_000, m.stock, PRICE, TIF_DAY, 1)
      && WireSymbol(m.stock)
    requires Offered(g, m.stock, n, total)
    ensures OnWire(m) && WithinCaps(m) && Refusal(g, n, m).None? && Available(BookOf(g.books, m.stock), m, Buy) == total
  {
    hide Sound, CrossTotal, Total, TokenView;
  }

  /** What wraps to nothing is not enough for an order that asks for one share. */
  lemma {:induction false} WrappedAway(cs: seq<ClientCommand>, ts: nat, client: nat, m: Message)
    requires AllOnWire(cs) && m.EnterOrder? && OnWire(m) && m.side == 'B' && m.minQty == 1
    requires Refusal(RunEngine(cs), client, m).None?
      && Available(BookOf(RunEngine(cs).books, m.stock), m, Buy) == 0x1_0000_0000
    ensures var g, g' := RunEngine(cs), Handle(RunEngine(cs), ts, client, m);
      && g'.tables.feed == g.tables.feed
      && g'.tables.out == g.tables.out
        + [To(client, Acceptance(g, m, Buy)), To(client, CanceledMsg(m.token, m.shares, 'D'))]
  {
    hide *;
    var es := GateOverRuns(cs, ts, client, m);
    NoFeed(ts, m.stock);
    assert RunEngine(cs).tables.feed + [] == RunEngine(cs).tables.feed;
  }
}
