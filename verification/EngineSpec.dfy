/**
 The matching engine: per-symbol books driven by client commands, and the token and order tables that the books'
 events update while a command is still being matched.
 */
module EngineSpec {
  import opened Book
  import opened Matching
  import Bytes

  type Symbol = seq<Bytes.Byte>
  type Token = t: seq<char> | |t| == 14 witness "              "
  /** A client and the printable part of one of its tokens. */
  type Key = (nat, seq<char>)

  /** A limit price that stands for "no limit". */
  const MARKET_PRICE := 0x7FFF_FFFF
  /** The limit a market order to buy is matched with. */
  const MAX_PRICE := 0x7FFF_FFFF_FFFF_FFFF
  const TIF_IOC := 0

  datatype Message =
    | EnterOrder(token: Token, side: char, shares: nat, stock: Symbol, price: int, tif: nat, minQty: nat)
    | CancelOrder(token: Token, keep: nat)
    | ReplaceOrder(existing: Token, replacement: Token, shares: nat, price: int)

  datatype Response =
    | AcceptedMsg(token: Token, side: Side, shares: nat, stock: Symbol, price: int, ref: nat)
    | ExecutedMsg(token: Token, shares: nat, price: int, liquidity: char, matchNumber: nat)
    | CanceledMsg(token: Token, shares: nat, reason: char)
    | ReplacedMsg(token: Token, previous: Token, side: Side, shares: nat, stock: Symbol, price: int, ref: nat)
    | RejectedMsg(token: Token, reason: char)

  /** A response and the client it goes to. */
  datatype ClientResponse = To(client: nat, msg: Response)

  datatype MarketEvent = MarketEvent(ts: nat, symbol: Symbol, ev: Event)

  datatype OrderInfo = OrderInfo(client: nat, token: Token, symbol: Symbol, side: Side, open: nat)

  /** The token without its padding. */
  function TokenView(t: seq<char>): seq<char> {
    if t != [] && t[|t| - 1] == ' ' then TokenView(t[..|t| - 1]) else t
  }

  function KeyOf(client: nat, token: Token): Key {
    (client, TokenView(token))
  }

  function InfoKey(info: OrderInfo): Key {
    KeyOf(info.client, info.token)
  }

  /** The token and order tables, and the two outgoing queues. */
  datatype Tables = Tables(orders: map<nat, OrderInfo>, live: map<Key, nat>, used: set<Key>, nextRef: nat,
                           out: seq<ClientResponse>, feed: seq<MarketEvent>)

  datatype Engine = Engine(books: map<Symbol, State>, tables: Tables)

  const START := Engine(map[], Tables(map[], map[], {}, 1, [], []))

  function BookOf(books: map<Symbol, State>, symbol: Symbol): State {
    if symbol in books then books[symbol] else EMPTY
  }

  function SideOf(c: char): Option<Side> {
    if c == 'B' then Some(Buy) else if c == 'S' then Some(Sell) else None
  }

  // ---------------------------------------------------------------- the callbacks

  function Send(t: Tables, client: nat, msg: Response): Tables {
    t.(out := t.out + [To(client, msg)])
  }

  /** An order lost open shares; when it has none left it leaves the tables. */
  function ReduceOpen(t: Tables, id: nat, less: nat): Tables {
    if id !in t.orders then t
    else
      var info := t.orders[id];
      var open := Wrap(info.open - less);
      if open == 0 then t.(orders := t.orders - {id}, live := t.live - {InfoKey(info)})
      else t.(orders := t.orders[id := info.(open := open)])
  }

  function Notify(t: Tables, id: nat, e: Event, liquidity: char): Tables
    requires e.Executed?
  {
    if id !in t.orders then t
    else Send(t, t.orders[id].client, ExecutedMsg(t.orders[id].token, e.qty, e.price, liquidity, e.matchId))
  }

  function OnExecuted(t: Tables, e: Event): Tables
    requires e.Executed?
  {
    var t2 := Notify(Notify(t, e.restingId, e, 'A'), e.aggressorId, e, 'R');
    ReduceOpen(ReduceOpen(t2, e.restingId, e.qty), e.aggressorId, e.qty)
  }

  function OnCanceled(t: Tables, e: Event, suppress: bool): Tables
    requires e.Canceled?
  {
    var t1 := if !suppress && e.id in t.orders then Send(t, t.orders[e.id].client,
      CanceledMsg(t.orders[e.id].token, e.qty, 'U')) else t;
    if e.removed then ReduceOpen(t1, e.id, e.qty)
    else if e.id in t1.orders then
      t1.(orders := t1.orders[e.id := t1.orders[e.id].(open := Wrap(t1.orders[e.id].open - e.qty))])
    else t1
  }

  function OnEvent(t: Tables, ts: nat, symbol: Symbol, suppress: bool, e: Event): Tables {
    var t1 := t.(feed := t.feed + [MarketEvent(ts, symbol, e)]);
    match e
    case Added(_, _, _, _) => t1
    case Executed(_, _, _, _, _, _) => OnExecuted(t1, e)
    case Canceled(_, _, _) => OnCanceled(t1, e, suppress)
    case Replaced(_, _, _, _, _) => t1
  }

  function OnEvents(t: Tables, ts: nat, symbol: Symbol, suppress: bool, es: seq<Event>): Tables
    decreases |es|
  {
    if es == [] then t else OnEvents(OnEvent(t, ts, symbol, suppress, es[0]), ts, symbol, suppress, es[1..])
  }

  /** Runs a command on the book of a symbol and lets the callbacks see its events. */
  function OnBook(g: Engine, ts: nat, symbol: Symbol, suppress: bool, c: Command): Engine {
    var o := Apply(BookOf(g.books, symbol), c);
    Engine(g.books[symbol := o.s], OnEvents(g.tables, ts, symbol, suppress, o.events))
  }

  // ---------------------------------------------------------------- the commands

  /** Cancels shares that never rested, and forgets the order. */
  function CancelUnrested(t: Tables, client: nat, ref: nat, token: Token, qty: nat, reason: char): Tables {
    var t1 := Send(t, client, CanceledMsg(token, qty, reason));
    t1.(live := t1.live - {KeyOf(client, token)}, orders := t1.orders - {ref})
  }

  function Reject(g: Engine, client: nat, token: Token, reason: char): Engine {
    g.(tables := Send(g.tables, client, RejectedMsg(token, reason)))
  }

  /** The tables with a new order, and the response that announces it. */
  function Introduce(t: Tables, ref: nat, info: OrderInfo, msg: Response): Tables {
    Tables(t.orders[ref := info], t.live[InfoKey(info) := ref], t.used + {InfoKey(info)}, ref + 1,
           t.out + [To(info.client, msg)], t.feed)
  }

  function EnterLimit(m: Message, side: Side): int
    requires m.EnterOrder?
  {
    if m.price == MARKET_PRICE then (if side.Buy? then MAX_PRICE else 1) else m.price
  }

  predicate IsIoc(m: Message)
    requires m.EnterOrder?
  {
    m.price == MARKET_PRICE || m.tif == TIF_IOC
  }

  /** The minimum-quantity gate. The sum it looks at is a 32-bit unsigned number. */
  predicate Killed(s: State, m: Message, side: Side)
    requires m.EnterOrder?
  {
    m.minQty > 0 && Wrap(CrossTotal(s.On(Opposite(side)), side, EnterLimit(m, side))) < m.minQty
  }

  function Accept(g: Engine, client: nat, m: Message, side: Side): Engine
    requires m.EnterOrder?
  {
    var ref := g.tables.nextRef;
    var info := OrderInfo(client, m.token, m.stock, side, m.shares);
    Engine(g.books[m.stock := BookOf(g.books, m.stock)],
           Introduce(g.tables, ref, info, AcceptedMsg(m.token, side, m.shares, m.stock, m.price, ref)))
  }

  /** The work on an accepted order. */
  function Work(g: Engine, ts: nat, client: nat, m: Message, side: Side, ref: nat): Engine
    requires m.EnterOrder?
  {
    var book := BookOf(g.books, m.stock);
    if Killed(book, m, side) then
      g.(tables := CancelUnrested(g.tables, client, ref, m.token, m.shares, 'D'))
    else if IsIoc(m) then
      var g1 := OnBook(g, ts, m.stock, false, Immediate(ref, side, EnterLimit(m, side), m.shares));
      var left := m.shares - Trade(book, ref, side, EnterLimit(m, side), m.shares).reply.filled;
      if left > 0 then g1.(tables := CancelUnrested(g1.tables, client, ref, m.token, left, 'I')) else g1
    else
      OnBook(g, ts, m.stock, false, Add(ref, side, m.price, m.shares))
  }

  function HandleEnter(g: Engine, ts: nat, client: nat, m: Message): Engine
    requires m.EnterOrder?
  {
    if KeyOf(client, m.token) in g.tables.used then Reject(g, client, m.token, 'T')
    else if m.price != MARKET_PRICE && m.price <= 0 then Reject(g, client, m.token, 'X')
    else if m.shares == 0 then Reject(g, client, m.token, 'Z')
    else if SideOf(m.side).None? then Reject(g, client, m.token, 'S')
    else Work(Accept(g, client, m, SideOf(m.side).value), ts, client, m, SideOf(m.side).value, g.tables.nextRef)
  }

  function HandleCancel(g: Engine, ts: nat, client: nat, m: Message): Engine
    requires m.CancelOrder?
  {
    var key, t := KeyOf(client, m.token), g.tables;
    if key !in t.live || t.live[key] !in t.orders then g
    else OnBook(g, ts, t.orders[t.live[key]].symbol, false, Cancel(t.live[key], m.keep))
  }

  /** The tables with the old order swapped for the new one. */
  function Swap(t: Tables, oldRef: nat, key: Key, client: nat, m: Message): Tables
    requires m.ReplaceOrder? && oldRef in t.orders
  {
    var was := t.orders[oldRef];
    var info := OrderInfo(client, m.replacement, was.symbol, was.side, m.shares);
    Introduce(t.(live := t.live - {key}, orders := t.orders - {oldRef}), t.nextRef, info,
              ReplacedMsg(m.replacement, was.token, was.side, m.shares, was.symbol, m.price, t.nextRef))
  }

  function HandleReplace(g: Engine, ts: nat, client: nat, m: Message): Engine
    requires m.ReplaceOrder?
  {
    var key, t := KeyOf(client, m.existing), g.tables;
    if key !in t.live || KeyOf(client, m.replacement) in t.used || m.price <= 0 || m.shares == 0
      || t.live[key] !in t.orders then g
    else
      var oldRef := t.live[key];
      OnBook(g.(tables := Swap(t, oldRef, key, client, m)), ts, t.orders[oldRef].symbol, true,
             Replace(oldRef, t.nextRef, m.price, m.shares))
  }

  function Handle(g: Engine, ts: nat, client: nat, m: Message): Engine {
    match m
    case EnterOrder(_, _, _, _, _, _, _) => HandleEnter(g, ts, client, m)
    case CancelOrder(_, _) => HandleCancel(g, ts, client, m)
    case ReplaceOrder(_, _, _, _) => HandleReplace(g, ts, client, m)
  }

  // ---------------------------------------------------------------- runs

  datatype ClientCommand = ClientCommand(ts: nat, client: nat, msg: Message)

  /** Eight bytes. */
  predicate WireSymbol(s: Symbol) {
    |s| == 8
  }

  /** Prices and quantities come off the wire as 32-bit unsigned numbers. */
  predicate OnWire(m: Message) {
    match m
    case EnterOrder(_, _, shares, stock, price, _, minQty) =>
      0 <= price < 0x1_0000_0000 && shares < 0x1_0000_0000 && minQty < 0x1_0000_0000 && WireSymbol(stock)
    case CancelOrder(_, keep) => keep < 0x1_0000_0000
    case ReplaceOrder(_, _, shares, price) => 0 <= price < 0x1_0000_0000 && shares < 0x1_0000_0000
  }

  predicate AllOnWire(cs: seq<ClientCommand>) {
    forall c | c in cs :: OnWire(c.msg)
  }

  function RunEngine(cs: seq<ClientCommand>): Engine {
    if cs == [] then START
    else var c := cs[|cs| - 1]; Handle(RunEngine(cs[..|cs| - 1]), c.ts, c.client, c.msg)
  }

  /** Padding is all that the token view drops, so different tokens stay different. */
  lemma {:induction false} TokenViewInjective(t: Token, u: Token)
    requires TokenView(t) == TokenView(u)
    ensures t == u
  {
    PaddedBack(t);
    PaddedBack(u);
  }

  lemma {:induction false} PaddedBack(t: seq<char>)
    ensures |TokenView(t)| <= |t|
    ensures t == TokenView(t) + seq(|t| - |TokenView(t)|, _ => ' ')
  {
    if t != [] && t[|t| - 1] == ' ' {
      var u := t[..|t| - 1];
      PaddedBack(u);
      var v := TokenView(u);
      assert t == u + [' '];
      assert v + seq(|u| - |v|, _ => ' ') + [' '] == v + seq(|t| - |v|, _ => ' ');
    }
  }
}
