/**
 Price-time priority, stated without any data structure.

 One side of a book is a single sequence of resting orders in the order in which an incoming
 order would consume them: best price first, and first come first served within a price.
 Both book classes of this project (the reference `OrderBook` and the optimised `FastBook`)
 are proved to behave exactly as the functions of this module say.
 */
module Book {

  datatype Option<+T> = None | Some(value: T)

  datatype Side = Buy | Sell

  function Opposite(side: Side): Side {
    if side.Buy? then Sell else Buy
  }

  datatype Order = Order(id: nat, side: Side, price: int, open: nat)

  /** What the books tell their listener, in the order in which they tell it. */
  datatype Event =
    | Added(id: nat, side: Side, price: int, qty: nat)
    | Executed(restingId: nat, aggressorId: nat, aggressorSide: Side, price: int, qty: nat, matchId: nat)
    | Canceled(id: nat, qty: nat, removed: bool)
    | Replaced(oldId: nat, newId: nat, side: Side, price: int, qty: nat)

  datatype AddStatus = Ok | DuplicateId | BadPrice | BadQty

  /** `p` is strictly better than `q` for orders resting on `side`. */
  predicate Better(side: Side, p: int, q: int) {
    if side.Buy? then p > q else p < q
  }

  /** An incoming order on `side` with this limit trades with a resting order at `price`. */
  predicate Crosses(side: Side, limit: int, price: int) {
    if side.Buy? then price <= limit else price >= limit
  }

  // ---------------------------------------------------------------- one side of a book

  function Get(l: seq<Order>, id: nat): Option<Order> {
    if l == [] then None else if l[0].id == id then Some(l[0]) else Get(l[1..], id)
  }

  /** Joins the queue of its price: behind every order that is not strictly worse. */
  function Insert(l: seq<Order>, o: Order): seq<Order> {
    if l == [] || Better(o.side, o.price, l[0].price) then [o] + l else [l[0]] + Insert(l[1..], o)
  }

  function Remove(l: seq<Order>, id: nat): seq<Order> {
    if l == [] then [] else if l[0].id == id then l[1..] else [l[0]] + Remove(l[1..], id)
  }

  /** Changes the open quantity of one order where it stands. */
  function SetOpen(l: seq<Order>, id: nat, open: nat): seq<Order> {
    if l == [] then []
    else if l[0].id == id then [l[0].(open := open)] + l[1..]
    else [l[0]] + SetOpen(l[1..], id, open)
  }

  /** The queue of one price. */
  function AtPrice(l: seq<Order>, p: int): seq<Order> {
    if l == [] then []
    else if l[0].price == p then [l[0]] + AtPrice(l[1..], p)
    else AtPrice(l[1..], p)
  }

  /** Total open quantity. */
  function Total(l: seq<Order>): nat {
    if l == [] then 0 else l[0].open + Total(l[1..])
  }

  /** Total open quantity that an incoming order on `side` with this limit could trade with. */
  function CrossTotal(l: seq<Order>, side: Side, limit: int): nat {
    if l == [] then 0
    else (if Crosses(side, limit, l[0].price) then l[0].open else 0) + CrossTotal(l[1..], side, limit)
  }

  datatype Matched = Matched(rest: seq<Order>, filled: nat, events: seq<Event>)

  /** Consumes the opposite side from its front, one resting order at a time. */
  function Match(opp: seq<Order>, id: nat, side: Side, limit: int, qty: nat, matchId: nat): (m: Matched)
    ensures m.filled <= qty
  {
    if qty == 0 || opp == [] || !Crosses(side, limit, opp[0].price) then
      Matched(opp, 0, [])
    else if qty < opp[0].open then
      Matched([opp[0].(open := opp[0].open - qty)] + opp[1..], qty,
              [Executed(opp[0].id, id, side, opp[0].price, qty, matchId)])
    else
      var m := Match(opp[1..], id, side, limit, qty - opp[0].open, matchId + 1);
      Matched(m.rest, opp[0].open + m.filled,
              [Executed(opp[0].id, id, side, opp[0].price, opp[0].open, matchId)] + m.events)
  }

  // ---------------------------------------------------------------- the whole book

  datatype State = State(bids: seq<Order>, asks: seq<Order>, nextMatch: nat) {
    function On(side: Side): seq<Order> {
      if side.Buy? then bids else asks
    }

    function With(side: Side, l: seq<Order>): State {
      if side.Buy? then this.(bids := l) else this.(asks := l)
    }

    function Find(id: nat): Option<Order> {
      if Get(bids, id).Some? then Get(bids, id) else Get(asks, id)
    }
  }

  const EMPTY := State([], [], 1)

  predicate WouldCross(s: State, side: Side, price: int) {
    var opp := s.On(Opposite(side));
    opp != [] && Crosses(side, price, opp[0].price)
  }

  datatype Command =
    | Add(id: nat, side: Side, price: int, qty: nat)
    | Cancel(id: nat, keep: nat)
    | Replace(oldId: nat, newId: nat, price: int, qty: nat)
    | Immediate(id: nat, side: Side, limit: int, qty: nat)

  datatype Reply =
    | AddReply(status: AddStatus, filled: nat, resting: nat)
    | BoolReply(ok: bool)
    | FillReply(filled: nat)

  datatype Outcome = Outcome(s: State, reply: Reply, events: seq<Event>)

  /** Trade with what crosses and drop the rest. */
  function Trade(s: State, id: nat, side: Side, limit: int, qty: nat): (r: Outcome)
    ensures r.reply.FillReply? && r.reply.filled <= qty
  {
    var m := Match(s.On(Opposite(side)), id, side, limit, qty, s.nextMatch);
    Outcome(s.With(Opposite(side), m.rest).(nextMatch := s.nextMatch + |m.events|), FillReply(m.filled), m.events)
  }

  function Rest(s: State, id: nat, side: Side, price: int, qty: nat): State {
    s.With(side, Insert(s.On(side), Order(id, side, price, qty)))
  }

  /** Trade with what crosses and let the rest join the book. */
  function Enter(s: State, id: nat, side: Side, price: int, qty: nat): Outcome {
    var t := Trade(s, id, side, price, qty);
    var left := qty - t.reply.filled;
    if left > 0 then
      Outcome(Rest(t.s, id, side, price, left), AddReply(Ok, t.reply.filled, left),
              t.events + [Added(id, side, price, left)])
    else
      Outcome(t.s, AddReply(Ok, t.reply.filled, left), t.events)
  }

  function ApplyAdd(s: State, id: nat, side: Side, price: int, qty: nat): Outcome {
    if price <= 0 then Outcome(s, AddReply(BadPrice, 0, 0), [])
    else if qty == 0 then Outcome(s, AddReply(BadQty, 0, 0), [])
    else if s.Find(id).Some? then Outcome(s, AddReply(DuplicateId, 0, 0), [])
    else Enter(s, id, side, price, qty)
  }

  function ApplyCancel(s: State, id: nat, keep: nat): Outcome {
    var found := s.Find(id);
    if found.None? || keep >= found.value.open then Outcome(s, BoolReply(false), [])
    else
      var o := found.value;
      if keep == 0 then
        Outcome(s.With(o.side, Remove(s.On(o.side), id)), BoolReply(true), [Canceled(id, o.open, true)])
      else
        Outcome(s.With(o.side, SetOpen(s.On(o.side), id, keep)), BoolReply(true),
                [Canceled(id, o.open - keep, false)])
  }

  function ApplyReplace(s: State, oldId: nat, newId: nat, price: int, qty: nat): Outcome {
    var found := s.Find(oldId);
    if found.None? || newId == oldId || s.Find(newId).Some? || price <= 0 || qty == 0 then
      Outcome(s, BoolReply(false), [])
    else
      var o := found.value;
      var s1 := s.With(o.side, Remove(s.On(o.side), oldId));
      if WouldCross(s1, o.side, price) then
        var t := Enter(s1, newId, o.side, price, qty);
        Outcome(t.s, BoolReply(true), [Canceled(oldId, o.open, true)] + t.events)
      else
        Outcome(Rest(s1, newId, o.side, price, qty), BoolReply(true),
                [Replaced(oldId, newId, o.side, price, qty)])
  }

  function Apply(s: State, c: Command): Outcome {
    match c
    case Add(id, side, price, qty) => ApplyAdd(s, id, side, price, qty)
    case Cancel(id, keep) => ApplyCancel(s, id, keep)
    case Replace(oldId, newId, price, qty) => ApplyReplace(s, oldId, newId, price, qty)
    case Immediate(id, side, limit, qty) => Trade(s, id, side, limit, qty)
  }

  // ---------------------------------------------------------------- what every book keeps

  /** Open orders of one side, best price first. */
  predicate Sorted(l: seq<Order>, side: Side) {
    l != [] ==>
      && l[0].side == side && l[0].open > 0 && l[0].price > 0
      && (|l| > 1 ==> !Better(side, l[1].price, l[0].price))
      && Sorted(l[1..], side)
  }

  predicate UniqueIds(l: seq<Order>) {
    l != [] ==> Get(l[1..], l[0].id).None? && UniqueIds(l[1..])
  }

  /** No order id rests on both sides. */
  ghost predicate Apart(l: seq<Order>, l': seq<Order>) {
    forall id :: Get(l, id).None? || Get(l', id).None?
  }

  predicate Uncrossed(s: State) {
    s.bids != [] && s.asks != [] ==> s.bids[0].price < s.asks[0].price
  }

  /** Sorted sides, open orders only, one order per id, and no crossed or locked book at rest. */
  ghost predicate Wf(s: State) {
    && Sorted(s.bids, Buy)
    && Sorted(s.asks, Sell)
    && UniqueIds(s.bids)
    && UniqueIds(s.asks)
    && Apart(s.bids, s.asks)
    && Uncrossed(s)
  }

  // ---------------------------------------------------------------- runs

  datatype Trace = Trace(s: State, replies: seq<Reply>, events: seq<Event>)

  function Run(cs: seq<Command>): Trace {
    if cs == [] then Trace(EMPTY, [], [])
    else
      var t := Run(cs[..|cs| - 1]);
      var o := Apply(t.s, cs[|cs| - 1]);
      Trace(o.s, t.replies + [o.reply], t.events + o.events)
  }
}
