/** What the clients are told: the life of every order token, and the two sides of every execution. */
module EngineTokens {
  import opened Book
  import opened BookEvents
  import opened BookProperties
  import opened Matching
  import opened EngineSpec
  import opened EngineTables
  import opened EngineInvariant

  // ---------------------------------------------------------------- the life of a token

  /** `Dead` remembers the open shares a replace retired; `Broken` is what must never happen. */
  datatype Life = Fresh | Live(open: nat) | Dead(retired: nat) | Broken

  function Born(l: Life, shares: nat): Life {
    if l.Fresh? && shares > 0 then Live(shares) else Broken
  }

  function Lose(l: Life, shares: nat): Life {
    if l.Live? && 0 < shares <= l.open then (if shares == l.open then Dead(0) else Live(l.open - shares)) else Broken
  }

  function Step(l: Life, key: Key, r: ClientResponse): Life {
    match r.msg
    case AcceptedMsg(token, _, shares, _, _, _) => if KeyOf(r.client, token) == key then Born(l, shares) else l
    case ExecutedMsg(token, shares, _, _, _) => if KeyOf(r.client, token) == key then Lose(l, shares) else l
    case CanceledMsg(token, shares, _) => if KeyOf(r.client, token) == key then Lose(l, shares) else l
    case ReplacedMsg(token, previous, _, shares, _, _, _) =>
      if KeyOf(r.client, token) == key then Born(l, shares)
      else if KeyOf(r.client, previous) == key then (if l.Live? then Dead(l.open) else Broken)
      else l
    case RejectedMsg(_, _) => l
  }

  /** What a client can conclude about one of its tokens from the messages it was sent. */
  function LifeOf(out: seq<ClientResponse>, key: Key): Life {
    if out == [] then Fresh else Step(LifeOf(out[..|out| - 1], key), key, out[|out| - 1])
  }

  lemma {:induction false} LifeSnoc(out: seq<ClientResponse>, r: ClientResponse, key: Key)
    ensures LifeOf(out + [r], key) == Step(LifeOf(out, key), key, r)
  {
    assert (out + [r])[..|out|] == out;
  }

  /** The messages and the tables tell the same story about a token. */
  ghost predicate Told(t: Tables, key: Key) {
    var l := LifeOf(t.out, key);
    if key in t.live && t.live[key] in t.orders then l == Live(t.orders[t.live[key]].open)
    else if key in t.used then l.Dead?
    else l == Fresh
  }

  ghost predicate AllTold(t: Tables) {
    forall key :: Told(t, key)
  }

  // ---------------------------------------------------------------- both sides of every execution

  /** The response that announces the order `ref` to its client. */
  predicate Announces(r: ClientResponse, ref: nat) {
    (r.msg.AcceptedMsg? || r.msg.ReplacedMsg?) && r.msg.ref == ref
  }

  /** The client that an order was announced to, and the token it was announced under. */
  function OwnerOf(out: seq<ClientResponse>, ref: nat): Option<(nat, Token)> {
    if out == [] then None
    else
      var owner, r := OwnerOf(out[..|out| - 1], ref), out[|out| - 1];
      if owner.None? && Announces(r, ref) then Some((r.client, r.msg.token)) else owner
  }

  /** An execution message. */
  datatype Print = Print(client: nat, token: Token, matchNumber: nat, shares: nat, price: int, liquidity: char)

  function Prints(out: seq<ClientResponse>): seq<Print> {
    if out == [] then []
    else Prints(out[..|out| - 1]) + PrintIn(out[|out| - 1])
  }

  function PrintIn(r: ClientResponse): seq<Print> {
    if r.msg.ExecutedMsg? then
      [Print(r.client, r.msg.token, r.msg.matchNumber, r.msg.shares, r.msg.price, r.msg.liquidity)]
    else []
  }

  /** What the owner of one of the two orders of an execution is to be told. */
  function PrintFor(out: seq<ClientResponse>, id: nat, e: Event, liquidity: char): seq<Print>
    requires e.Executed?
  {
    var owner := OwnerOf(out, id);
    if owner.None? then [] else [Print(owner.value.0, owner.value.1, e.matchId, e.qty, e.price, liquidity)]
  }

  /** For every published execution, one message to the owner of the resting order and one to that of the incoming. */
  function PrintsOf(feed: seq<MarketEvent>, out: seq<ClientResponse>): seq<Print> {
    if feed == [] then []
    else
      var e := feed[|feed| - 1].ev;
      PrintsOf(feed[..|feed| - 1], out)
        + if e.Executed? then PrintFor(out, e.restingId, e, 'A') + PrintFor(out, e.aggressorId, e, 'R') else []
  }

  /** The orders of every published execution were announced. */
  predicate Announced(feed: seq<MarketEvent>, out: seq<ClientResponse>) {
    forall i | 0 <= i < |feed| && feed[i].ev.Executed? ::
      OwnerOf(out, feed[i].ev.restingId).Some? && OwnerOf(out, feed[i].ev.aggressorId).Some?
  }

  /** The tables know the orders by the names they were announced under, and later references are new. */
  ghost predicate Named(t: Tables) {
    && (forall id | id in t.orders :: OwnerOf(t.out, id) == Some((t.orders[id].client, t.orders[id].token)))
    && (forall ref: nat | ref >= t.nextRef :: OwnerOf(t.out, ref).None?)
  }

  ghost predicate Paired(t: Tables) {
    Prints(t.out) == PrintsOf(t.feed, t.out) && Announced(t.feed, t.out) && Named(t)
  }

  lemma {:induction false} OwnerSnoc(out: seq<ClientResponse>, r: ClientResponse, ref: nat)
    ensures OwnerOf(out + [r], ref)
      == if OwnerOf(out, ref).None? && Announces(r, ref) then Some((r.client, r.msg.token)) else OwnerOf(out, ref)
  {
    assert (out + [r])[..|out|] == out;
  }

  lemma {:induction false} PrintsSnoc(out: seq<ClientResponse>, r: ClientResponse)
    ensures Prints(out + [r]) == Prints(out) + PrintIn(r)
  {
    assert (out + [r])[..|out|] == out;
  }

  lemma {:induction false} PrintsOfSnoc(feed: seq<MarketEvent>, m: MarketEvent, out: seq<ClientResponse>)
    ensures PrintsOf(feed + [m], out) == PrintsOf(feed, out)
      + if m.ev.Executed? then PrintFor(out, m.ev.restingId, m.ev, 'A') + PrintFor(out, m.ev.aggressorId, m.ev, 'R')
        else []
  {
    assert (feed + [m])[..|feed|] == feed;
  }

  /** Another response changes nothing about what was due before. */
  lemma {:induction false} DueAsBefore(feed: seq<MarketEvent>, out: seq<ClientResponse>, r: ClientResponse)
    requires Announced(feed, out)
    ensures PrintsOf(feed, out + [r]) == PrintsOf(feed, out) && Announced(feed, out + [r])
  {
    forall ref: nat | OwnerOf(out, ref).Some? ensures OwnerOf(out + [r], ref) == OwnerOf(out, ref) {
      OwnerSnoc(out, r, ref);
    }
    hide OwnerOf;
    if feed != [] { DueAsBefore(feed[..|feed| - 1], out, r); }
  }

  /** The two promises together. */
  ghost predicate Reported(t: Tables) {
    AllTold(t) && Paired(t)
  }

  // ---------------------------------------------------------------- steps of the tables

  /** Tells the owner of an order that it lost shares, and reduces it. */
  function TellReduce(t: Tables, id: nat, msg: Response, less: nat): Tables
    requires id in t.orders
  {
    ReduceOpen(Send(t, t.orders[id].client, msg), id, less)
  }

  predicate Loses(msg: Response, token: Token, less: nat) {
    (msg.ExecutedMsg? || msg.CanceledMsg?) && msg.token == token && msg.shares == less
  }

  lemma {:induction false} TellReduceTold(t: Tables, id: nat, msg: Response, less: nat)
    requires Tokens(t) && AllTold(t) && id in t.orders && 0 < less <= t.orders[id].open < 0x1_0000_0000
    requires Loses(msg, t.orders[id].token, less)
    ensures AllTold(TellReduce(t, id, msg, less))
  {
    var info := t.orders[id];
    ExactWrap(info.open - less);
    hide Wrap, TokenView, LifeOf;
    var r, t' := To(info.client, msg), TellReduce(t, id, msg, less);
    forall key ensures Told(t', key) {
      assert Told(t, key);
      LifeSnoc(t.out, r, key);
      assert key != InfoKey(info) ==> (key in t.live ==> t.live[key] != id);
    }
  }

  lemma {:induction false} IntroduceTold(t: Tables, info: OrderInfo, msg: Response)
    requires Tokens(t) && AllTold(t) && InfoKey(info) !in t.used && info.open > 0 && t.nextRef !in t.orders
    requires msg.AcceptedMsg? && msg.token == info.token && msg.shares == info.open
    ensures AllTold(Introduce(t, t.nextRef, info, msg))
  {
    hide TokenView, LifeOf;
    var r, t' := To(info.client, msg), Introduce(t, t.nextRef, info, msg);
    forall key ensures Told(t', key) {
      assert Told(t, key);
      LifeSnoc(t.out, r, key);
    }
  }

  lemma {:induction false} SwapTold(t: Tables, oldRef: nat, client: nat, m: Message)
    requires Tokens(t) && AllTold(t) && m.ReplaceOrder? && m.shares > 0 && oldRef in t.orders && t.nextRef !in t.orders
    requires KeyOf(client, m.replacement) !in t.used && InfoKey(t.orders[oldRef]) == KeyOf(client, m.existing)
    ensures AllTold(Swap(t, oldRef, InfoKey(t.orders[oldRef]), client, m))
  {
    var info := t.orders[oldRef];
    assert info.client == client;
    hide TokenView, LifeOf;
    var r := To(client, ReplacedMsg(m.replacement, info.token, info.side, m.shares, info.symbol, m.price, t.nextRef));
    var t' := Swap(t, oldRef, InfoKey(info), client, m);
    assert t'.out == t.out + [r];
    forall key ensures Told(t', key) {
      assert Told(t, key);
      LifeSnoc(t.out, r, key);
      assert key != InfoKey(info) ==> (key in t.live ==> t.live[key] != oldRef);
    }
  }

  lemma {:induction false} ForgetTold(t: Tables, ref: nat, client: nat, token: Token, qty: nat, reason: char)
    requires Tokens(t) && AllTold(t) && ref in t.orders && t.orders[ref].client == client
      && t.orders[ref].token == token
    requires t.orders[ref].open == qty > 0
    ensures AllTold(CancelUnrested(t, client, ref, token, qty, reason))
  {
    hide TokenView, LifeOf;
    var r, t' := To(client, CanceledMsg(token, qty, reason)), CancelUnrested(t, client, ref, token, qty, reason);
    forall key ensures Told(t', key) {
      assert Told(t, key);
      LifeSnoc(t.out, r, key);
      assert key != KeyOf(client, token) ==> (key in t.live ==> t.live[key] != ref);
    }
  }

  lemma {:induction false} FeedTold(t: Tables, feed: seq<MarketEvent>)
    requires AllTold(t)
    ensures AllTold(t.(feed := feed))
  {
    hide LifeOf;
    forall key ensures Told(t.(feed := feed), key) { assert Told(t, key); }
  }

  // ---------------------------------------------------------------- steps of a match

  lemma {:induction false} ExecutedIsTold(t: Tables, ts: nat, sym: Symbol, suppress: bool, e: Event)
    requires e.Executed? && e.restingId in t.orders && e.aggressorId in t.orders && e.restingId != e.aggressorId
    ensures var t1 := t.(feed := t.feed + [MarketEvent(ts, sym, e)]);
      var t2 := TellReduce(t1, e.restingId, ExecutedMsg(t.orders[e.restingId].token, e.qty, e.price, 'A', e.matchId),
        e.qty);
      && e.aggressorId in t2.orders && t2.orders[e.aggressorId] == t.orders[e.aggressorId]
      && OnEvent(t, ts, sym, suppress, e)
           == TellReduce(t2, e.aggressorId, ExecutedMsg(t.orders[e.aggressorId].token, e.qty, e.price, 'R', e.matchId),
             e.qty)
  {
    hide Wrap, TokenView;
    OnExecutedIs(t, ts, sym, suppress, e);
    var f := FillsOf(t, e);
    assert t.out + f == t.out + [f[0]] + [f[1]];
  }

  lemma {:induction false} ExecutedTold(books: map<Symbol, State>, t: Tables, ts: nat, sym: Symbol, suppress: bool,
      e: Event, agg: nat, rem: nat)
    requires Agree(books, t, agg, rem) && Tokens(t) && AllTold(t) && sym in books && e.Executed? && Legal(books[sym], e)
    requires e.aggressorId == agg && e.qty <= rem
    ensures AllTold(OnEvent(t, ts, sym, suppress, e))
  {
    Parties(books, t, sym, e, agg, rem);
    ExecutedInBook(books[sym], e);
    assert Listed(books, t, agg, rem, sym, e.restingId) && Entry(books, t, agg, rem, e.restingId)
      && Entry(books, t, agg, rem, agg);
    assert e.qty <= t.orders[e.restingId].open;
    hide Wf, Get, Legal, After, OnlyOrder, Agree, Entry, Listed, AllTold, OnEvent, Tokens, TokenView, TellReduce;
    ExecutedIsTold(t, ts, sym, suppress, e);
    var t1 := t.(feed := t.feed + [MarketEvent(ts, sym, e)]);
    FeedTold(t, t1.feed);
    SendTokens(t, t.out, t1.feed);
    var msg := ExecutedMsg(t.orders[e.restingId].token, e.qty, e.price, 'A', e.matchId);
    TellReduceTold(t1, e.restingId, msg, e.qty);
    TellReduceTokens(t1, e.restingId, msg, e.qty);
    var t2 := TellReduce(t1, e.restingId, msg, e.qty);
    TellReduceTold(t2, agg, ExecutedMsg(t.orders[agg].token, e.qty, e.price, 'R', e.matchId), e.qty);
  }

  lemma {:induction false} TellReduceTokens(t: Tables, id: nat, msg: Response, less: nat)
    requires Tokens(t) && id in t.orders
    ensures Tokens(TellReduce(t, id, msg, less))
  {
    hide ReduceOpen;
    SendTokens(t, t.out + [To(t.orders[id].client, msg)], t.feed);
    ReduceTokens(Send(t, t.orders[id].client, msg), id, less);
  }

  /** An order that loses shares keeps its names, or goes. */
  lemma {:induction false} ReduceNamed(t: Tables, id: nat, less: nat)
    requires Named(t)
    ensures Named(ReduceOpen(t, id, less))
  {
    hide OwnerOf, Wrap, TokenView;
  }

  lemma {:induction false} SendNamed(t: Tables, r: ClientResponse, feed: seq<MarketEvent>)
    requires Named(t) && forall ref: nat :: !Announces(r, ref)
    ensures Named(t.(out := t.out + [r], feed := feed))
  {
    forall ref: nat ensures OwnerOf(t.out + [r], ref) == OwnerOf(t.out, ref) { OwnerSnoc(t.out, r, ref); }
    hide OwnerOf;
  }

  /** What is due for one more execution. */
  lemma {:induction false} FillsDue(t: Tables, e: Event, m: MarketEvent, a: ClientResponse, r: ClientResponse)
    requires Named(t) && Announced(t.feed, t.out) && Prints(t.out) == PrintsOf(t.feed, t.out)
    requires e.Executed? && e.restingId in t.orders && e.aggressorId in t.orders && m.ev == e && FillsOf(t, e) == [a, r]
    ensures var out := t.out + [a] + [r];
      Prints(out) == PrintsOf(t.feed + [m], out) && Announced(t.feed + [m], out)
  {
    var out1 := t.out + [a];
    var out := out1 + [r];
    hide PrintsOf, Prints, OwnerOf, Named;
    OwnerSnoc(t.out, a, e.restingId);
    OwnerSnoc(t.out, a, e.aggressorId);
    OwnerSnoc(out1, r, e.restingId);
    OwnerSnoc(out1, r, e.aggressorId);
    NamedAs(t, e.restingId);
    NamedAs(t, e.aggressorId);
    DueAsBefore(t.feed, t.out, a);
    DueAsBefore(t.feed, out1, r);
    PrintsSnoc(t.out, a);
    PrintsSnoc(out1, r);
    PrintsOfSnoc(t.feed, m, out);
    assert PrintsOf(t.feed + [m], out) == PrintsOf(t.feed, t.out) + (PrintIn(a) + PrintIn(r));
  }

  /** The owners of the two orders of an execution are told of it: the resting one first. */
  lemma {:induction false} FillsPaired(t: Tables, e: Event, m: MarketEvent)
    requires Paired(t) && e.Executed? && e.restingId in t.orders && e.aggressorId in t.orders && m.ev == e
    ensures Paired(t.(out := t.out + FillsOf(t, e), feed := t.feed + [m]))
  {
    hide PrintsOf, Prints, OwnerOf, Named, Announced;
    var f := FillsOf(t, e);
    var feed := t.feed + [m];
    SendNamed(t, f[0], feed);
    SendNamed(t.(out := t.out + [f[0]], feed := feed), f[1], feed);
    FillsDue(t, e, m, f[0], f[1]);
    assert t.out + f == t.out + [f[0]] + [f[1]];
  }

  lemma {:induction false} NamedAs(t: Tables, id: nat)
    requires Named(t) && id in t.orders
    ensures OwnerOf(t.out, id) == Some((t.orders[id].client, t.orders[id].token))
  {
  }

  lemma {:induction false} ExecutedPaired(t: Tables, ts: nat, sym: Symbol, suppress: bool, e: Event)
    requires Paired(t) && e.Executed? && e.restingId in t.orders && e.aggressorId in t.orders
    ensures Paired(OnEvent(t, ts, sym, suppress, e))
  {
    OnExecutedIs(t, ts, sym, suppress, e);
    var f, m := FillsOf(t, e), MarketEvent(ts, sym, e);
    var t2 := t.(out := t.out + f, feed := t.feed + [m]);
    FillsPaired(t, e, m);
    ReduceFrame(t2, e.restingId, e.qty);
    ReduceFrame(ReduceOpen(t2, e.restingId, e.qty), e.aggressorId, e.qty);
    ReduceNamed(t2, e.restingId, e.qty);
    ReduceNamed(ReduceOpen(t2, e.restingId, e.qty), e.aggressorId, e.qty);
    hide ReduceOpen, OnEvent, Prints, PrintsOf, Announced, Named;
  }

  lemma {:induction false} ExecutionsReported(books: map<Symbol, State>, t: Tables, ts: nat, sym: Symbol,
      suppress: bool, es: seq<Event>, agg: nat, rem: nat)
    requires Agree(books, t, agg, rem) && Tokens(t) && sym in books && AllLegal(books[sym], es) && AllBy(es, agg)
      && SharesOf(es) <= rem
    requires Reported(t)
    ensures Reported(OnEvents(t, ts, sym, suppress, es))
    decreases |es|
  {
    hide Agree, Tokens, Legal, After, OnEvent, AllTold, Paired;
    if es != [] {
      var e := es[0];
      assert e in es;
      ExecutedAgrees(books, t, ts, sym, suppress, e, agg, rem);
      ExecutedTold(books, t, ts, sym, suppress, e, agg, rem);
      ExecutedPaired(t, ts, sym, suppress, e);
      ExecutionsReported(books[sym := After(books[sym], e)], OnEvent(t, ts, sym, suppress, e), ts, sym, suppress,
        es[1..], agg, rem - e.qty);
    }
  }

  // ---------------------------------------------------------------- the commands

  /** Publishing an event that is not an execution, or sending a message that is not one, pairs up trivially. */
  lemma {:induction false} QuietFeed(t: Tables, ts: nat, sym: Symbol, e: Event)
    requires Reported(t) && !e.Executed?
    ensures Reported(t.(feed := t.feed + [MarketEvent(ts, sym, e)]))
  {
    hide AllTold, OwnerOf;
    FeedTold(t, t.feed + [MarketEvent(ts, sym, e)]);
    PrintsOfSnoc(t.feed, MarketEvent(ts, sym, e), t.out);
  }

  /** The orders of `t'` are orders of `t` under the same names, or the one that the response announces, under these. */
  ghost predicate NamesKept(t: Tables, t': Tables, r: ClientResponse) {
    && t.nextRef <= t'.nextRef
    && (forall ref: nat | Announces(r, ref) :: t.nextRef <= ref < t'.nextRef)
    && (forall id | id in t'.orders ::
          var info := t'.orders[id];
          if Announces(r, id) then r.client == info.client && r.msg.token == info.token
          else id in t.orders && info.client == t.orders[id].client && info.token == t.orders[id].token)
  }

  lemma {:induction false} ReduceKeepsNames(t: Tables, id: nat, less: nat, r: ClientResponse)
    requires r.msg.CanceledMsg?
    ensures NamesKept(t, ReduceOpen(t.(out := t.out + [r]), id, less), r)
  {
    hide Wrap, TokenView;
  }

  lemma {:induction false} QuietSend(t: Tables, t': Tables, r: ClientResponse)
    requires Paired(t) && t'.out == t.out + [r] && t'.feed == t.feed && !r.msg.ExecutedMsg? && NamesKept(t, t', r)
    ensures Paired(t')
  {
    PrintsSnoc(t.out, r);
    DueAsBefore(t.feed, t.out, r);
    hide PrintsOf, Prints, Announced;
    forall ref: nat ensures OwnerOf(t'.out, ref)
      == if OwnerOf(t.out, ref).None? && Announces(r, ref) then Some((r.client, r.msg.token)) else OwnerOf(t.out, ref) {
      OwnerSnoc(t.out, r, ref);
    }
    hide OwnerOf;
  }

  lemma {:induction false} TradeReported(books: map<Symbol, State>, t: Tables, ts: nat, sym: Symbol, suppress: bool,
      agg: nat, side: Side, limit: int, qty: nat)
    requires Agree(books, t, agg, qty) && Tokens(t) && sym in books && qty > 0 && Reported(t)
    ensures Reported(OnEvents(t, ts, sym, suppress, Trade(books[sym], agg, side, limit, qty).events))
  {
    hide *;
    BookIsWf(books, t, agg, qty, sym);
    TradeFacts(books[sym], agg, side, limit, qty);
    ExecutionsReported(books, t, ts, sym, suppress, Trade(books[sym], agg, side, limit, qty).events, agg, qty);
  }

  lemma {:induction false} EnterReported(books: map<Symbol, State>, t: Tables, ts: nat, sym: Symbol, suppress: bool,
      agg: nat, side: Side, price: int, qty: nat)
    requires Agree(books, t, agg, qty) && Tokens(t) && sym in books && qty > 0 && Reported(t)
    ensures Reported(OnEvents(t, ts, sym, suppress, Enter(books[sym], agg, side, price, qty).events))
  {
    hide Agree, Tokens, Reported, Trade, OnEvents;
    TradeReported(books, t, ts, sym, suppress, agg, side, price, qty);
    var o := Trade(books[sym], agg, side, price, qty);
    var left := qty - o.reply.filled;
    if left > 0 {
      var e, t1 := Added(agg, side, price, left), OnEvents(t, ts, sym, suppress, o.events);
      OnEventsAppend(t, ts, sym, suppress, o.events, [e]);
      OnOneEvent(t1, ts, sym, suppress, e);
      QuietFeed(t1, ts, sym, e);
    }
  }

  lemma {:induction false} RejectReported(g: Engine, client: nat, token: Token, reason: char)
    requires Reported(g.tables)
    ensures Reported(Reject(g, client, token, reason).tables)
  {
    hide LifeOf, Prints, PrintsOf;
    var t, r := g.tables, To(client, RejectedMsg(token, reason));
    QuietSend(t, Send(t, client, r.msg), r);
    forall key ensures Told(Send(t, client, r.msg), key) {
      assert Told(t, key);
      LifeSnoc(t.out, r, key);
    }
  }

  lemma {:induction false} AcceptReported(g: Engine, client: nat, m: Message, side: Side)
    requires Sound(g) && m.EnterOrder? && 0 < m.shares && KeyOf(client, m.token) !in g.tables.used && Reported(g.tables)
    ensures Reported(Accept(g, client, m, side).tables)
  {
    var t, ref, info := g.tables, g.tables.nextRef, OrderInfo(client, m.token, m.stock, side, m.shares);
    var msg := AcceptedMsg(m.token, side, m.shares, m.stock, m.price, ref);
    assert Entry(g.books, t, 0, 0, ref);
    hide Agree, Tokens, AllTold, Paired, TokenView, Entry;
    IntroduceTold(t, info, msg);
    QuietSend(t, Introduce(t, ref, info, msg), To(client, msg));
  }

  lemma {:induction false} ForgetReported(books: map<Symbol, State>, t: Tables, agg: nat, rem: nat, client: nat,
      token: Token, reason: char)
    requires Agree(books, t, agg, rem) && Tokens(t) && rem > 0 && Reported(t)
    requires agg in t.orders && t.orders[agg].client == client && t.orders[agg].token == token
    ensures Reported(CancelUnrested(t, client, agg, token, rem, reason))
  {
    StillThere(books, t, agg, rem);
    hide Agree, Tokens, AllTold, Paired, TokenView;
    ForgetTold(t, agg, client, token, rem, reason);
    QuietSend(t, CancelUnrested(t, client, agg, token, rem, reason), To(client, CanceledMsg(token, rem, reason)));
  }

  lemma {:induction false} IocReported(books: map<Symbol, State>, t: Tables, ts: nat, sym: Symbol, agg: nat, side: Side,
      limit: int, qty: nat, client: nat, token: Token)
    requires Agree(books, t, agg, qty) && Tokens(t) && sym in books && qty > 0 && Reported(t)
    requires agg in t.orders && t.orders[agg].client == client && t.orders[agg].token == token
    ensures var o := Trade(books[sym], agg, side, limit, qty); var t1 := OnEvents(t, ts, sym, false, o.events);
      var left := qty - o.reply.filled;
      Reported(if left > 0 then CancelUnrested(t1, client, agg, token, left, 'I') else t1)
  {
    hide *;
    TradeAgrees(books, t, ts, sym, false, agg, side, limit, qty);
    TradeReported(books, t, ts, sym, false, agg, side, limit, qty);
    var o := Trade(books[sym], agg, side, limit, qty);
    var t1, left := OnEvents(t, ts, sym, false, o.events), qty - o.reply.filled;
    if left > 0 { ForgetReported(books[sym := o.s], t1, agg, left, client, token, 'I'); }
  }

  lemma {:induction false} EnterOrderReported(g: Engine, ts: nat, client: nat, m: Message)
    requires Sound(g) && m.EnterOrder? && OnWire(m) && Reported(g.tables)
    ensures Reported(HandleEnter(g, ts, client, m).tables)
  {
    if KeyOf(client, m.token) in g.tables.used || (m.price != MARKET_PRICE && m.price <= 0) || m.shares == 0
      || SideOf(m.side).None? {
      RejectReported(g, client, m.token, 'T');
      RejectReported(g, client, m.token, 'X');
      RejectReported(g, client, m.token, 'Z');
      RejectReported(g, client, m.token, 'S');
      hide Reported, Reject, TokenView;
    } else {
      AcceptedReported(g, ts, client, m);
    }
  }

  lemma {:induction false} AcceptedReported(g: Engine, ts: nat, client: nat, m: Message)
    requires Sound(g) && m.EnterOrder? && OnWire(m) && Reported(g.tables)
    requires KeyOf(client, m.token) !in g.tables.used && (m.price == MARKET_PRICE || m.price > 0) && m.shares > 0
      && SideOf(m.side).Some?
    ensures Reported(HandleEnter(g, ts, client, m).tables)
  {
    hide Agree, Tokens, TokenView, Accept, Work, Get, KeyOf, SideOf, Reported, Sound;
    AcceptAgrees(g, client, m, SideOf(m.side).value);
    AcceptReported(g, client, m, SideOf(m.side).value);
    WorkReported(Accept(g, client, m, SideOf(m.side).value), ts, client, m, SideOf(m.side).value, g.tables.nextRef);
  }

  lemma {:induction false} WorkReported(g: Engine, ts: nat, client: nat, m: Message, side: Side, ref: nat)
    requires AtWork(g, client, m, side, ref) && Reported(g.tables)
    ensures Reported(Work(g, ts, client, m, side, ref).tables)
  {
    hide Agree, Tokens, TokenView, Killed, Trade, Enter, OnEvents, Get, CancelUnrested, EnterLimit, KeyOf, IsIoc,
      Reported;
    if Killed(g.books[m.stock], m, side) {
      ForgetReported(g.books, g.tables, ref, m.shares, client, m.token, 'D');
    } else if IsIoc(m) {
      IocReported(g.books, g.tables, ts, m.stock, ref, side, EnterLimit(m, side), m.shares, client, m.token);
    } else {
      DayOrder(m);
      EnterReported(g.books, g.tables, ts, m.stock, false, ref, side, m.price, m.shares);
    }
  }

  lemma {:induction false} CanceledReported(books: map<Symbol, State>, t: Tables, ts: nat, sym: Symbol, e: Event)
    requires Agree(books, t, 0, 0) && Tokens(t) && sym in books && e.Canceled? && Legal(books[sym], e) && Reported(t)
    ensures Reported(OnEvent(t, ts, sym, false, e))
  {
    CanceledAgrees(books, t, ts, sym, e);
    assert Entry(books, t, 0, 0, e.id);
    CanceledInBook(books[sym], e);
    assert Listed(books, t, 0, 0, sym, e.id);
    hide Wf, Get, After, OnlyOrder, Agree, Entry, Listed, Told, Prints, PrintsOf, Paired, NamesKept;
    OnCanceledIs(t, ts, sym, e);
    hide OnEvent, Legal, Tokens;
    var t1 := t.(feed := t.feed + [MarketEvent(ts, sym, e)]);
    QuietFeed(t, ts, sym, e);
    SendTokens(t, t.out, t1.feed);
    var msg := CanceledMsg(t.orders[e.id].token, e.qty, 'U');
    TellReduceTold(t1, e.id, msg, e.qty);
    var t2 := Send(t1, t.orders[e.id].client, msg);
    assert t2 == t.(out := t.out + [To(t.orders[e.id].client, msg)], feed := t1.feed);
    ReduceFrame(t2, e.id, e.qty);
    ReduceKeepsNames(t1, e.id, e.qty, To(t.orders[e.id].client, msg));
    hide ReduceOpen;
    QuietSend(t1, ReduceOpen(t2, e.id, e.qty), To(t.orders[e.id].client, msg));
  }

  lemma {:induction false} CancelOrderReported(g: Engine, ts: nat, client: nat, m: Message)
    requires Sound(g) && m.CancelOrder? && Reported(g.tables)
    ensures Reported(HandleCancel(g, ts, client, m).tables)
  {
    var key, t := KeyOf(client, m.token), g.tables;
    if key in t.live && t.live[key] in t.orders {
      var id := t.live[key];
      assert Entry(g.books, t, 0, 0, id);
      var sym := t.orders[id].symbol;
      var o := ApplyCancel(g.books[sym], id, m.keep);
      CancelExplained(g.books[sym], id, m.keep);
      if o.events != [] {
        var e := o.events[0];
        assert o.events == [e] && e.Canceled?;
        OneEventLegal(g.books[sym], e, o.s);
        hide Agree, Tokens, TokenView, OnEvents, ApplyCancel, Wf, Get, AllLegal, Replay, After, Legal, KeyOf, Reported;
        OnOneEvent(t, ts, sym, false, e);
        CanceledReported(g.books, t, ts, sym, e);
      }
    }
  }

  lemma {:induction false} SwapReported(g: Engine, client: nat, m: Message, oldRef: nat)
    requires Sound(g) && m.ReplaceOrder? && m.shares > 0 && Reported(g.tables)
    requires oldRef in g.tables.orders && KeyOf(client, m.replacement) !in g.tables.used
    requires InfoKey(g.tables.orders[oldRef]) == KeyOf(client, m.existing)
    ensures Reported(Swap(g.tables, oldRef, InfoKey(g.tables.orders[oldRef]), client, m))
  {
    var t := g.tables;
    var info := t.orders[oldRef];
    assert Entry(g.books, t, 0, 0, t.nextRef);
    hide Agree, Tokens, AllTold, Paired, TokenView, Entry;
    SwapTold(t, oldRef, client, m);
    QuietSend(t, Swap(t, oldRef, InfoKey(info), client, m),
              To(client, ReplacedMsg(m.replacement, info.token, info.side, m.shares, info.symbol, m.price, t.nextRef)));
  }

  lemma {:induction false} ReplaceOrderReported(g: Engine, ts: nat, client: nat, m: Message)
    requires Sound(g) && m.ReplaceOrder? && OnWire(m) && Reported(g.tables)
    ensures Reported(HandleReplace(g, ts, client, m).tables)
  {
    var key, t := KeyOf(client, m.existing), g.tables;
    if key in t.live && KeyOf(client, m.replacement) !in t.used && m.price > 0 && m.shares > 0
      && t.live[key] in t.orders {
      assert InfoKey(t.orders[t.live[key]]) == key;
      hide Sound, Reported, TokenView;
      ReplacingReported(g, ts, client, m, t.live[key]);
    }
  }

  lemma {:induction false} ReplacingReported(g: Engine, ts: nat, client: nat, m: Message, oldRef: nat)
    requires Sound(g) && m.ReplaceOrder? && OnWire(m) && m.price > 0 && m.shares > 0 && Reported(g.tables)
    requires KeyOf(client, m.existing) in g.tables.live && g.tables.live[KeyOf(client, m.existing)] == oldRef
    requires oldRef in g.tables.orders && KeyOf(client, m.replacement) !in g.tables.used
    requires InfoKey(g.tables.orders[oldRef]) == KeyOf(client, m.existing)
    ensures Reported(HandleReplace(g, ts, client, m).tables)
  {
    hide Agree, Tokens, TokenView, Get, Remove, Swap, Enter, OnEvents, Rest, WouldCross, InfoKey, KeyOf, Reported,
      Sound;
    SwapAgrees(g, client, m, oldRef);
    SwapReported(g, client, m, oldRef);
    var t := g.tables;
    var info, newRef := t.orders[oldRef], t.nextRef;
    var sym, s := info.symbol, g.books[info.symbol];
    var s1, t1 := s.With(info.side, Remove(s.On(info.side), oldRef)), Swap(t, oldRef, InfoKey(info), client, m);
    if WouldCross(s1, info.side, m.price) {
      CrossingReported(g.books[sym := s1], t1, ts, sym, oldRef, s.Find(oldRef).value.open, newRef, info.side, m.price,
        m.shares);
    } else {
      var e := Replaced(oldRef, newRef, info.side, m.price, m.shares);
      OnOneEvent(t1, ts, sym, true, e);
      QuietFeed(t1, ts, sym, e);
    }
  }

  lemma {:induction false} CrossingReported(books: map<Symbol, State>, t: Tables, ts: nat, sym: Symbol, oldRef: nat,
      oldOpen: nat, newRef: nat, side: Side, price: int, qty: nat)
    requires Agree(books, t, newRef, qty) && Tokens(t) && sym in books && qty > 0 && oldRef !in t.orders && Reported(t)
    ensures Reported(OnEvents(t, ts, sym, true, [Canceled(oldRef, oldOpen, true)]
      + Enter(books[sym], newRef, side, price, qty).events))
  {
    hide *;
    var e, es := Canceled(oldRef, oldOpen, true), Enter(books[sym], newRef, side, price, qty).events;
    RetiredCancel(t, ts, sym, e, es);
    var feed := t.feed + [MarketEvent(ts, sym, e)];
    QuietFeed(t, ts, sym, e);
    SendAgrees(books, t, t.out, feed, newRef, qty);
    SendTokens(t, t.out, feed);
    EnterReported(books, t.(out := t.out, feed := feed), ts, sym, true, newRef, side, price, qty);
  }

  lemma {:induction false} HandleReported(g: Engine, ts: nat, client: nat, m: Message)
    requires Sound(g) && OnWire(m) && Reported(g.tables)
    ensures Reported(Handle(g, ts, client, m).tables)
  {
    hide Sound, Reported, HandleEnter, HandleCancel, HandleReplace;
    match m {
      case EnterOrder(_, _, _, _, _, _, _) => EnterOrderReported(g, ts, client, m);
      case CancelOrder(_, _) => CancelOrderReported(g, ts, client, m);
      case ReplaceOrder(_, _, _, _) => ReplaceOrderReported(g, ts, client, m);
    }
  }

  lemma {:induction false} RunReported(cs: seq<ClientCommand>)
    requires AllOnWire(cs)
    ensures Reported(RunEngine(cs).tables)
  {
    if cs == [] {
      forall key ensures Told(START.tables, key) { }
    } else {
      var c := cs[|cs| - 1];
      RunSound(cs[..|cs| - 1]);
      RunReported(cs[..|cs| - 1]);
      HandleReported(RunEngine(cs[..|cs| - 1]), c.ts, c.client, c.msg);
    }
  }

  // ---------------------------------------------------------------- what the clients may rely on

  /**
   After every run, a client can tell from its messages alone whether a token of its own is unused, live with so many
   open shares, or over; and what it concludes is what the engine's tables say.
   */
  lemma {:induction false} TokenLifeCycle(cs: seq<ClientCommand>, key: Key)
    requires AllOnWire(cs)
    ensures var t := RunEngine(cs).tables; var l := LifeOf(t.out, key);
      && !l.Broken?
      && (l.Fresh? <==> key !in t.used)
      && (l.Live? <==> key in t.live)
      && (l.Live? ==> t.live[key] in t.orders && t.orders[t.live[key]].open == l.open)
  {
    RunSound(cs);
    RunReported(cs);
    hide LifeOf, TokenView;
    assert Told(RunEngine(cs).tables, key);
  }

  /**
   Every published execution was reported exactly twice, with its match number, in the order of publication: as adding
   liquidity to the client that the resting order was announced to, under the token it was announced with, and then as
   removing liquidity to the client of the incoming order, under that order's token.
   */
  lemma {:induction false} BothSidesTold(cs: seq<ClientCommand>)
    requires AllOnWire(cs)
    ensures var t := RunEngine(cs).tables;
      && Prints(t.out) == PrintsOf(t.feed, t.out)
      && forall i | 0 <= i < |t.feed| && t.feed[i].ev.Executed? ::
           OwnerOf(t.out, t.feed[i].ev.restingId).Some? && OwnerOf(t.out, t.feed[i].ev.aggressorId).Some?
  {
    RunReported(cs);
  }

  // ---------------------------------------------------------------- consequences of an unbroken life

  predicate Introduces(r: ClientResponse, key: Key) {
    (r.msg.AcceptedMsg? || r.msg.ReplacedMsg?) && KeyOf(r.client, r.msg.token) == key
  }

  predicate TakesFrom(r: ClientResponse, key: Key) {
    (r.msg.ExecutedMsg? || r.msg.CanceledMsg?) && KeyOf(r.client, r.msg.token) == key
  }

  function Introductions(out: seq<ClientResponse>, key: Key): nat {
    if out == [] then 0 else Introductions(out[..|out| - 1], key) + if Introduces(out[|out| - 1], key) then 1 else 0
  }

  function Introduced(out: seq<ClientResponse>, key: Key): nat {
    if out == [] then 0
    else Introduced(out[..|out| - 1], key) + if Introduces(out[|out| - 1], key) then out[|out| - 1].msg.shares else 0
  }

  function Taken(out: seq<ClientResponse>, key: Key): nat {
    if out == [] then 0
    else Taken(out[..|out| - 1], key) + if TakesFrom(out[|out| - 1], key) then out[|out| - 1].msg.shares else 0
  }

  /** A life that is not broken was introduced at most once, and its shares are accounted for. */
  lemma {:induction false} SharesOfToken(out: seq<ClientResponse>, key: Key)
    requires !LifeOf(out, key).Broken?
    ensures Introductions(out, key) == (if LifeOf(out, key).Fresh? then 0 else 1)
    ensures Introduced(out, key)
         == Taken(out, key) + match LifeOf(out,
           key) case Fresh => 0 case Live(n) => n case Dead(r) => r case Broken => 0
  {
    hide TokenView;
    if out != [] { SharesOfToken(out[..|out| - 1], key); }
  }

  /** Before a token is introduced and after it is over, no message takes shares from it. */
  lemma {:induction false} NothingOutsideLife(out: seq<ClientResponse>, key: Key, i: nat)
    requires !LifeOf(out, key).Broken? && i < |out|
    ensures !LifeOf(out[..i], key).Broken?
    ensures TakesFrom(out[i], key) ==> LifeOf(out[..i], key).Live?
    ensures LifeOf(out[..i], key).Dead? ==> LifeOf(out, key).Dead?
  {
    hide TokenView, KeyOf;
    var before := out[..|out| - 1];
    if i < |out| - 1 {
      NothingOutsideLife(before, key, i);
      assert before[..i] == out[..i] && before[i] == out[i];
    }
  }

  /** All of it, over every run of the engine. */
  lemma {:induction false} TokensOverRuns(cs: seq<ClientCommand>, key: Key, i: nat)
    requires AllOnWire(cs) && i < |RunEngine(cs).tables.out|
    ensures var t := RunEngine(cs).tables;
      && Introductions(t.out, key) <= 1
      && (Introductions(t.out, key) == 0 <==> key !in t.used)
      && (key in t.live ==>
            t.live[key] in t.orders && Introduced(t.out, key) == Taken(t.out, key) + t.orders[t.live[key]].open)
      && (key in t.used && key !in t.live ==>
            LifeOf(t.out, key).Dead? && Introduced(t.out, key) == Taken(t.out, key) + LifeOf(t.out, key).retired)
      && (TakesFrom(t.out[i], key) ==> Introductions(t.out[..i], key) == 1 && LifeOf(t.out[..i], key).Live?)
      && (LifeOf(t.out[..i], key).Dead? ==> !TakesFrom(t.out[i], key) && key !in t.live)
  {
    hide *;
    TokenLifeCycle(cs, key);
    var out := RunEngine(cs).tables.out;
    SharesOfToken(out, key);
    NothingOutsideLife(out, key, i);
    SharesOfToken(out[..i], key);
  }
}
