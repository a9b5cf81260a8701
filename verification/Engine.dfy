/**
 The matching engine with the optimised books. The listener of a book is its event log: the callbacks neither read nor
 change the book, so the engine runs them over the events that a call added, in the order in which they were added.
 */
module MatchingEngine {
  import opened Book
  import opened Matching
  import opened Snapshots
  import opened OptimisedBook
  import opened EngineSpec
  import EngineInvariant
  import Equivalence

  /** The configuration with which the engine creates its books. */
  const TICK := 100
  const BAND_HALF_TICKS := 20_000
  const EXPECTED_ORDERS := 0x1_0000

  class Engine {
    var books: map<Symbol, FastBook>
    var orders: map<nat, OrderInfo>
    var live: map<Key, nat>
    var used: set<Key>
    var nextRef: nat
    var suppressCancel: bool
    var out: seq<ClientResponse>
    var feed: seq<MarketEvent>
    /** The engine as `EngineSpec` sees it. */
    ghost var spec: EngineSpec.Engine

    /** The books and their indexes. */
    ghost var Repr: set<object>

    ghost predicate BookOk(s: Symbol)
      reads this, Repr
    {
      s in books ==>
        && books[s] in Repr && books[s].index in Repr
        && s in spec.books && books[s].Valid() && books[s].spec == spec.books[s]
    }

    ghost predicate Distinct(s: Symbol, s': Symbol)
      reads this
    {
      s in books && s' in books && s != s' ==> books[s] != books[s'] && books[s].index != books[s'].index
    }

    function Table(): Tables
      reads this
    {
      Tables(orders, live, used, nextRef, out, feed)
    }

    /** Every book is valid and holds what the specification says, and so do the tables. */
    ghost predicate Valid()
      reads this, Repr
    {
      && this !in Repr
      && (forall s, s' :: Distinct(s, s'))
      && (forall s :: BookOk(s))
      && books.Keys == spec.books.Keys
      && Table() == spec.tables
    }

    constructor ()
      ensures Valid() && spec == START && fresh(Repr) && !suppressCancel
    {
      books, orders, live, used, nextRef := map[], map[], map[], {}, 1;
      out, feed, spec, suppressCancel, Repr := [], [], START, false, {};
    }

    // -------------------------------------------------------------- callbacks

    method ReduceOpen(id: nat, less: nat)
      modifies `orders, `live
      ensures Table() == EngineSpec.ReduceOpen(old(Table()), id, less)
    {
      if id !in orders { return; }
      var info := orders[id];
      var open := Wrap(info.open - less);
      if open == 0 {
        live := live - {InfoKey(info)};
        orders := orders - {id};
      } else {
        orders := orders[id := info.(open := open)];
      }
    }

    method Send(client: nat, msg: Response)
      modifies `out
      ensures Table() == EngineSpec.Send(old(Table()), client, msg)
    {
      out := out + [To(client, msg)];
    }

    method Notify(id: nat, e: Event, liquidity: char)
      requires e.Executed?
      modifies `out
      ensures Table() == EngineSpec.Notify(old(Table()), id, e, liquidity)
    {
      if id !in orders { return; }
      Send(orders[id].client, ExecutedMsg(orders[id].token, e.qty, e.price, liquidity, e.matchId));
    }

    method OnExecuted(e: Event)
      requires e.Executed?
      modifies `orders, `live, `out
      ensures Table() == EngineSpec.OnExecuted(old(Table()), e)
    {
      hide EngineSpec.ReduceOpen, EngineSpec.Notify;
      Notify(e.restingId, e, 'A');
      Notify(e.aggressorId, e, 'R');
      ReduceOpen(e.restingId, e.qty);
      ReduceOpen(e.aggressorId, e.qty);
    }

    method OnCanceled(e: Event)
      requires e.Canceled?
      modifies `orders, `live, `out
      ensures Table() == EngineSpec.OnCanceled(old(Table()), e, suppressCancel)
    {
      hide Wrap, TokenView;
      if !suppressCancel {
        if e.id in orders {
          Send(orders[e.id].client, CanceledMsg(orders[e.id].token, e.qty, 'U'));
        }
      }
      if e.removed {
        ReduceOpen(e.id, e.qty);
      } else if e.id in orders {
        orders := orders[e.id := orders[e.id].(open := Wrap(orders[e.id].open - e.qty))];
      }
    }

    method OnEvent(ts: nat, symbol: Symbol, e: Event)
      modifies `orders, `live, `out, `feed
      ensures Table() == EngineSpec.OnEvent(old(Table()), ts, symbol, suppressCancel, e)
    {
      hide EngineSpec.OnExecuted, EngineSpec.OnCanceled;
      feed := feed + [MarketEvent(ts, symbol, e)];
      match e {
        case Added(_, _, _, _) =>
        case Executed(_, _, _, _, _, _) => OnExecuted(e);
        case Canceled(_, _, _) => OnCanceled(e);
        case Replaced(_, _, _, _, _) =>
      }
    }

    /** The callbacks of one call into a book. */
    method OnEvents(ts: nat, symbol: Symbol, es: seq<Event>)
      modifies `orders, `live, `out, `feed
      ensures Table() == EngineSpec.OnEvents(old(Table()), ts, symbol, suppressCancel, es)
    {
      hide EngineSpec.OnEvent, EngineSpec.OnEvents;
      var i := 0;
      NoEvents(Table(), ts, symbol, suppressCancel, es);
      while i < |es|
        invariant i <= |es| && used == old(used) && nextRef == old(nextRef)
        invariant Table() == EngineSpec.OnEvents(old(Table()), ts, symbol, suppressCancel, es[..i])
      {
        MoreEvents(old(Table()), ts, symbol, suppressCancel, es, i);
        OnEvent(ts, symbol, es[i]);
        i := i + 1;
      }
    }

    // -------------------------------------------------------------- books

    method BookFor(symbol: Symbol) returns (b: FastBook)
      requires Valid()
      modifies `books, `spec, `Repr
      ensures Valid() && symbol in books && b == books[symbol] && fresh(Repr - old(Repr))
      ensures spec == old(spec).(books := old(spec).books[symbol := BookOf(old(spec).books, symbol)])
    {
      hide FastBook.Valid;
      assert BookOk(symbol);
      if symbol in books {
        assert spec.books[symbol := spec.books[symbol]] == spec.books;
      } else {
        b := new FastBook(TICK, BAND_HALF_TICKS, EXPECTED_ORDERS);
        ghost var books0, spec0, repr0 := books, spec, Repr;
        Repr := Repr + {b, b.index};
        books := books[symbol := b];
        spec := spec.(books := spec.books[symbol := EMPTY]);
        forall s ensures BookOk(s) { assert old(BookOk(s)); }
        forall s, s' ensures Distinct(s, s') { assert old(Distinct(s, s')) && old(BookOk(s)) && old(BookOk(s')); }
      }
      b := books[symbol];
    }

    /** Runs a command on an existing book. */
    method Exec(symbol: Symbol, c: Book.Command) returns (r: Reply, es: seq<Event>)
      requires Valid() && symbol in books
      modifies `spec, Repr
      ensures Valid()
      ensures var o := Apply(old(spec).books[symbol], c);
        r == o.reply && es == o.events && spec == old(spec).(books := old(spec).books[symbol := o.s])
    {
      hide FastBook.Valid, Apply;
      assert BookOk(symbol);
      var b := books[symbol];
      var n := |b.events|;
      r := Equivalence.ExecFast(b, c);
      es := b.events[n..];
      spec := spec.(books := spec.books[symbol := Apply(spec.books[symbol], c).s]);
      forall s, s' ensures Distinct(s, s') { assert old(Distinct(s, s')); }
      forall s ensures BookOk(s) { assert old(BookOk(s)) && old(Distinct(s, symbol)); }
    }

    /** Runs a command on the book of a symbol, and then the callbacks for what it did. */
    method OnBook(ts: nat, symbol: Symbol, c: Book.Command) returns (r: Reply)
      requires Valid()
      modifies this, Repr
      ensures Valid() && fresh(Repr - old(Repr)) && suppressCancel == old(suppressCancel)
      ensures spec == EngineSpec.OnBook(old(spec), ts, symbol, suppressCancel, c)
      ensures r == Apply(BookOf(old(spec).books, symbol), c).reply
    {
      hide FastBook.Valid, Apply, EngineSpec.OnEvents, BookOk, Distinct;
      var b := BookFor(symbol);
      var es;
      r, es := Exec(symbol, c);
      ghost var o := Apply(BookOf(old(spec).books, symbol), c);
      assert spec.books == old(spec).books[symbol := o.s];
      Callbacks(ts, symbol, es);
    }

    method Callbacks(ts: nat, symbol: Symbol, es: seq<Event>)
      requires Valid()
      modifies `orders, `live, `out, `feed, `spec
      ensures Valid() && spec == old(spec).(tables := EngineSpec.OnEvents(old(spec).tables, ts, symbol, suppressCancel,
        es))
    {
      hide FastBook.Valid, EngineSpec.OnEvents;
      OnEvents(ts, symbol, es);
      spec := spec.(tables := EngineSpec.OnEvents(spec.tables, ts, symbol, suppressCancel, es));
      forall s, s' ensures Distinct(s, s') { assert old(Distinct(s, s')); }
      forall s ensures BookOk(s) { assert old(BookOk(s)); }
    }

    // -------------------------------------------------------------- commands

    method Reject(client: nat, token: Token, reason: char)
      requires Valid()
      modifies `out, `spec
      ensures Valid() && spec == EngineSpec.Reject(old(spec), client, token, reason)
    {
      hide FastBook.Valid;
      Send(client, RejectedMsg(token, reason));
      spec := EngineSpec.Reject(spec, client, token, reason);
      forall s, s' ensures Distinct(s, s') { assert old(Distinct(s, s')); }
      forall s ensures BookOk(s) { assert old(BookOk(s)); }
    }

    method CancelUnrested(client: nat, ref: nat, token: Token, qty: nat, reason: char)
      requires Valid()
      modifies `out, `live, `orders, `spec
      ensures Valid() && spec == old(spec).(tables := EngineSpec.CancelUnrested(old(spec).tables, client, ref, token,
        qty, reason))
    {
      hide FastBook.Valid, TokenView;
      Send(client, CanceledMsg(token, qty, reason));
      live := live - {KeyOf(client, token)};
      orders := orders - {ref};
      spec := spec.(tables := EngineSpec.CancelUnrested(spec.tables, client, ref, token, qty, reason));
      forall s, s' ensures Distinct(s, s') { assert old(Distinct(s, s')); }
      forall s ensures BookOk(s) { assert old(BookOk(s)); }
    }

    /** The minimum-quantity gate. */
    method IsKilled(m: Message, side: Side) returns (killed: bool)
      requires Valid() && m.EnterOrder? && m.stock in books
      modifies Repr
      ensures Valid() && killed == Killed(spec.books[m.stock], m, side)
    {
      hide FastBook.Valid, CrossTotal, Wrap, EnterLimit;
      killed := false;
      if m.minQty > 0 {
        var b := books[m.stock];
        assert BookOk(m.stock);
        var can := b.Matchable(side, EnterLimit(m, side));
        killed := can < m.minQty;
        forall s, s' ensures Distinct(s, s') { assert old(Distinct(s, s')); }
        forall s ensures BookOk(s) { assert old(BookOk(s)) && old(Distinct(s, m.stock)); }
      }
    }

    /** Puts a new order into the tables and announces it. */
    method Introduce(info: OrderInfo, msg: Response)
      requires Valid()
      modifies `orders, `live, `used, `nextRef, `out, `spec
      ensures Valid()
      ensures spec == old(spec).(tables := EngineSpec.Introduce(old(spec).tables, old(nextRef), info, msg))
    {
      hide FastBook.Valid, TokenView;
      var ref, key := nextRef, InfoKey(info);
      nextRef := nextRef + 1;
      used := used + {key};
      live := live[key := ref];
      orders := orders[ref := info];
      Send(info.client, msg);
      spec := spec.(tables := EngineSpec.Introduce(spec.tables, ref, info, msg));
      forall s, s' ensures Distinct(s, s') { assert old(Distinct(s, s')); }
      forall s ensures BookOk(s) { assert old(BookOk(s)); }
    }

    method Accept(client: nat, m: Message, side: Side) returns (ref: nat)
      requires Valid() && m.EnterOrder?
      modifies `orders, `live, `used, `nextRef, `out, `books, `spec, `Repr
      ensures Valid() && m.stock in books && ref == old(spec).tables.nextRef && fresh(Repr - old(Repr))
      ensures spec == EngineSpec.Accept(old(spec), client, m, side)
    {
      hide FastBook.Valid, TokenView, BookOk, Distinct, EngineSpec.Introduce;
      ref := nextRef;
      Introduce(OrderInfo(client, m.token, m.stock, side, m.shares),
        AcceptedMsg(m.token, side, m.shares, m.stock, m.price, ref));
      var b := BookFor(m.stock);
    }

    method Work(ts: nat, client: nat, m: Message, side: Side, ref: nat)
      requires Valid() && m.EnterOrder? && m.stock in books && !suppressCancel
      modifies this, Repr
      ensures Valid() && fresh(Repr - old(Repr)) && suppressCancel == old(suppressCancel)
      ensures spec == EngineSpec.Work(old(spec), ts, client, m, side, ref)
    {
      hide FastBook.Valid, Killed, Trade, EngineSpec.OnEvents, EngineSpec.CancelUnrested, TokenView, EnterLimit, IsIoc,
        Enter, BookOk, Distinct;
      var killed := IsKilled(m, side);
      if killed {
        CancelUnrested(client, ref, m.token, m.shares, 'D');
      } else if IsIoc(m) {
        var r := OnBook(ts, m.stock, Immediate(ref, side, EnterLimit(m, side), m.shares));
        var remainder := m.shares - r.filled;
        if remainder > 0 { CancelUnrested(client, ref, m.token, remainder, 'I'); }
      } else {
        var r := OnBook(ts, m.stock, Add(ref, side, m.price, m.shares));
      }
    }

    method HandleEnter(ts: nat, client: nat, m: Message)
      requires Valid() && m.EnterOrder? && !suppressCancel
      modifies this, Repr
      ensures Valid() && fresh(Repr - old(Repr)) && suppressCancel == old(suppressCancel)
      ensures spec == EngineSpec.HandleEnter(old(spec), ts, client, m)
    {
      hide FastBook.Valid, EngineSpec.Work, EngineSpec.Accept, EngineSpec.Reject, TokenView, BookOk, Distinct;
      if KeyOf(client, m.token) in used { Reject(client, m.token, 'T'); return; }
      if m.price != MARKET_PRICE && m.price <= 0 { Reject(client, m.token, 'X'); return; }
      if m.shares == 0 { Reject(client, m.token, 'Z'); return; }
      if SideOf(m.side).None? { Reject(client, m.token, 'S'); return; }
      var side := SideOf(m.side).value;
      var ref := Accept(client, m, side);
      Work(ts, client, m, side, ref);
    }

    method HandleCancel(ts: nat, client: nat, m: Message)
      requires Valid() && m.CancelOrder? && !suppressCancel
      modifies this, Repr
      ensures Valid() && fresh(Repr - old(Repr)) && suppressCancel == old(suppressCancel)
      ensures spec == EngineSpec.HandleCancel(old(spec), ts, client, m)
    {
      hide FastBook.Valid, EngineSpec.OnBook, TokenView, BookOk, Distinct;
      var key := KeyOf(client, m.token);
      if key !in live { return; }
      var id := live[key];
      if id !in orders { return; }
      var r := OnBook(ts, orders[id].symbol, Cancel(id, m.keep));
    }

    method Withdraw(key: Key, ref: nat)
      requires Valid()
      modifies `orders, `live, `spec
      ensures Valid()
      ensures spec == old(spec).(tables := old(spec).tables.(live := old(spec).tables.live - {key},
        orders := old(spec).tables.orders - {ref}))
    {
      hide FastBook.Valid;
      live := live - {key};
      orders := orders - {ref};
      spec := spec.(tables := spec.tables.(live := spec.tables.live - {key}, orders := spec.tables.orders - {ref}));
      forall s, s' ensures Distinct(s, s') { assert old(Distinct(s, s')); }
      forall s ensures BookOk(s) { assert old(BookOk(s)); }
    }

    method Swap(client: nat, m: Message, key: Key, oldRef: nat) returns (newRef: nat)
      requires Valid() && m.ReplaceOrder? && oldRef in orders
      modifies `orders, `live, `used, `nextRef, `out, `spec
      ensures Valid() && newRef == old(spec).tables.nextRef
      ensures spec == old(spec).(tables := EngineSpec.Swap(old(spec).tables, oldRef, key, client, m))
    {
      hide FastBook.Valid, TokenView, BookOk, Distinct, EngineSpec.Introduce;
      var was := orders[oldRef];
      newRef := nextRef;
      Withdraw(key, oldRef);
      Introduce(OrderInfo(client, m.replacement, was.symbol, was.side, m.shares),
                ReplacedMsg(m.replacement, was.token, was.side, m.shares, was.symbol, m.price, newRef));
    }

    method HandleReplace(ts: nat, client: nat, m: Message)
      requires Valid() && m.ReplaceOrder? && !suppressCancel
      modifies this, Repr
      ensures Valid() && fresh(Repr - old(Repr)) && suppressCancel == old(suppressCancel)
      ensures spec == EngineSpec.HandleReplace(old(spec), ts, client, m)
    {
      hide FastBook.Valid, EngineSpec.OnBook, EngineSpec.Swap, TokenView;
      var key := KeyOf(client, m.existing);
      if key !in live { return; }
      if KeyOf(client, m.replacement) in used { return; }
      if m.price <= 0 || m.shares == 0 { return; }
      var oldRef := live[key];
      if oldRef !in orders { return; }
      var symbol := orders[oldRef].symbol;
      var newRef := Swap(client, m, key, oldRef);
      label swapped:
      suppressCancel := true;
      forall s, s' ensures Distinct(s, s') { assert old@swapped(Distinct(s, s')); }
      forall s ensures BookOk(s) { assert old@swapped(BookOk(s)); }
      var r := OnBook(ts, symbol, Replace(oldRef, newRef, m.price, m.shares));
      label done:
      suppressCancel := false;
      forall s, s' ensures Distinct(s, s') { assert old@done(Distinct(s, s')); }
      forall s ensures BookOk(s) { assert old@done(BookOk(s)); }
    }

    method Process(ts: nat, client: nat, m: Message)
      requires Valid() && !suppressCancel
      modifies this, Repr
      ensures Valid() && fresh(Repr - old(Repr)) && !suppressCancel
      ensures spec == Handle(old(spec), ts, client, m)
    {
      hide FastBook.Valid, BookOk, Distinct, Valid, EngineSpec.HandleEnter, EngineSpec.HandleCancel,
        EngineSpec.HandleReplace;
      match m {
        case EnterOrder(_, _, _, _, _, _, _) => HandleEnter(ts, client, m);
        case CancelOrder(_, _) => HandleCancel(ts, client, m);
        case ReplaceOrder(_, _, _, _) => HandleReplace(ts, client, m);
      }
    }

    /** What has gone to the gateway and to the feed. */
    method Queues() returns (o: seq<ClientResponse>, f: seq<MarketEvent>)
      requires Valid()
      ensures o == spec.tables.out && f == spec.tables.feed
    {
      hide FastBook.Valid, BookOk, Distinct;
      o, f := out, feed;
    }

    method BookSnapshotOf(symbol: Symbol) returns (snap: BookSnapshot)
      requires Valid()
      ensures snap == Snapshots.Snapshot(BookOf(spec.books, symbol))
    {
      hide FastBook.Valid, Distinct;
      if symbol in books {
        assert BookOk(symbol);
        snap := books[symbol].Snapshot();
      } else {
        snap := BookSnapshot([], []);
      }
    }
  }

  /**
   Over any run of commands, the engine with its optimised books behaves as the specification says; at the end its
   tables agree with its books, and each book shows what the specification's book shows.
   */
  method RunCommands(cs: seq<ClientCommand>, symbol: Symbol)
    returns (out: seq<ClientResponse>, feed: seq<MarketEvent>, snap: BookSnapshot)
    requires AllOnWire(cs)
    ensures out == RunEngine(cs).tables.out && feed == RunEngine(cs).tables.feed
    ensures snap == Snapshots.Snapshot(BookOf(RunEngine(cs).books, symbol))
    ensures EngineInvariant.Sound(RunEngine(cs))
  {
    hide *;
    EngineInvariant.RunSound(cs);
    var g := new Engine();
    RunStarts(cs);
    var i := 0;
    while i < |cs|
      invariant i <= |cs| && g.Valid() && !g.suppressCancel && fresh(g) && fresh(g.Repr)
      invariant g.spec == RunEngine(cs[..i])
    {
      RunOn(cs, i);
      g.Process(cs[i].ts, cs[i].client, cs[i].msg);
      i := i + 1;
    }
    out, feed := g.Queues();
    snap := g.BookSnapshotOf(symbol);
  }

  lemma {:induction false} RunStarts(cs: seq<ClientCommand>)
    ensures RunEngine(cs[..0]) == START && cs[..|cs|] == cs
  {
  }

  lemma {:induction false} RunOn(cs: seq<ClientCommand>, i: nat)
    requires i < |cs|
    ensures RunEngine(cs[..i + 1]) == Handle(RunEngine(cs[..i]), cs[i].ts, cs[i].client, cs[i].msg)
  {
    hide Handle;
    assert cs[..i + 1][..i] == cs[..i];
  }

  lemma {:induction false} NoEvents(t: Tables, ts: nat, symbol: Symbol, suppress: bool, es: seq<Event>)
    ensures EngineSpec.OnEvents(t, ts, symbol, suppress, es[..0]) == t && es[..|es|] == es
  {
  }

  lemma {:induction false} MoreEvents(t: Tables, ts: nat, symbol: Symbol, suppress: bool, es: seq<Event>, i: nat)
    requires i < |es|
    ensures EngineSpec.OnEvents(t, ts, symbol, suppress, es[..i + 1])
         == EngineSpec.OnEvent(EngineSpec.OnEvents(t, ts, symbol, suppress, es[..i]), ts, symbol, suppress, es[i])
  {
    hide EngineSpec.OnEvents, EngineSpec.OnEvent;
    assert es[..i + 1] == es[..i] + [es[i]];
    EngineInvariant.OnEventsAppend(t, ts, symbol, suppress, es[..i], [es[i]]);
    EngineInvariant.OnOneEvent(EngineSpec.OnEvents(t, ts, symbol, suppress, es[..i]), ts, symbol, suppress, es[i]);
  }
}
