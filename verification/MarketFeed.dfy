/** From the engine's events to the client's books: the published bytes rebuild every book after every run. */
module MarketFeed {
  import opened Book
  import opened BookEvents
  import opened Snapshots
  import opened EngineSpec
  import opened EngineTables
  import opened EngineInvariant
  import opened Itch
  import opened Rebuild
  import Bytes
  import B = Builder

  const TWO32 := 0x1_0000_0000
  const TWO64 := 0x1_0000_0000_0000_0000

  // ---------------------------------------------------------------- the bytes

  /** The message of one market event, as bytes. */
  function ToItch(ev: MarketEvent, locate: nat): seq<Bytes.Byte>
    requires WireSymbol(ev.symbol)
  {
    Encode(Framed(Header(locate, 0, ev.ts), MessageOf(ev.symbol, ev.ev)))
  }

  predicate Sendable(feed: seq<MarketEvent>) {
    forall i | 0 <= i < |feed| :: WireSymbol(feed[i].symbol)
  }

  /** The published messages; `locates` is whatever number each symbol was given. */
  function Publish(feed: seq<MarketEvent>, locates: Symbol -> nat): seq<seq<Bytes.Byte>>
    requires Sendable(feed)
  {
    if feed == [] then []
    else var ev := feed[|feed| - 1]; Publish(feed[..|feed| - 1], locates) + [ToItch(ev, locates(ev.symbol))]
  }

  // ---------------------------------------------------------------- events fit their messages

  /** The orders of a book have references below `n` and 32-bit open quantities. */
  ghost predicate Small(s: State, n: nat) {
    forall id: nat :: s.Find(id).Some? ==> id < n && s.Find(id).value.open < TWO32
  }

  /** The only order that the event may enter is number `n`, with a 32-bit price and quantity. */
  predicate EntersOnly(e: Event, n: nat) {
    && (e.Added? ==> e.id == n && 0 <= e.price < TWO32 && e.qty < TWO32)
    && (e.Replaced? ==> e.newId == n && 0 <= e.price < TWO32 && e.qty < TWO32)
  }

  lemma {:induction false} EventFits(s: State, e: Event, n: nat)
    requires Wf(s) && Legal(s, e) && Small(s, n + 1) && EntersOnly(e, n)
    ensures Wired(e, n + 1) && Small(After(s, e), n + 1)
  {
    hide Wf, Get;
    match e {
      case Added(id, side, price, qty) => FindRested(s, id, side, price, qty);
      case Executed(_, _, _, _, _, _) => hide After, Legal; ExecutedInBook(s, e);
      case Canceled(id, _, _) => hide After, Legal; CanceledInBook(s, e);
        CanceledIsThere(s, e);
      case Replaced(oldId, newId, side, price, qty) =>
        FindRemoved(s, oldId);
        ShrinkKeeps(s, side, oldId, 0);
        FindRested(s.With(side, Remove(s.On(side), oldId)), newId, side, price, qty);
    }
  }

  lemma {:induction false} CanceledIsThere(s: State, e: Event)
    requires Legal(s, e) && e.Canceled?
    ensures s.Find(e.id).Some?
  {
  }

  // ---------------------------------------------------------------- a stream of events of one book

  function MessagesOf(symbol: Symbol, es: seq<Event>): (ms: seq<ItchMessage>)
    ensures |ms| == |es|
  {
    seq(|es|, i requires 0 <= i < |es| => MessageOf(symbol, es[i]))
  }

  lemma {:induction false} ReceiveFirst(b: B.Books, symbol: Symbol, es: seq<Event>)
    requires es != []
    ensures B.ReceiveAll(b, MessagesOf(symbol, es))
      == B.ReceiveAll(B.Receive(b, MessageOf(symbol, es[0])), MessagesOf(symbol, es[1..]))
  {
    hide B.Receive, MessageOf;
    var m := MessageOf(symbol, es[0]);
    assert MessagesOf(symbol, es) == [m] + MessagesOf(symbol, es[1..]);
    B.ReceiveSplit(b, [m], MessagesOf(symbol, es[1..]));
    assert [m][..0] == [];
    assert B.ReceiveAll(b, [m]) == B.Receive(b, m);
  }

  /** The orders of the other books have references below `n`. */
  ghost predicate Others(books: map<Symbol, State>, sym: Symbol, n: nat) {
    forall sm, id: nat | sm in books && sm != sym && books[sm].Find(id).Some? :: id < n
  }

  lemma {:induction false} NewToClient(b: B.Books, books: map<Symbol, State>, sym: Symbol, e: Event, n: nat)
    requires Mirrors(b, books) && sym in books && Legal(books[sym], e) && Others(books, sym, n) && EntersOnly(e, n)
    ensures forall id | Enters(e, id) :: id !in b.orders && 0 <= e.price < TWO32
  {
    hide Get, WouldCross;
    assert EntryOk(b, books, n);
  }

  lemma {:induction false} StreamMirrors(b: B.Books, books: map<Symbol, State>, sym: Symbol, es: seq<Event>, n: nat)
    requires Mirrors(b, books) && sym in books && Wf(books[sym]) && AllLegal(books[sym], es)
    requires Others(books, sym, n) && Small(books[sym], n + 1) && forall e | e in es :: EntersOnly(e, n)
    ensures Mirrors(B.ReceiveAll(b, MessagesOf(sym, es)), books[sym := Replay(books[sym], es)])
    ensures forall e | e in es :: Wired(e, n + 1)
    decreases |es|
  {
    var s := books[sym];
    if es == [] {
      assert books[sym := s] == books;
    } else {
      var e := es[0];
      assert EntersOnly(e, n) && Legal(s, e) && AllLegal(After(s, e), es[1..])
        && Replay(s, es) == Replay(After(s, e), es[1..]);
      hide Wf, After, Legal, AllLegal, Replay, MessageOf, B.Receive, B.ReceiveAll, MessagesOf, EntersOnly, Wired,
        Small, Mirrors, Enters;
      LegalKeeps(s, e);
      EventFits(s, e, n);
      NewToClient(b, books, sym, e, n);
      EventMirrors(b, books, sym, e);
      ReceiveFirst(b, sym, es);
      var books1 := books[sym := After(s, e)];
      StreamMirrors(B.Receive(b, MessageOf(sym, e)), books1, sym, es[1..], n);
      assert books1[sym := Replay(s, es)] == books[sym := Replay(s, es)];
      forall x | x in es ensures Wired(x, n + 1) { assert x == e || x in es[1..]; }
    }
  }

  // ---------------------------------------------------------------- the commands of the engine

  /** The command enters no order but number `n`. */
  predicate CommandOk(c: Command, n: nat) {
    && (c.Add? ==> c.id == n && c.price < TWO32 && c.qty < TWO32)
    && (c.Replace? ==> c.newId == n && c.price < TWO32 && c.qty < TWO32)
  }

  lemma {:induction false} TradesEnterNothing(opp: seq<Order>, id: nat, side: Side, limit: int, qty: nat, matchId: nat,
      n: nat)
    ensures forall e | e in Match(opp, id, side, limit, qty, matchId).events :: EntersOnly(e, n)
  {
    if !(qty == 0 || opp == [] || !Crosses(side, limit, opp[0].price)) && qty >= opp[0].open {
      TradesEnterNothing(opp[1..], id, side, limit, qty - opp[0].open, matchId + 1, n);
    }
  }

  lemma {:induction false} CommandEnters(s: State, c: Command, n: nat)
    requires CommandOk(c, n)
    ensures forall e | e in Apply(s, c).events :: EntersOnly(e, n)
  {
    match c {
      case Add(id, side, price, qty) =>
        TradesEnterNothing(s.On(Opposite(side)), id, side, price, qty, s.nextMatch, n);
      case Cancel(id, keep) =>
      case Replace(oldId, newId, price, qty) =>
        if s.Find(oldId).Some? {
          var o := s.Find(oldId).value;
          var s1 := s.With(o.side, Remove(s.On(o.side), oldId));
          TradesEnterNothing(s1.On(Opposite(o.side)), newId, o.side, price, qty, s1.nextMatch, n);
        }
      case Immediate(id, side, limit, qty) =>
        TradesEnterNothing(s.On(Opposite(side)), id, side, limit, qty, s.nextMatch, n);
    }
  }

  /**
   The engine `g` was reached from a feed `feed` and a reference counter `n` by publishing the events `es` of one book,
   and a client with books `b` that hears of them mirrors the engine's books.
   */
  ghost predicate Told(feed: seq<MarketEvent>, n: nat, g: Engine, b: B.Books, ts: nat, sym: Symbol, es: seq<Event>) {
    && g.tables.feed == feed + FeedOf(ts, sym, es)
    && n <= g.tables.nextRef <= n + 1
    && Mirrors(B.ReceiveAll(b, MessagesOf(sym, es)), g.books)
    && (forall e | e in es :: Wired(e, n + 1))
    && (es != [] ==> WireSymbol(sym))
    && BooksOnWire(g.books)
  }

  predicate BooksOnWire(books: map<Symbol, State>) {
    forall sm | sm in books :: WireSymbol(sm)
  }

  /** Every book is well formed and holds only references below `n`. */
  ghost predicate Below(books: map<Symbol, State>, n: nat) {
    forall sm | sm in books :: Wf(books[sm]) && Small(books[sm], n)
  }

  lemma {:induction false} SoundBelow(g: Engine)
    requires Sound(g)
    ensures Below(g.books, g.tables.nextRef)
  {
    hide Wf, Get;
    forall sm, id: nat | sm in g.books && g.books[sm].Find(id).Some? ensures id < g.tables.nextRef
      && g.books[sm].Find(id).value.open < TWO32 {
      assert Listed(g.books, g.tables, 0, 0, sm, id) && Entry(g.books, g.tables, 0, 0, id);
    }
  }

  lemma {:induction false} BookTold(b: B.Books, books: map<Symbol, State>, sym: Symbol, c: Command, n: nat)
    requires Mirrors(b, books) && sym in books && Below(books, n) && CommandOk(c, n)
    ensures var o := Apply(books[sym], c);
      && Mirrors(B.ReceiveAll(b, MessagesOf(sym, o.events)), books[sym := o.s])
      && forall e | e in o.events :: Wired(e, n + 1)
  {
    var o := Apply(books[sym], c);
    EventsExplain(books[sym], c);
    CommandEnters(books[sym], c, n);
    assert Wf(books[sym]) && Small(books[sym], n + 1) && Others(books, sym, n) by { hide Wf, Get, Apply; }
    hide *;
    StreamMirrors(b, books, sym, o.events, n);
  }

  lemma {:induction false} OpenMirrors(b: B.Books, books: map<Symbol, State>, sym: Symbol, n: nat)
    requires Mirrors(b, books) && Below(books, n)
    ensures var books' := books[sym := BookOf(books, sym)]; Mirrors(b, books') && Below(books', n)
  {
    assert Wf(EMPTY) && forall id :: EMPTY.Find(id).None?;
    var books' := books[sym := BookOf(books, sym)];
    hide Wf, Get, AtPrice, Refs;
    forall x ensures EntryOk(b, books', x) { assert EntryOk(b, books, x); }
    forall sm, x ensures RestOk(b, books', sm, x) { assert RestOk(b, books, sm, x); }
    forall sm, sd, p ensures QueueOk(b, books', sm, sd, p) { assert QueueOk(b, books, sm, sd, p); }
  }

  // ---------------------------------------------------------------- one client command

  /** Nothing is published. */
  lemma {:induction false} NothingTold(g: Engine, g': Engine, b: B.Books, ts: nat)
    requires Mirrors(b, g'.books) && BooksOnWire(g'.books)
    requires g'.tables.feed == g.tables.feed && g.tables.nextRef <= g'.tables.nextRef <= g.tables.nextRef + 1
    ensures Told(g.tables.feed, g.tables.nextRef, g', b, ts, [], [])
  {
    assert FeedOf(ts, [], []) == [] && MessagesOf([], []) == [];
    hide Mirrors;
  }

  lemma {:induction false} OnBookTold(g: Engine, ts: nat, sym: Symbol, suppress: bool, c: Command, b: B.Books, n: nat)
    returns (es: seq<Event>)
    requires Mirrors(b, g.books) && sym in g.books && Below(g.books, n) && CommandOk(c, n) && BooksOnWire(g.books)
    requires n <= g.tables.nextRef <= n + 1
    ensures Told(g.tables.feed, n, OnBook(g, ts, sym, suppress, c), b, ts, sym, es)
  {
    hide Mirrors, Below, CommandOk, Apply, OnEvents, Wired, FeedOf, MessagesOf, B.ReceiveAll;
    es := Apply(g.books[sym], c).events;
    BookTold(b, g.books, sym, c, n);
    EventsFeed(g.tables, ts, sym, suppress, es);
  }

  lemma {:induction false} WorkTold(g: Engine, ts: nat, client: nat, m: Message, side: Side, b: B.Books, n: nat)
    returns (es: seq<Event>)
    requires m.EnterOrder? && OnWire(m) && g.tables.nextRef == n + 1
    requires Mirrors(b, g.books) && m.stock in g.books && Below(g.books, n) && BooksOnWire(g.books)
    ensures Told(g.tables.feed, n, Work(g, ts, client, m, side, n), b, ts, m.stock, es)
  {
    assert B.ReceiveAll(b, []) == b;
    hide Mirrors, Below, Apply, OnEvents, Wired, B.ReceiveAll, KeyOf, TokenView, Killed, EnterLimit;
    if Killed(g.books[m.stock], m, side) {
      es := [];
      assert FeedOf(ts, m.stock, []) == [] && MessagesOf(m.stock, []) == [];
    } else if IsIoc(m) {
      es := OnBookTold(g, ts, m.stock, false, Immediate(n, side, EnterLimit(m, side), m.shares), b, n);
      hide OnBook, FeedOf, MessagesOf, Trade;
    } else {
      es := OnBookTold(g, ts, m.stock, false, Add(n, side, m.price, m.shares), b, n);
    }
  }

  lemma {:induction false} EnterTold(g: Engine, ts: nat, client: nat, m: Message, b: B.Books)
    returns (sym: Symbol, es: seq<Event>)
    requires Sound(g) && m.EnterOrder? && OnWire(m) && Mirrors(b, g.books) && BooksOnWire(g.books)
    ensures Told(g.tables.feed, g.tables.nextRef, HandleEnter(g, ts, client, m), b, ts, sym, es)
  {
    hide Mirrors, Told, Work, TokenView, Sound, Below;
    var g' := HandleEnter(g, ts, client, m);
    if KeyOf(client, m.token) in g.tables.used || (m.price != MARKET_PRICE && m.price <= 0) || m.shares == 0
      || SideOf(m.side).None? {
      sym, es := [], [];
      NothingTold(g, g', b, ts);
    } else {
      var g1 := Accept(g, client, m, SideOf(m.side).value);
      SoundBelow(g);
      OpenMirrors(b, g.books, m.stock, g.tables.nextRef);
      sym := m.stock;
      es := WorkTold(g1, ts, client, m, SideOf(m.side).value, b, g.tables.nextRef);
    }
  }

  /** An order of the tables rests in a book of its symbol. */
  lemma {:induction false} OrderHasBook(g: Engine, id: nat)
    requires Sound(g) && id in g.tables.orders
    ensures g.tables.orders[id].symbol in g.books
  {
    hide Wf, Get;
    assert Entry(g.books, g.tables, 0, 0, id);
  }

  lemma {:induction false} CancelTold(g: Engine, ts: nat, client: nat, m: Message, b: B.Books)
    returns (sym: Symbol, es: seq<Event>)
    requires Sound(g) && m.CancelOrder? && Mirrors(b, g.books) && BooksOnWire(g.books)
    ensures Told(g.tables.feed, g.tables.nextRef, HandleCancel(g, ts, client, m), b, ts, sym, es)
  {
    hide Mirrors, Told, OnBook, TokenView, Sound, Below;
    var key, t := KeyOf(client, m.token), g.tables;
    if key !in t.live || t.live[key] !in t.orders {
      sym, es := [], [];
      NothingTold(g, g, b, ts);
    } else {
      OrderHasBook(g, t.live[key]);
      SoundBelow(g);
      sym := t.orders[t.live[key]].symbol;
      es := OnBookTold(g, ts, sym, false, Cancel(t.live[key], m.keep), b, t.nextRef);
    }
  }

  lemma {:induction false} ReplaceTold(g: Engine, ts: nat, client: nat, m: Message, b: B.Books)
    returns (sym: Symbol, es: seq<Event>)
    requires Sound(g) && m.ReplaceOrder? && OnWire(m) && Mirrors(b, g.books) && BooksOnWire(g.books)
    ensures Told(g.tables.feed, g.tables.nextRef, HandleReplace(g, ts, client, m), b, ts, sym, es)
  {
    hide Mirrors, Told, OnBook, TokenView, Sound, Below;
    var key, t := KeyOf(client, m.existing), g.tables;
    if key !in t.live || KeyOf(client, m.replacement) in t.used || m.price <= 0 || m.shares == 0
      || t.live[key] !in t.orders {
      sym, es := [], [];
      NothingTold(g, g, b, ts);
    } else {
      var oldRef := t.live[key];
      OrderHasBook(g, oldRef);
      SoundBelow(g);
      sym := t.orders[oldRef].symbol;
      es := OnBookTold(g.(tables := Swap(t, oldRef, key, client, m)), ts, sym, true,
        Replace(oldRef, t.nextRef, m.price, m.shares), b, t.nextRef);
    }
  }

  lemma {:induction false} HandleTold(g: Engine, ts: nat, client: nat, m: Message, b: B.Books)
    returns (sym: Symbol, es: seq<Event>)
    requires Sound(g) && OnWire(m) && Mirrors(b, g.books) && BooksOnWire(g.books)
    ensures Told(g.tables.feed, g.tables.nextRef, Handle(g, ts, client, m), b, ts, sym, es)
  {
    hide Sound, Mirrors, Told, HandleEnter, HandleCancel, HandleReplace;
    match m {
      case EnterOrder(_, _, _, _, _, _, _) => sym, es := EnterTold(g, ts, client, m, b);
      case CancelOrder(_, _) => sym, es := CancelTold(g, ts, client, m, b);
      case ReplaceOrder(_, _, _, _) => sym, es := ReplaceTold(g, ts, client, m, b);
    }
  }

  // ---------------------------------------------------------------- over the wire

  lemma {:induction false} KeptOnTheWire(h: Header, symbol: Symbol, e: Event, n: nat, b: B.Books)
    requires Wired(e, n) && n <= TWO64
    ensures B.Receive(b, OnTheWire(Framed(h, MessageOf(symbol, e))).msg) == B.Receive(b, MessageOf(symbol, e))
  {
    hide B.AddRef, B.RemoveRef, B.ReduceRef;
  }

  lemma {:induction false} HearEvent(b: B.Books, ev: MarketEvent, locate: nat, n: nat)
    requires Wired(ev.ev, n) && n <= TWO64 && WireSymbol(ev.symbol)
    ensures B.Hear(b, ToItch(ev, locate)) == B.Receive(b, MessageOf(ev.symbol, ev.ev))
  {
    var f := Framed(Header(locate, 0, ev.ts), MessageOf(ev.symbol, ev.ev));
    RoundTrip(f);
    KeptOnTheWire(f.header, ev.symbol, ev.ev, n, b);
    hide Decode, Encode, OnTheWire, B.Receive, Wired;
  }

  /** What the client hears of a stretch of events is what the events say. */
  lemma {:induction false} HearStretch(feed: seq<MarketEvent>, locates: Symbol -> nat, ts: nat, sym: Symbol,
      es: seq<Event>, n: nat)
    requires Sendable(feed) && (es != [] ==> WireSymbol(sym)) && n <= TWO64 && forall e | e in es :: Wired(e, n)
    ensures Sendable(feed + FeedOf(ts, sym, es))
    ensures B.HearAll(B.NOTHING, Publish(feed + FeedOf(ts, sym, es), locates))
      == B.ReceiveAll(B.HearAll(B.NOTHING, Publish(feed, locates)), MessagesOf(sym, es))
    decreases |es|
  {
    hide Wired, B.Hear, B.Receive, ToItch, MessageOf;
    if es == [] {
      assert feed + FeedOf(ts, sym, es) == feed;
      assert MessagesOf(sym, es) == [];
    } else {
      var k := |es| - 1;
      var e, before := es[k], es[..k];
      HearStretch(feed, locates, ts, sym, before, n);
      var all, ev := feed + FeedOf(ts, sym, es), MarketEvent(ts, sym, e);
      assert all == feed + FeedOf(ts, sym, before) + [ev];
      assert all[..|all| - 1] == feed + FeedOf(ts, sym, before);
      assert MessagesOf(sym, es)[..k] == MessagesOf(sym, before);
      var ms := Publish(all, locates);
      assert ms[..|ms| - 1] == Publish(feed + FeedOf(ts, sym, before), locates);
      HearEvent(B.HearAll(B.NOTHING, ms[..|ms| - 1]), ev, locates(sym), n);
    }
  }

  /** After a run: the feed can be sent, and the client that heard all of it mirrors the books. */
  ghost predicate Mirrored(g: Engine, locates: Symbol -> nat) {
    && BooksOnWire(g.books)
    && Sendable(g.tables.feed)
    && Mirrors(B.HearAll(B.NOTHING, Publish(g.tables.feed, locates)), g.books)
  }

  lemma {:induction false} StartMirrored(locates: Symbol -> nat)
    ensures Mirrored(START, locates)
  {
    assert forall id :: EntryOk(B.NOTHING, map[], id);
    assert forall sym, id :: RestOk(B.NOTHING, map[], sym, id);
    assert forall sym, side, p :: QueueOk(B.NOTHING, map[], sym, side, p);
  }

  lemma {:induction false} StepMirrored(g: Engine, c: ClientCommand, locates: Symbol -> nat)
    requires Sound(g) && OnWire(c.msg) && Mirrored(g, locates) && g.tables.nextRef < TWO64
    ensures var g' := Handle(g, c.ts, c.client, c.msg);
      Mirrored(g', locates) && g'.tables.nextRef <= g.tables.nextRef + 1
  {
    hide Sound, Handle, Publish, B.HearAll, Mirrors, FeedOf, MessagesOf, OnWire, BooksOnWire, Wired, B.ReceiveAll;
    var b := B.HearAll(B.NOTHING, Publish(g.tables.feed, locates));
    var sym, es := HandleTold(g, c.ts, c.client, c.msg, b);
    hide Sendable, WireSymbol;
    HearStretch(g.tables.feed, locates, c.ts, sym, es, g.tables.nextRef + 1);
  }

  lemma {:induction false} RunMirrored(cs: seq<ClientCommand>, locates: Symbol -> nat)
    requires AllOnWire(cs) && |cs| < TWO64
    ensures Mirrored(RunEngine(cs), locates) && RunEngine(cs).tables.nextRef <= |cs| + 1
  {
    hide Handle, Mirrored, Sound;
    if cs == [] {
      StartMirrored(locates);
    } else {
      var before := cs[..|cs| - 1];
      RunMirrored(before, locates);
      RunSound(before);
      StepMirrored(RunEngine(before), cs[|cs| - 1], locates);
    }
  }

  /**
   For every run of client commands: a client that starts with nothing and decodes the published bytes in order shows,
   for every symbol, exactly the book of the engine, with the same levels, the same orders and the same time priority.
   */
  lemma {:induction false} FeedRebuildsBooks(cs: seq<ClientCommand>, locates: Symbol -> nat, symbol: Symbol)
    requires AllOnWire(cs) && |cs| < TWO64
    ensures var g := RunEngine(cs);
      && Sendable(g.tables.feed)
      && B.SnapshotOf(B.HearAll(B.NOTHING, Publish(g.tables.feed, locates)), symbol)
        == Some(Snapshot(BookOf(g.books, symbol)))
  {
    RunSound(cs);
    RunMirrored(cs, locates);
    var g := RunEngine(cs);
    assert Wf(BookOf(g.books, symbol)) by { assert Wf(EMPTY); }
    hide *;
    MirrorShows(B.HearAll(B.NOTHING, Publish(g.tables.feed, locates)), g.books, symbol);
  }
}
