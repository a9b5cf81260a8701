/** The client's book mirrors the engine's books, event by event. */
module Rebuild {
  import opened Book
  import opened BookLemmas
  import opened BookEvents
  import opened Ladder
  import opened FastSteps
  import opened Snapshots
  import opened EngineSpec
  import opened EngineTables
  import opened EngineInvariant
  import opened Itch
  import B = Builder

  function Refs(q: seq<Order>): seq<nat> {
    if q == [] then [] else [q[0].id] + Refs(q[1..])
  }

  lemma {:induction false} RefsAppend(q: seq<Order>, o: Order)
    ensures Refs(q + [o]) == Refs(q) + [o.id]
  {
    if q == [] { assert q + [o] == [o]; } else { assert (q + [o])[1..] == q[1..] + [o]; RefsAppend(q[1..], o); }
  }

  lemma {:induction false} WithoutAbsent(q: seq<Order>, id: nat)
    requires Get(q, id).None?
    ensures B.Without(Refs(q), id) == Refs(q)
  {
    if q != [] { WithoutAbsent(q[1..], id); }
  }

  lemma {:induction false} RefsRemove(q: seq<Order>, id: nat)
    requires UniqueIds(q)
    ensures Refs(Remove(q, id)) == B.Without(Refs(q), id)
  {
    if q != [] {
      if q[0].id == id {
        WithoutAbsent(q[1..], id);
      } else {
        assert ([q[0]] + Remove(q[1..], id))[1..] == Remove(q[1..], id);
        RefsRemove(q[1..], id);
      }
    }
  }

  lemma {:induction false} RefsSetOpen(q: seq<Order>, id: nat, open: nat)
    ensures Refs(SetOpen(q, id, open)) == Refs(q) && (SetOpen(q, id, open) == [] <==> q == [])
  {
    if q != [] {
      assert ([q[0].(open := open)] + q[1..])[1..] == q[1..];
      assert ([q[0]] + SetOpen(q[1..], id, open))[1..] == SetOpen(q[1..], id, open);
      RefsSetOpen(q[1..], id, open);
    }
  }

  // ---------------------------------------------------------------- the mirror

  ghost predicate EntryOk(b: B.Books, books: map<Symbol, State>, id: nat) {
    id in b.orders ==>
      var e := b.orders[id];
      e.symbol in books && books[e.symbol].Find(id) == Some(Order(id, e.side, e.price, e.qty))
  }

  ghost predicate RestOk(b: B.Books, books: map<Symbol, State>, sym: Symbol, id: nat) {
    sym in books && books[sym].Find(id).Some? ==> id in b.orders && b.orders[id].symbol == sym
  }

  ghost predicate QueueOk(b: B.Books, books: map<Symbol, State>, sym: Symbol, side: Side, p: int) {
    var q, m := AtPrice(BookOf(books, sym).On(side), p), B.BookAt(b, sym).On(side);
    B.QueueOf(m, p) == Refs(q) && (p in m <==> q != [])
  }

  /** Same orders under the same symbols, sides, prices and quantities, in the same queues in the same order. */
  ghost predicate Mirrors(b: B.Books, books: map<Symbol, State>) {
    && (forall id :: EntryOk(b, books, id))
    && (forall sym, id :: RestOk(b, books, sym, id))
    && (forall sym, side, p :: QueueOk(b, books, sym, side, p))
  }

  /** One book changes at one price and in one order, and the mirror follows. */
  ghost predicate Follows(b: B.Books, b': B.Books, sym: Symbol, side: Side, p: int, refs: seq<nat>) {
    && b'.books == b.books[sym := B.BookAt(b, sym).With(side, B.PutQueue(B.BookAt(b, sym).On(side), p, refs))]
  }

  lemma {:induction false} QueuesFollow(b: B.Books, b': B.Books, books: map<Symbol, State>, sym: Symbol, s': State,
      side: Side, p: int, refs: seq<nat>, sm: Symbol, sd: Side, q: int)
    requires sym in books && OnlyAt(books[sym], s', side, p) && Follows(b, b', sym, side, p, refs)
    requires refs == Refs(AtPrice(s'.On(side), p)) && (refs == [] <==> AtPrice(s'.On(side), p) == [])
    requires QueueOk(b, books, sm, sd, q)
    ensures QueueOk(b', books[sym := s'], sm, sd, q)
  {
    hide AtPrice, Refs;
    if sm == sym && sd != side { assert sd == Opposite(side); }
  }

  // ---------------------------------------------------------------- three kinds of change

  lemma {:induction false} AddMirrors(b: B.Books, books: map<Symbol, State>, sym: Symbol, o: Order)
    requires Mirrors(b, books) && sym in books && Wf(books[sym]) && o.id !in b.orders
    requires o.price > 0 && o.open > 0 && books[sym].Find(o.id).None? && !WouldCross(books[sym], o.side, o.price)
    ensures Mirrors(B.AddRef(b, o.id, sym, o.side, o.price, o.open),
      books[sym := Rest(books[sym], o.id, o.side, o.price, o.open)])
  {
    var s, s' := books[sym], Rest(books[sym], o.id, o.side, o.price, o.open);
    QueueJoined(s, o);
    FindRested(s, o.id, o.side, o.price, o.open);
    var q := AtPrice(s.On(o.side), o.price);
    RefsAppend(q, o);
    assert QueueOk(b, books, sym, o.side, o.price);
    hide Wf, Get, AtPrice, Refs, Rest, WouldCross, UniqueIds, OnlyAt;
    var b', books' := B.AddRef(b, o.id, sym, o.side, o.price, o.open), books[sym := s'];
    assert Follows(b, b', sym, o.side, o.price, Refs(q) + [o.id]);
    forall x ensures EntryOk(b', books', x) { assert EntryOk(b, books, x); }
    forall sm, x ensures RestOk(b', books', sm, x) { assert RestOk(b, books, sm, x); }
    forall sm, sd, p ensures QueueOk(b', books', sm, sd, p) {
      assert QueueOk(b, books, sm, sd, p);
      QueuesFollow(b, b', books, sym, s', o.side, o.price, Refs(q) + [o.id], sm, sd, p);
    }
  }

  lemma {:induction false} RemoveMirrors(b: B.Books, books: map<Symbol, State>, sym: Symbol, id: nat)
    requires Mirrors(b, books) && sym in books && Wf(books[sym]) && books[sym].Find(id).Some?
    ensures var side := books[sym].Find(id).value.side;
      Mirrors(B.RemoveRef(b, id), books[sym := books[sym].With(side, Remove(books[sym].On(side), id))])
  {
    var s := books[sym];
    var o := s.Find(id).value;
    var s' := s.With(o.side, Remove(s.On(o.side), id));
    QueueWithout(s, id);
    FindRemoved(s, id);
    FindSide(s, id);
    var q := AtPrice(s.On(o.side), o.price);
    RefsRemove(q, id);
    RefsEmpty(Remove(q, id));
    assert q != [];
    assert QueueOk(b, books, sym, o.side, o.price) && RestOk(b, books, sym, id) && EntryOk(b, books, id);
    hide Wf, Get, AtPrice, Refs, Remove, UniqueIds, OnlyAt, B.Without;
    var b', books', refs := B.RemoveRef(b, id), books[sym := s'], Refs(Remove(q, id));
    assert Follows(b, b', sym, o.side, o.price, refs);
    forall x ensures EntryOk(b', books', x) { assert EntryOk(b, books, x); }
    forall sm, x ensures RestOk(b', books', sm, x) { assert RestOk(b, books, sm, x); }
    forall sm, sd, p ensures QueueOk(b', books', sm, sd, p) {
      assert QueueOk(b, books, sm, sd, p);
      QueuesFollow(b, b', books, sym, s', o.side, o.price, refs, sm, sd, p);
    }
  }

  lemma {:induction false} RefsEmpty(q: seq<Order>)
    ensures Refs(q) == [] <==> q == []
  {
  }

  lemma {:induction false} FindShrunk(s: State, id: nat, open: nat)
    requires Wf(s) && s.Find(id).Some?
    ensures var o := s.Find(id).value; var s' := s.With(o.side, SetOpen(s.On(o.side), id, open));
      forall x :: s'.Find(x) == if x == id then Some(o.(open := open)) else s.Find(x)
  {
    FindSide(s, id);
    var o := s.Find(id).value;
    hide Get, SetOpen, Sorted, UniqueIds;
    forall x ensures Get(SetOpen(s.On(o.side), id, open), x) == if x == id then Some(o.(open := open))
      else Get(s.On(o.side), x) {
      GetAfterSetOpen(s.On(o.side), id, open, x);
    }
  }

  lemma {:induction false} ShrinkMirrors(b: B.Books, books: map<Symbol, State>, sym: Symbol, id: nat, less: nat)
    requires Mirrors(b, books) && sym in books && Wf(books[sym]) && books[sym].Find(id).Some?
      && less < books[sym].Find(id).value.open
    ensures var o := books[sym].Find(id).value;
      Mirrors(B.ReduceRef(b, id, less),
        books[sym := books[sym].With(o.side, SetOpen(books[sym].On(o.side), id, o.open - less))])
  {
    var s := books[sym];
    var o := s.Find(id).value;
    var open := o.open - less;
    var s' := s.With(o.side, SetOpen(s.On(o.side), id, open));
    QueueShrunk(s, id, open);
    FindShrunk(s, id, open);
    FindSide(s, id);
    var q := AtPrice(s.On(o.side), o.price);
    RefsSetOpen(q, id, open);
    assert RestOk(b, books, sym, id) && EntryOk(b, books, id);
    hide Wf, Get, AtPrice, Refs, SetOpen, UniqueIds;
    var b', books' := B.ReduceRef(b, id, less), books[sym := s'];
    forall x ensures EntryOk(b', books', x) { assert EntryOk(b, books, x); }
    forall sm, x ensures RestOk(b', books', sm, x) { assert RestOk(b, books, sm, x); }
    forall sm, sd, p ensures QueueOk(b', books', sm, sd, p) {
      assert QueueOk(b, books, sm, sd, p);
      if sm == sym && sd != o.side { assert sd == Opposite(o.side); }
    }
  }

  lemma {:induction false} ReduceMirrors(b: B.Books, books: map<Symbol, State>, sym: Symbol, id: nat, less: nat, n: nat)
    requires Mirrors(b, books) && sym in books && Wf(books[sym]) && books[sym].Find(id).Some?
    requires less <= books[sym].Find(id).value.open
    ensures var side := books[sym].Find(id).value.side;
      Mirrors(B.ReduceRef(b, id, less),
        books[sym := books[sym].With(side, Reduce(books[sym].On(side), id, less)).(nextMatch := n)])
  {
    var s := books[sym];
    FindSide(s, id);
    var o := s.Find(id).value;
    assert RestOk(b, books, sym, id) && EntryOk(b, books, id);
    if less < o.open {
      ShrinkMirrors(b, books, sym, id, less);
      MirrorsIgnoreCounter(B.ReduceRef(b, id, less),
        books[sym := s.With(o.side, SetOpen(s.On(o.side), id, o.open - less))], sym, n);
    } else {
      RemoveMirrors(b, books, sym, id);
      MirrorsIgnoreCounter(B.RemoveRef(b, id), books[sym := s.With(o.side, Remove(s.On(o.side), id))], sym, n);
    }
    hide Wf, Get, Mirrors, Remove, SetOpen, B.RemoveRef;
    var s' := s.With(o.side, Reduce(s.On(o.side), id, less));
    assert books[sym := s'][sym := s'.(nextMatch := n)] == books[sym := s'.(nextMatch := n)];
  }

  lemma {:induction false} MirrorsIgnoreCounter(b: B.Books, books: map<Symbol, State>, sym: Symbol, n: nat)
    requires Mirrors(b, books) && sym in books
    ensures Mirrors(b, books[sym := books[sym].(nextMatch := n)])
  {
    hide AtPrice, Get, Refs;
    var s' := books[sym].(nextMatch := n);
    var books' := books[sym := s'];
    assert forall x :: s'.Find(x) == books[sym].Find(x);
    forall x ensures EntryOk(b, books', x) { assert EntryOk(b, books, x); }
    forall sm, x ensures RestOk(b, books', sm, x) { assert RestOk(b, books, sm, x); }
    forall sm, sd, p ensures QueueOk(b, books', sm, sd, p) { assert QueueOk(b, books, sm, sd, p); }
  }

  // ---------------------------------------------------------------- events

  /** The message an event is published as. */
  function MessageOf(symbol: Symbol, e: Event): ItchMessage {
    match e
    case Added(id, side, price, qty) => AddOrder(id, side, qty, symbol, price % 0x1_0000_0000)
    case Executed(restingId, _, _, _, qty, matchId) => OrderExecuted(restingId, qty, matchId)
    case Canceled(id, qty, removed) => if removed then OrderDelete(id) else OrderCancel(id, qty)
    case Replaced(oldId, newId, _, price, qty) => OrderReplace(oldId, newId, qty, price % 0x1_0000_0000)
  }

  /** The event fits its message: prices and quantities in 32 bits, references below `n`. */
  predicate Wired(e: Event, n: nat) {
    match e
    case Added(id, _, price, qty) => id < n && 0 <= price < 0x1_0000_0000 && qty < 0x1_0000_0000
    case Executed(restingId, _, _, _, qty, _) => restingId < n && qty < 0x1_0000_0000
    case Canceled(id, qty, _) => id < n && qty < 0x1_0000_0000
    case Replaced(oldId, newId, _, price, qty) =>
      oldId < n && newId < n && 0 <= price < 0x1_0000_0000 && qty < 0x1_0000_0000
  }

  lemma {:induction false} ExecutedMirrors(b: B.Books, books: map<Symbol, State>, sym: Symbol, e: Event)
    requires Mirrors(b, books) && sym in books && Wf(books[sym]) && Legal(books[sym], e) && e.Executed?
    ensures Mirrors(B.Receive(b, MessageOf(sym, e)), books[sym := After(books[sym], e)])
  {
    var s := books[sym];
    var opp := Opposite(e.aggressorSide);
    var o := s.On(opp)[0];
    assert Get(s.On(opp), o.id) == Some(o) && Get(s.On(e.aggressorSide), o.id).None?;
    SortedHead(s.On(opp), opp, o);
    hide Wf, Sorted, UniqueIds, Get, Mirrors, Reduce, B.ReduceRef;
    ReduceMirrors(b, books, sym, o.id, e.qty, s.nextMatch + 1);
  }

  lemma {:induction false} CanceledMirrors(b: B.Books, books: map<Symbol, State>, sym: Symbol, e: Event)
    requires Mirrors(b, books) && sym in books && Wf(books[sym]) && Legal(books[sym], e) && e.Canceled?
    ensures Mirrors(B.Receive(b, MessageOf(sym, e)), books[sym := After(books[sym], e)])
  {
    var s := books[sym];
    FindSide(s, e.id);
    var o := s.Find(e.id).value;
    assert RestOk(b, books, sym, e.id) && EntryOk(b, books, e.id);
    hide Wf, Get, Mirrors, B.RemoveRef, Reduce;
    ReduceMirrors(b, books, sym, e.id, e.qty, s.nextMatch);
    assert s.With(o.side, Reduce(s.On(o.side), e.id, e.qty)).(nextMatch := s.nextMatch) == After(s, e);
  }

  lemma {:induction false} ReplacedMirrors(b: B.Books, books: map<Symbol, State>, sym: Symbol, e: Event)
    requires Mirrors(b, books) && sym in books && Wf(books[sym]) && Legal(books[sym], e) && e.Replaced?
      && e.newId !in b.orders && 0 <= e.price < 0x1_0000_0000
    ensures Mirrors(B.Receive(b, MessageOf(sym, e)), books[sym := After(books[sym], e)])
  {
    var s := books[sym];
    FindSide(s, e.oldId);
    var o := s.Find(e.oldId).value;
    assert RestOk(b, books, sym, e.oldId) && EntryOk(b, books, e.oldId);
    RemoveMirrors(b, books, sym, e.oldId);
    ShrinkKeeps(s, e.side, e.oldId, 0);
    FindRemoved(s, e.oldId);
    var s1 := s.With(e.side, Remove(s.On(e.side), e.oldId));
    assert !WouldCross(s1, e.side, e.price);
    assert e.newId !in B.RemoveRef(b, e.oldId).orders;
    hide Wf, Get, Mirrors, B.RemoveRef, B.AddRef, Remove, Rest, WouldCross;
    AddMirrors(B.RemoveRef(b, e.oldId), books[sym := s1], sym, Order(e.newId, e.side, e.price, e.qty));
    assert books[sym := s1][sym := After(s, e)] == books[sym := After(s, e)];
  }

  /** Whatever a book does, the client that receives the message still mirrors all books. */
  lemma {:induction false} EventMirrors(b: B.Books, books: map<Symbol, State>, sym: Symbol, e: Event)
    requires Mirrors(b, books) && sym in books && Wf(books[sym]) && Legal(books[sym], e)
    requires forall id | Enters(e, id) :: id !in b.orders && 0 <= e.price < 0x1_0000_0000
    ensures Mirrors(B.Receive(b, MessageOf(sym, e)), books[sym := After(books[sym], e)])
  {
    match e {
      case Added(id, side, price, qty) =>
        assert Enters(e, id);
        hide Mirrors, Wf, B.AddRef, Rest, WouldCross;
        AddMirrors(b, books, sym, Order(id, side, price, qty));
      case Executed(_, _, _, _, _, _) => ExecutedMirrors(b, books, sym, e);
      case Canceled(_, _, _) => CanceledMirrors(b, books, sym, e);
      case Replaced(_, newId, _, _, _) =>
        assert Enters(e, newId);
        ReplacedMirrors(b, books, sym, e);
    }
  }

  // ---------------------------------------------------------------- snapshots

  lemma {:induction false} RefIsFound(q: seq<Order>, r: nat)
    requires r in Refs(q)
    ensures Get(q, r).Some?
  {
    if q[0].id != r {
      assert r in Refs(q[1..]);
      RefIsFound(q[1..], r);
    }
  }

  lemma {:induction false} OrderIsRef(q: seq<Order>, o: Order)
    requires o in q
    ensures o.id in Refs(q)
  {
    if q[0] != o { OrderIsRef(q[1..], o); }
  }

  lemma {:induction false} ShownIsShown(b: B.Books, q: seq<Order>)
    requires forall o | o in q :: o.id in b.orders && b.orders[o.id].qty == o.open
    requires forall r | r in Refs(q) :: r in b.orders
    ensures B.ShownRefs(b, Refs(q)) == Shown(q)
  {
    if q != [] {
      assert Refs(q)[1..] == Refs(q[1..]);
      assert q[0] in q;
      ShownIsShown(b, q[1..]);
    }
  }

  /** An order of a mirrored queue is known, with its quantity. */
  lemma {:induction false} QueueKnown(b: B.Books, books: map<Symbol, State>, sym: Symbol, side: Side, p: int)
    requires Mirrors(b, books) && Wf(BookOf(books, sym))
    ensures var q := AtPrice(BookOf(books, sym).On(side), p);
      && (forall r | r in Refs(q) :: r in b.orders)
      && (forall o | o in q :: o.id in b.orders && b.orders[o.id].qty == o.open)
  {
    var s := BookOf(books, sym);
    var q := AtPrice(s.On(side), p);
    AtPriceKeeps(s.On(side), side, p);
    forall r | r in Refs(q) ensures r in b.orders {
      RefIsFound(q, r);
      GetAtPrice(s.On(side), r, p);
      assert s.Find(r).Some?;
      assert sym in books;
      assert RestOk(b, books, sym, r);
    }
    forall o | o in q ensures o.id in b.orders && b.orders[o.id].qty == o.open {
      OrderIsRef(q, o);
      assert o in s.On(side);
      MemberIsFound(s.On(side), o);
      FoundOnSide(s, side, o);
      assert EntryOk(b, books, o.id);
      assert RestOk(b, books, sym, o.id);
    }
  }

  lemma {:induction false} FoundOnSide(s: State, side: Side, o: Order)
    requires Wf(s) && Get(s.On(side), o.id) == Some(o)
    ensures s.Find(o.id) == Some(o)
  {
  }

  lemma {:induction false} SideShown(b: B.Books, books: map<Symbol, State>, sym: Symbol, side: Side)
    requires Mirrors(b, books) && Wf(BookOf(books, sym))
    ensures var m := B.BookAt(b, sym).On(side);
      && B.Known(b, m)
      && B.ShownLevels(b, m, BestFirst(side, m.Keys)) == Levels(BookOf(books, sym).On(side))
  {
    var l, m := BookOf(books, sym).On(side), B.BookAt(b, sym).On(side);
    var ps := BestFirst(side, m.Keys);
    forall p, r | p in m && r in m[p] ensures r in b.orders {
      assert QueueOk(b, books, sym, side, p);
      QueueKnown(b, books, sym, side, p);
    }
    BestFirstOrders(side, m.Keys);
    assert PricesOf(l, ps) by {
      forall p ensures p in ps <==> AtPrice(l, p) != [] { assert QueueOk(b, books, sym, side, p); }
    }
    LevelsByPrice(l, side, ps);
    hide Wf, Levels, BestFirst, AtPrice, StrictlyOrdered;
    LevelsShown(b, books, sym, side, ps);
  }

  lemma {:induction false} LevelsShown(b: B.Books, books: map<Symbol, State>, sym: Symbol, side: Side, ps: seq<int>)
    requires Mirrors(b, books) && Wf(BookOf(books, sym)) && B.Known(b, B.BookAt(b, sym).On(side))
    ensures B.ShownLevels(b, B.BookAt(b, sym).On(side), ps) == LevelsAt(BookOf(books, sym).On(side), ps)
  {
    if ps != [] {
      LevelsShown(b, books, sym, side, ps[1..]);
      assert QueueOk(b, books, sym, side, ps[0]);
      QueueKnown(b, books, sym, side, ps[0]);
      hide Wf, AtPrice, Mirrors;
      ShownIsShown(b, AtPrice(BookOf(books, sym).On(side), ps[0]));
    }
  }

  /** A mirror shows what the book shows. */
  lemma {:induction false} MirrorShows(b: B.Books, books: map<Symbol, State>, sym: Symbol)
    requires Mirrors(b, books) && Wf(BookOf(books, sym))
    ensures B.SnapshotOf(b, sym) == Some(Snapshot(BookOf(books, sym)))
  {
    hide Wf, Mirrors, B.ShownLevels, BestFirst, Levels, B.Known;
    SideShown(b, books, sym, Buy);
    SideShown(b, books, sym, Sell);
  }
}
