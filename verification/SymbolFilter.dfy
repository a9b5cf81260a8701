/**
 Reading a message file with a symbol filter. Dropping the adds of other symbols leaves the books of the tracked symbols
 as they are, unless an order of another symbol is entered under a reference that stands in a tracked queue.
 */
module SymbolFilter {
  import opened Book
  import opened Snapshots
  import opened EngineSpec
  import opened Itch
  import opened Builder
  import Bytes

  predicate Tracked(symbols: seq<Symbol>, s: Symbol) {
    symbols == [] || s in symbols
  }

  predicate Dropped(symbols: seq<Symbol>, m: ItchMessage) {
    (m.AddOrder? || m.AddOrderMpid?) && !Tracked(symbols, m.stock)
  }

  function Filter(b: Books, symbols: seq<Symbol>, m: ItchMessage): Books {
    if Dropped(symbols, m) then b else Receive(b, m)
  }

  function FilterAll(b: Books, symbols: seq<Symbol>, ms: seq<ItchMessage>): Books {
    if ms == [] then b else Filter(FilterAll(b, symbols, ms[..|ms| - 1]), symbols, ms[|ms| - 1])
  }

  // ---------------------------------------------------------------- harm

  datatype Entering = Entering(ref: nat, symbol: Symbol)

  /** The order that a message enters, if it enters one. */
  function Enters(b: Books, m: ItchMessage): Option<Entering> {
    if m.AddOrder? || m.AddOrderMpid? then Some(Entering(m.ref, m.stock))
    else if m.OrderReplace? && m.original in b.orders then Some(Entering(m.newRef, b.orders[m.original].symbol))
    else None
  }

  /** The reference stands in the queue of a price. */
  predicate In(b: Books, sym: Symbol, side: Side, p: int, r: nat) {
    r in QueueOf(BookAt(b, sym).On(side), p)
  }

  /** The reference stands in a queue of a tracked symbol. */
  ghost predicate Queued(b: Books, symbols: seq<Symbol>, r: nat) {
    exists sym, side, p :: Tracked(symbols, sym) && In(b, sym, side, p, r)
  }

  /** The message enters an order of another symbol under a reference that stands in a tracked queue. */
  ghost predicate Harmful(b: Books, symbols: seq<Symbol>, m: ItchMessage) {
    var e := Enters(b, m);
    e.Some? && !Tracked(symbols, e.value.symbol) && Queued(b, symbols, e.value.ref)
  }

  /** No message of the stream is harmful to the client at its time. */
  ghost predicate AllHarmless(b: Books, symbols: seq<Symbol>, ms: seq<ItchMessage>) {
    ms != [] ==>
      AllHarmless(b, symbols, ms[..|ms| - 1]) && !Harmful(ReceiveAll(b, ms[..|ms| - 1]), symbols, ms[|ms| - 1])
  }

  // ---------------------------------------------------------------- the filtered books

  ghost predicate SameOrder(b: Books, f: Books, symbols: seq<Symbol>, r: nat) {
    if r in b.orders && Tracked(symbols, b.orders[r].symbol) then r in f.orders && f.orders[r] == b.orders[r]
      else r !in f.orders
  }

  ghost predicate SameBook(b: Books, f: Books, symbols: seq<Symbol>, sym: Symbol) {
    Tracked(symbols, sym) ==> BookAt(f, sym) == BookAt(b, sym)
  }

  /** `f` is `b` without the orders and books of the other symbols. */
  ghost predicate Part(b: Books, f: Books, symbols: seq<Symbol>) {
    && (forall r :: SameOrder(b, f, symbols, r))
    && (forall sym :: SameBook(b, f, symbols, sym))
  }

  lemma {:induction false} AddTracked(b: Books, f: Books, symbols: seq<Symbol>, ref: nat, symbol: Symbol, side: Side,
      price: int, shares: nat)
    requires Part(b, f, symbols) && Tracked(symbols, symbol)
    ensures Part(AddRef(b, ref, symbol, side, price, shares), AddRef(f, ref, symbol, side, price, shares), symbols)
  {
    var b', f' := AddRef(b, ref, symbol, side, price, shares), AddRef(f, ref, symbol, side, price, shares);
    assert SameBook(b, f, symbols, symbol);
    forall r ensures SameOrder(b', f', symbols, r) { assert SameOrder(b, f, symbols, r); }
    forall sym ensures SameBook(b', f', symbols, sym) { assert SameBook(b, f, symbols, sym); }
  }

  lemma {:induction false} AddOther(b: Books, f: Books, symbols: seq<Symbol>, ref: nat, symbol: Symbol, side: Side,
      price: int, shares: nat)
    requires Part(b, f, symbols) && !Tracked(symbols, symbol)
    requires ref !in b.orders || !Tracked(symbols, b.orders[ref].symbol)
    ensures Part(AddRef(b, ref, symbol, side, price, shares), f, symbols)
  {
    var b' := AddRef(b, ref, symbol, side, price, shares);
    forall r ensures SameOrder(b', f, symbols, r) { assert SameOrder(b, f, symbols, r); }
    forall sym ensures SameBook(b', f, symbols, sym) { assert SameBook(b, f, symbols, sym); }
  }

  lemma {:induction false} RemovePart(b: Books, f: Books, symbols: seq<Symbol>, ref: nat)
    requires Part(b, f, symbols)
    ensures Part(RemoveRef(b, ref), RemoveRef(f, ref), symbols)
  {
    hide Without;
    var b', f' := RemoveRef(b, ref), RemoveRef(f, ref);
    assert SameOrder(b, f, symbols, ref);
    if ref in b.orders { assert SameBook(b, f, symbols, b.orders[ref].symbol); }
    forall r ensures SameOrder(b', f', symbols, r) { assert SameOrder(b, f, symbols, r); }
    forall sym ensures SameBook(b', f', symbols, sym) { assert SameBook(b, f, symbols, sym); }
  }

  lemma {:induction false} ReducePart(b: Books, f: Books, symbols: seq<Symbol>, ref: nat, less: nat)
    requires Part(b, f, symbols)
    ensures Part(ReduceRef(b, ref, less), ReduceRef(f, ref, less), symbols)
  {
    RemovePart(b, f, symbols, ref);
    RemoveAbsent(f, ref);
    hide RemoveRef;
    var b', f' := ReduceRef(b, ref, less), ReduceRef(f, ref, less);
    assert SameOrder(b, f, symbols, ref);
    if ref in b.orders && less < b.orders[ref].qty {
      forall r ensures SameOrder(b', f', symbols, r) { assert SameOrder(b, f, symbols, r); }
      forall sym ensures SameBook(b', f', symbols, sym) { assert SameBook(b, f, symbols, sym); }
    }
  }

  lemma {:induction false} RemoveAbsent(b: Books, ref: nat)
    ensures ref !in b.orders ==> RemoveRef(b, ref) == b
  {
  }

  // ---------------------------------------------------------------- tidy queues

  /** In a tracked queue there is no reference of a live order of another symbol. */
  ghost predicate CleanAt(b: Books, symbols: seq<Symbol>, sym: Symbol, side: Side, p: int, r: nat) {
    Tracked(symbols, sym) && In(b, sym, side, p, r) && r in b.orders ==> Tracked(symbols, b.orders[r].symbol)
  }

  /** A live order stands in the queue of its price. */
  ghost predicate StandsAt(b: Books, r: nat) {
    r in b.orders ==> In(b, b.orders[r].symbol, b.orders[r].side, b.orders[r].price, r)
  }

  ghost predicate Tidy(b: Books, symbols: seq<Symbol>) {
    && (forall sym, side, p, r :: CleanAt(b, symbols, sym, side, p, r))
    && (forall r :: StandsAt(b, r))
  }

  lemma {:induction false} WithoutIs(refs: seq<nat>, ref: nat, r: nat)
    ensures r in Without(refs, ref) <==> r in refs && r != ref
  {
    if refs != [] {
      WithoutIs(refs[1..], ref, r);
      assert r in refs <==> r == refs[0] || r in refs[1..];
    }
  }

  /** What stands where after an order was added. */
  lemma {:induction false} InAfterAdd(b: Books, ref: nat, symbol: Symbol, side: Side, price: int, shares: nat,
      sym: Symbol, sd: Side, p: int, r: nat)
    ensures In(AddRef(b, ref, symbol, side, price, shares), sym, sd, p, r)
       <==> In(b, sym, sd, p, r) || (r == ref && sym == symbol && sd == side && p == price)
  {
  }

  /** What stands where after an order was removed. */
  lemma {:induction false} InAfterRemove(b: Books, ref: nat, sym: Symbol, sd: Side, p: int, r: nat)
    requires ref in b.orders
    ensures var o := b.orders[ref];
      In(RemoveRef(b, ref), sym, sd, p, r) ==
      (In(b, sym, sd, p, r) && !(r == ref && sym == o.symbol && sd == o.side && p == o.price))
  {
    hide Without;
    var o := b.orders[ref];
    WithoutIs(QueueOf(BookAt(b, o.symbol).On(o.side), o.price), ref, r);
  }

  lemma {:induction false} AddTidy(b: Books, symbols: seq<Symbol>, ref: nat, symbol: Symbol, side: Side, price: int,
      shares: nat)
    requires Tidy(b, symbols) && (Tracked(symbols, symbol) || !Queued(b, symbols, ref))
    ensures Tidy(AddRef(b, ref, symbol, side, price, shares), symbols)
  {
    var b' := AddRef(b, ref, symbol, side, price, shares);
    hide In;
    forall sym, sd, p, r ensures CleanAt(b', symbols, sym, sd, p, r) {
      InAfterAdd(b, ref, symbol, side, price, shares, sym, sd, p, r);
      assert CleanAt(b, symbols, sym, sd, p, r);
    }
    forall r ensures StandsAt(b', r) {
      assert StandsAt(b, r);
      if r in b'.orders {
        var o := b'.orders[r];
        InAfterAdd(b, ref, symbol, side, price, shares, o.symbol, o.side, o.price, r);
      }
    }
  }

  lemma {:induction false} RemoveTidy(b: Books, symbols: seq<Symbol>, ref: nat)
    requires Tidy(b, symbols)
    ensures Tidy(RemoveRef(b, ref), symbols)
  {
    if ref in b.orders {
      var b' := RemoveRef(b, ref);
      assert b'.orders == b.orders - {ref};
      hide In, RemoveRef;
      forall sym, sd, p, r ensures CleanAt(b', symbols, sym, sd, p, r) {
        InAfterRemove(b, ref, sym, sd, p, r);
        assert CleanAt(b, symbols, sym, sd, p, r);
      }
      forall r ensures StandsAt(b', r) {
        assert StandsAt(b, r);
        if r in b'.orders { InAfterRemove(b, ref, b.orders[r].symbol, b.orders[r].side, b.orders[r].price, r); }
      }
    }
  }

  lemma {:induction false} ReduceTidy(b: Books, symbols: seq<Symbol>, ref: nat, less: nat)
    requires Tidy(b, symbols)
    ensures Tidy(ReduceRef(b, ref, less), symbols)
  {
    RemoveTidy(b, symbols, ref);
    hide RemoveRef;
    var b' := ReduceRef(b, ref, less);
    if ref in b.orders && less < b.orders[ref].qty {
      forall sym, sd, p, r ensures CleanAt(b', symbols, sym, sd, p, r) { assert CleanAt(b, symbols, sym, sd, p, r); }
      forall r ensures StandsAt(b', r) { assert StandsAt(b, r); }
    }
  }

  lemma {:induction false} QueuedAfterRemove(b: Books, symbols: seq<Symbol>, ref: nat, r: nat)
    requires !Queued(b, symbols, r)
    ensures !Queued(RemoveRef(b, ref), symbols, r)
  {
    if ref in b.orders {
      hide In, RemoveRef;
      forall sym, sd, p | Tracked(symbols, sym) ensures !In(RemoveRef(b, ref), sym, sd, p, r) {
        InAfterRemove(b, ref, sym, sd, p, r);
      }
    }
  }

  // ---------------------------------------------------------------- one harmless message

  /** A reference that stands in no tracked queue is not that of a live tracked order. */
  lemma {:induction false} NotLive(b: Books, symbols: seq<Symbol>, r: nat)
    requires Tidy(b, symbols) && !Queued(b, symbols, r)
    ensures r !in b.orders || !Tracked(symbols, b.orders[r].symbol)
  {
    hide In;
    assert StandsAt(b, r);
  }

  lemma {:induction false} AddKeeps(b: Books, f: Books, symbols: seq<Symbol>, ref: nat, symbol: Symbol, side: Side,
      price: int, shares: nat)
    requires Part(b, f, symbols) && Tidy(b, symbols) && (Tracked(symbols, symbol) || !Queued(b, symbols, ref))
    ensures var b' := AddRef(b, ref, symbol, side, price, shares);
      var f' := if Tracked(symbols, symbol) then AddRef(f, ref, symbol, side, price, shares) else f;
      Part(b', f', symbols) && Tidy(b', symbols)
  {
    hide Part, Tidy, Queued, AddRef;
    AddTidy(b, symbols, ref, symbol, side, price, shares);
    if Tracked(symbols, symbol) {
      AddTracked(b, f, symbols, ref, symbol, side, price, shares);
    } else {
      NotLive(b, symbols, ref);
      AddOther(b, f, symbols, ref, symbol, side, price, shares);
    }
  }

  lemma {:induction false} ReplaceKeeps(b: Books, f: Books, symbols: seq<Symbol>, m: ItchMessage)
    requires Part(b, f, symbols) && Tidy(b, symbols) && !Harmful(b, symbols, m) && m.OrderReplace?
    ensures Part(Receive(b, m), Receive(f, m), symbols) && Tidy(Receive(b, m), symbols)
  {
    assert SameOrder(b, f, symbols, m.original);
    if m.original in b.orders {
      var o := b.orders[m.original];
      RemovePart(b, f, symbols, m.original);
      RemoveAbsent(f, m.original);
      hide Part, Tidy, AddRef, RemoveRef, Queued;
      RemoveTidy(b, symbols, m.original);
      if !Tracked(symbols, o.symbol) { QueuedAfterRemove(b, symbols, m.original, m.newRef); }
      AddKeeps(RemoveRef(b, m.original), RemoveRef(f, m.original), symbols, m.newRef, o.symbol, o.side, m.price,
        m.shares);
    }
  }

  lemma {:induction false} HarmlessKeeps(b: Books, f: Books, symbols: seq<Symbol>, m: ItchMessage)
    requires Part(b, f, symbols) && Tidy(b, symbols) && !Harmful(b, symbols, m)
    ensures Part(Receive(b, m), Filter(f, symbols, m), symbols) && Tidy(Receive(b, m), symbols)
  {
    hide Part, Tidy, Queued, AddRef, ReduceRef, RemoveRef;
    match m {
      case AddOrder(ref, side, shares, stock, price) => AddKeeps(b, f, symbols, ref, stock, side, price, shares);
      case AddOrderMpid(ref, side, shares, stock, price, _) => AddKeeps(b, f, symbols, ref, stock, side, price, shares);
      case OrderExecuted(ref, shares, _) =>
        ReducePart(b, f, symbols, ref, shares);
        ReduceTidy(b, symbols, ref, shares);
      case OrderExecutedWithPrice(ref, shares, _, _, _) =>
        ReducePart(b, f, symbols, ref, shares);
        ReduceTidy(b, symbols, ref, shares);
      case OrderCancel(ref, shares) =>
        ReducePart(b, f, symbols, ref, shares);
        ReduceTidy(b, symbols, ref, shares);
      case OrderDelete(ref) =>
        RemovePart(b, f, symbols, ref);
        RemoveTidy(b, symbols, ref);
      case OrderReplace(original, newRef, shares, price) => ReplaceKeeps(b, f, symbols, m);
      case Notice(_) =>
    }
  }

  lemma {:induction false} FilteredIsPart(symbols: seq<Symbol>, ms: seq<ItchMessage>)
    requires AllHarmless(NOTHING, symbols, ms)
    ensures var b, f := ReceiveAll(NOTHING, ms), FilterAll(NOTHING, symbols, ms);
      Part(b, f, symbols) && Tidy(b, symbols)
  {
    if ms == [] {
      assert forall sym, side, p, r :: CleanAt(NOTHING, symbols, sym, side, p, r);
      assert forall r :: StandsAt(NOTHING, r);
      assert forall r :: SameOrder(NOTHING, NOTHING, symbols, r);
      assert forall sym :: SameBook(NOTHING, NOTHING, symbols, sym);
    } else {
      var before, m := ms[..|ms| - 1], ms[|ms| - 1];
      hide Part, Tidy, Harmful, Receive, Filter;
      FilteredIsPart(symbols, before);
      HarmlessKeeps(ReceiveAll(NOTHING, before), FilterAll(NOTHING, symbols, before), symbols, m);
    }
  }

  // ---------------------------------------------------------------- snapshots

  lemma {:induction false} SideKnown(b: Books, f: Books, symbols: seq<Symbol>, sym: Symbol, side: Side)
    requires Tidy(b, symbols) && Part(b, f, symbols) && Tracked(symbols, sym)
    ensures var m := BookAt(b, sym).On(side);
      (Known(b, m) <==> Known(f, m))
        && (Known(b, m) ==> forall p, r | p in m && r in m[p] :: f.orders[r] == b.orders[r])
  {
    var m := BookAt(b, sym).On(side);
    forall p, r | p in m && r in m[p]
      ensures (r in b.orders <==> r in f.orders) && (r in b.orders ==> f.orders[r] == b.orders[r])
    {
      assert CleanAt(b, symbols, sym, side, p, r) && SameOrder(b, f, symbols, r);
    }
  }

  lemma {:induction false} RefsShownAlike(b: Books, f: Books, refs: seq<nat>)
    requires forall r | r in refs :: r in b.orders && r in f.orders && f.orders[r] == b.orders[r]
    ensures ShownRefs(b, refs) == ShownRefs(f, refs)
  {
    if refs != [] { RefsShownAlike(b, f, refs[1..]); }
  }

  lemma {:induction false} LevelsShownAlike(b: Books, f: Books, m: map<int, seq<nat>>, ps: seq<int>)
    requires Known(b, m) && Known(f, m) && forall p, r | p in m && r in m[p] :: f.orders[r] == b.orders[r]
    ensures ShownLevels(b, m, ps) == ShownLevels(f, m, ps)
  {
    if ps != [] {
      RefsShownAlike(b, f, QueueOf(m, ps[0]));
      LevelsShownAlike(b, f, m, ps[1..]);
    }
  }

  lemma {:induction false} SideShownAlike(b: Books, f: Books, symbols: seq<Symbol>, sym: Symbol, side: Side)
    requires Tidy(b, symbols) && Part(b, f, symbols) && Tracked(symbols, sym)
    ensures var m := BookAt(b, sym).On(side); var ps := BestFirst(side, m.Keys);
      (Known(b, m) <==> Known(f, m)) && (Known(b, m) ==> ShownLevels(b, m, ps) == ShownLevels(f, m, ps))
  {
    hide Tidy, Part, BestFirst;
    SideKnown(b, f, symbols, sym, side);
    var m := BookAt(b, sym).On(side);
    if Known(b, m) { LevelsShownAlike(b, f, m, BestFirst(side, m.Keys)); }
  }

  /** The filtered client shows what the other client shows; if one look-up throws, both do. */
  ghost predicate SameShown(symbols: seq<Symbol>, ms: seq<ItchMessage>, sym: Symbol) {
    SnapshotOf(FilterAll(NOTHING, symbols, ms), sym) == SnapshotOf(ReceiveAll(NOTHING, ms), sym)
  }

  /** For every stream without a harmful message, the filtered stream shows the same book of every tracked symbol. */
  lemma {:induction false} FilterKeepsTracked(symbols: seq<Symbol>, ms: seq<ItchMessage>, sym: Symbol)
    requires AllHarmless(NOTHING, symbols, ms) && Tracked(symbols, sym)
    ensures SameShown(symbols, ms, sym)
  {
    FilteredIsPart(symbols, ms);
    var b, f := ReceiveAll(NOTHING, ms), FilterAll(NOTHING, symbols, ms);
    assert SameBook(b, f, symbols, sym);
    hide Tidy, Part, Known, ShownLevels, ReceiveAll, FilterAll, BestFirst;
    SideShownAlike(b, f, symbols, sym, Buy);
    SideShownAlike(b, f, symbols, sym, Sell);
  }

  /** A client that knows orders of tracked symbols only. */
  ghost predicate TrackedOnly(b: Books, symbols: seq<Symbol>) {
    forall r | r in b.orders :: Tracked(symbols, b.orders[r].symbol)
  }

  /** The orders of other symbols are not kept, whatever the stream. */
  lemma {:induction false} FilterBoundsMemory(symbols: seq<Symbol>, ms: seq<ItchMessage>)
    ensures TrackedOnly(FilterAll(NOTHING, symbols, ms), symbols)
  {
    if ms != [] {
      FilterBoundsMemory(symbols, ms[..|ms| - 1]);
      hide TrackedOnly, Filter;
      TrackedStays(FilterAll(NOTHING, symbols, ms[..|ms| - 1]), symbols, ms[|ms| - 1]);
    }
  }

  lemma {:induction false} TrackedStays(f: Books, symbols: seq<Symbol>, m: ItchMessage)
    requires TrackedOnly(f, symbols)
    ensures TrackedOnly(Filter(f, symbols, m), symbols)
  {
    hide Without, PutQueue;
  }

  // ---------------------------------------------------------------- fresh references

  /** The message does not enter an order under the reference of another live order. */
  predicate Fresh(b: Books, m: ItchMessage) {
    && (m.AddOrder? || m.AddOrderMpid? ==> m.ref !in b.orders)
    && (m.OrderReplace? ==> m.newRef !in b.orders || m.newRef == m.original)
  }

  predicate AllFresh(ms: seq<ItchMessage>) {
    ms != [] ==> AllFresh(ms[..|ms| - 1]) && Fresh(ReceiveAll(NOTHING, ms[..|ms| - 1]), ms[|ms| - 1])
  }

  ghost predicate Holds(b: Books, sym: Symbol, side: Side, p: int, r: nat) {
    r in QueueOf(BookAt(b, sym).On(side), p) ==>
      r in b.orders && b.orders[r].symbol == sym && b.orders[r].side == side && b.orders[r].price == p
  }

  ghost predicate Live(b: Books) {
    forall sym, side, p, r :: Holds(b, sym, side, p, r)
  }

  lemma {:induction false} AddLive(b: Books, ref: nat, symbol: Symbol, side: Side, price: int, shares: nat)
    requires Live(b) && ref !in b.orders
    ensures Live(AddRef(b, ref, symbol, side, price, shares))
  {
    var b' := AddRef(b, ref, symbol, side, price, shares);
    forall sym, sd, p, r ensures Holds(b', sym, sd, p, r) { assert Holds(b, sym, sd, p, r); }
  }

  lemma {:induction false} RemoveLive(b: Books, ref: nat)
    requires Live(b)
    ensures Live(RemoveRef(b, ref))
  {
    if ref in b.orders {
      var b', o := RemoveRef(b, ref), b.orders[ref];
      hide Without;
      forall sym, sd, p, r ensures Holds(b', sym, sd, p, r) {
        assert Holds(b, sym, sd, p, r);
        WithoutIs(QueueOf(BookAt(b, o.symbol).On(o.side), o.price), ref, r);
      }
    }
  }

  lemma {:induction false} ReduceLive(b: Books, ref: nat, less: nat)
    requires Live(b)
    ensures Live(ReduceRef(b, ref, less))
  {
    RemoveLive(b, ref);
    hide RemoveRef;
    var b' := ReduceRef(b, ref, less);
    if ref in b.orders && less < b.orders[ref].qty {
      forall sym, sd, p, r ensures Holds(b', sym, sd, p, r) { assert Holds(b, sym, sd, p, r); }
    }
  }

  lemma {:induction false} ReceiveLive(b: Books, m: ItchMessage)
    requires Live(b) && Fresh(b, m)
    ensures Live(Receive(b, m))
  {
    hide Live, AddRef, ReduceRef;
    match m {
      case AddOrder(ref, side, shares, stock, price) => AddLive(b, ref, stock, side, price, shares);
      case AddOrderMpid(ref, side, shares, stock, price, _) => AddLive(b, ref, stock, side, price, shares);
      case OrderExecuted(ref, shares, _) => ReduceLive(b, ref, shares);
      case OrderExecutedWithPrice(ref, shares, _, _, _) => ReduceLive(b, ref, shares);
      case OrderCancel(ref, shares) => ReduceLive(b, ref, shares);
      case OrderDelete(ref) => RemoveLive(b, ref);
      case OrderReplace(original, newRef, shares, price) =>
        if original in b.orders {
          var o := b.orders[original];
          RemoveLive(b, original);
          AddLive(RemoveRef(b, original), newRef, o.symbol, o.side, price, shares);
        }
      case Notice(_) =>
    }
  }

  /** While queues hold live orders only, a fresh reference does no harm. */
  lemma {:induction false} FreshIsHarmless(b: Books, symbols: seq<Symbol>, m: ItchMessage)
    requires Live(b) && Fresh(b, m)
    ensures !Harmful(b, symbols, m)
  {
    var e := Enters(b, m);
    if e.Some? && !Tracked(symbols, e.value.symbol) {
      forall sym, side, p | Tracked(symbols, sym) ensures !In(b, sym, side, p, e.value.ref) {
        assert Holds(b, sym, side, p, e.value.ref);
      }
    }
  }

  /** Streams that enter orders under free references only are harmless, and no look-up throws. */
  lemma {:induction false} FreshStreams(symbols: seq<Symbol>, ms: seq<ItchMessage>, sym: Symbol)
    requires AllFresh(ms)
    ensures AllHarmless(NOTHING, symbols, ms) && SnapshotOf(ReceiveAll(NOTHING, ms), sym).Some?
  {
    FreshLives(symbols, ms);
    var b := ReceiveAll(NOTHING, ms);
    hide AllHarmless, AllFresh, ReceiveAll;
    forall side, p, r | p in BookAt(b, sym).On(side) && r in BookAt(b, sym).On(side)[p] ensures r in b.orders {
      assert Holds(b, sym, side, p, r);
    }
    assert Known(b, BookAt(b, sym).On(Buy)) && Known(b, BookAt(b, sym).On(Sell));
  }

  lemma {:induction false} FreshLives(symbols: seq<Symbol>, ms: seq<ItchMessage>)
    requires AllFresh(ms)
    ensures AllHarmless(NOTHING, symbols, ms) && Live(ReceiveAll(NOTHING, ms))
  {
    if ms == [] {
      assert forall sym, side, p, r :: Holds(NOTHING, sym, side, p, r);
    } else {
      var before, m := ms[..|ms| - 1], ms[|ms| - 1];
      hide Live, Fresh, Receive, Harmful;
      FreshLives(symbols, before);
      FreshIsHarmless(ReceiveAll(NOTHING, before), symbols, m);
      ReceiveLive(ReceiveAll(NOTHING, before), m);
    }
  }

  // ---------------------------------------------------------------- the loop

  /** The messages that decode, in order. */
  function Decoded(raw: seq<seq<Bytes.Byte>>): (ms: seq<ItchMessage>)
    ensures |ms| <= |raw|
  {
    if raw == [] then []
    else
      var n := |raw| - 1;
      var f := Decode(raw[n]);
      Decoded(raw[..n]) + if f.None? then [] else [f.value.msg]
  }

  function CountDropped(symbols: seq<Symbol>, ms: seq<ItchMessage>): nat {
    if ms == [] then 0 else CountDropped(symbols, ms[..|ms| - 1]) + if Dropped(symbols, ms[|ms| - 1]) then 1 else 0
  }

  datatype FileStats = FileStats(total: nat, skipped: nat, decoded: nat, filtered: nat)

  lemma {:induction false} OneMoreMessage(b: Books, symbols: seq<Symbol>, ms: seq<ItchMessage>, m: ItchMessage)
    ensures FilterAll(b, symbols, ms + [m]) == Filter(FilterAll(b, symbols, ms), symbols, m)
    ensures CountDropped(symbols, ms + [m]) == CountDropped(symbols, ms) + if Dropped(symbols, m) then 1 else 0
  {
    assert (ms + [m])[..|ms|] == ms;
  }

  /** Feeds a file's messages to a client, at most `cap` of them unless `cap` is zero. */
  method ProcessRaw(raw: seq<seq<Bytes.Byte>>, symbols: seq<Symbol>, cap: nat, builder: ItchBookBuilder)
    returns (stats: FileStats)
    modifies builder
    ensures var taken := if cap == 0 || cap > |raw| then raw else raw[..cap]; var ms := Decoded(taken);
      && builder.State() == FilterAll(old(builder.State()), symbols, ms)
      && stats == FileStats(|taken|, |taken| - |ms|, |ms|, CountDropped(symbols, ms))
  {
    hide Receive, Decode, FilterAll, CountDropped;
    var i, skipped, decoded, filtered := 0, 0, 0, 0;
    assert raw[..0] == [] && raw[..|raw|] == raw;
    assert FilterAll(old(builder.State()), symbols, []) == old(builder.State()) && CountDropped(symbols, []) == 0 by {
      NoMessages(old(builder.State()), symbols);
    }
    while (cap == 0 || i < cap) && i < |raw|
      invariant i <= |raw| && (cap != 0 ==> i <= cap)
      invariant builder.State() == FilterAll(old(builder.State()), symbols, Decoded(raw[..i]))
      invariant decoded == |Decoded(raw[..i])| && skipped + decoded == i
        && filtered == CountDropped(symbols, Decoded(raw[..i]))
    {
      assert raw[..i + 1][..i] == raw[..i];
      ghost var ms := Decoded(raw[..i]);
      var f := Decode(raw[i]);
      i := i + 1;
      if f.None? {
        skipped := skipped + 1;
        assert ms + [] == ms;
        continue;
      }
      decoded := decoded + 1;
      OneMoreMessage(old(builder.State()), symbols, ms, f.value.msg);
      if (f.value.msg.AddOrder? || f.value.msg.AddOrderMpid?) && !Tracked(symbols, f.value.msg.stock) {
        filtered := filtered + 1;
        continue;
      }
      builder.OnMessage(f.value.msg);
    }
    stats := FileStats(i, skipped, decoded, filtered);
  }

  lemma {:induction false} NoMessages(b: Books, symbols: seq<Symbol>)
    ensures FilterAll(b, symbols, []) == b && CountDropped(symbols, []) == 0
  {
  }
}
