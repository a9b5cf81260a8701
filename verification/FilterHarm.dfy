/** The condition under which the symbol filter is transparent is exact: every harmful message can be made to show. */
module FilterHarm {
  import opened Book
  import opened Snapshots
  import opened EngineSpec
  import opened Itch
  import opened Builder
  import opened SymbolFilter

  // ---------------------------------------------------------------- what a harmful message leaves behind

  /**
   The two clients agree on everything but reference `r`: in the one that does not filter it is an order of another
   symbol, although it stands in a tracked queue.
   */
  ghost predicate Poisoned(b: Books, f: Books, symbols: seq<Symbol>, r: nat) {
    && (forall x | x != r :: SameOrder(b, f, symbols, x))
    && (forall sym :: SameBook(b, f, symbols, sym))
    && (forall sym, side, p, x | x != r :: CleanAt(b, symbols, sym, side, p, x))
    && r in b.orders && !Tracked(symbols, b.orders[r].symbol)
    && Queued(b, symbols, r)
    && (r in f.orders ==> Tracked(symbols, f.orders[r].symbol) && StandsAt(f, r))
  }

  lemma {:induction false} AddPoisons(b: Books, f: Books, symbols: seq<Symbol>, ref: nat, symbol: Symbol, side: Side,
      price: int, shares: nat)
    requires Part(b, f, symbols) && Tidy(b, symbols) && !Tracked(symbols, symbol) && Queued(b, symbols, ref)
    ensures Poisoned(AddRef(b, ref, symbol, side, price, shares), f, symbols, ref)
  {
    var b' := AddRef(b, ref, symbol, side, price, shares);
    forall x | x != ref ensures SameOrder(b', f, symbols, x) { assert SameOrder(b, f, symbols, x); }
    forall sym ensures SameBook(b', f, symbols, sym) { assert SameBook(b, f, symbols, sym); }
    hide In;
    forall sym, sd, p, x | x != ref ensures CleanAt(b', symbols, sym, sd, p, x) {
      InAfterAdd(b, ref, symbol, side, price, shares, sym, sd, p, x);
      assert CleanAt(b, symbols, sym, sd, p, x);
    }
    var sym, sd, p :| Tracked(symbols, sym) && In(b, sym, sd, p, ref);
    InAfterAdd(b, ref, symbol, side, price, shares, sym, sd, p, ref);
    FilteredStands(b, f, symbols, ref);
  }

  /** A live order of the filtered client is tracked and stands in its queue there. */
  lemma {:induction false} FilteredStands(b: Books, f: Books, symbols: seq<Symbol>, r: nat)
    requires Part(b, f, symbols) && Tidy(b, symbols)
    ensures r in f.orders ==> Tracked(symbols, f.orders[r].symbol) && StandsAt(f, r)
  {
    assert SameOrder(b, f, symbols, r) && StandsAt(b, r);
    if r in f.orders { assert SameBook(b, f, symbols, f.orders[r].symbol); }
  }

  lemma {:induction false} QueuedStays(b: Books, symbols: seq<Symbol>, ref: nat, r: nat)
    requires ref in b.orders && !Tracked(symbols, b.orders[ref].symbol) && Queued(b, symbols, r)
    ensures Queued(RemoveRef(b, ref), symbols, r)
  {
    hide In, RemoveRef;
    var sym, side, p :| Tracked(symbols, sym) && In(b, sym, side, p, r);
    InAfterRemove(b, ref, sym, side, p, r);
  }

  lemma {:induction false} HarmPoisons(b: Books, f: Books, symbols: seq<Symbol>, m: ItchMessage)
    requires Part(b, f, symbols) && Tidy(b, symbols) && Harmful(b, symbols, m)
    ensures Poisoned(Receive(b, m), Filter(f, symbols, m), symbols, Enters(b, m).value.ref)
  {
    if m.OrderReplace? {
      var o := b.orders[m.original];
      assert SameOrder(b, f, symbols, m.original);
      RemovePart(b, f, symbols, m.original);
      RemoveAbsent(f, m.original);
      hide Part, Tidy, AddRef, RemoveRef, Queued, Poisoned;
      RemoveTidy(b, symbols, m.original);
      QueuedStays(b, symbols, m.original, m.newRef);
      AddPoisons(RemoveRef(b, m.original), f, symbols, m.newRef, o.symbol, o.side, m.price, m.shares);
    } else {
      hide Part, Tidy, AddRef, Queued, Poisoned;
      match m {
        case AddOrder(ref, side, shares, stock, price) => AddPoisons(b, f, symbols, ref, stock, side, price, shares);
        case AddOrderMpid(ref, side, shares, stock, price, _) =>
          AddPoisons(b, f, symbols, ref, stock, side, price, shares);
      }
    }
  }

  // ---------------------------------------------------------------- entering many orders again

  /** Enters each of these references at one price of one symbol. */
  function ReAdd(xs: seq<nat>, t: Symbol, side: Side, price: nat): (ms: seq<ItchMessage>)
    ensures |ms| == |xs|
  {
    seq(|xs|, i requires 0 <= i < |xs| => AddOrder(xs[i], side, 1, t, price))
  }

  /** The client knows exactly these orders besides the old ones, and only one queue has grown. */
  ghost predicate Grown(c: Books, d: Books, xs: seq<nat>, t: Symbol, side: Side, price: int) {
    && (forall r :: r in d.orders <==> r in xs || r in c.orders)
    && (forall sym, sd, p, r :: In(d, sym, sd, p, r) ==
          (In(c, sym, sd, p, r) || (r in xs && sym == t && sd == side && p == price)))
  }

  lemma {:induction false} ReAddGrows(c: Books, xs: seq<nat>, t: Symbol, side: Side, price: nat)
    ensures Grown(c, ReceiveAll(c, ReAdd(xs, t, side, price)), xs, t, side, price)
  {
    if xs == [] {
      assert ReAdd(xs, t, side, price) == [];
    } else {
      var n := |xs| - 1;
      var ms, before := ReAdd(xs, t, side, price), ReAdd(xs[..n], t, side, price);
      assert ms[..n] == before && ms[n] == AddOrder(xs[n], side, 1, t, price);
      ReAddGrows(c, xs[..n], t, side, price);
      var d := ReceiveAll(c, before);
      var d' := AddRef(d, xs[n], t, side, price, 1);
      assert ReceiveAll(c, ms) == d';
      assert forall r :: r in xs <==> r in xs[..n] || r == xs[n];
      hide In, ReceiveAll, ReAdd;
      forall sym, sd, p, r ensures In(d', sym, sd, p, r) ==
        (In(c, sym, sd, p, r) || (r in xs && sym == t && sd == side && p == price))
      {
        InAfterAdd(d, xs[n], t, side, price, 1, sym, sd, p, r);
      }
    }
  }

  lemma {:induction false} ReAddPasses(f: Books, symbols: seq<Symbol>, xs: seq<nat>, t: Symbol, side: Side, price: nat)
    requires Tracked(symbols, t)
    ensures FilterAll(f, symbols, ReAdd(xs, t, side, price)) == ReceiveAll(f, ReAdd(xs, t, side, price))
  {
    if xs != [] {
      var n := |xs| - 1;
      assert ReAdd(xs, t, side, price)[..n] == ReAdd(xs[..n], t, side, price);
      ReAddPasses(f, symbols, xs[..n], t, side, price);
      hide AddRef;
    }
  }

  lemma {:induction false} ReAddHarmless(b: Books, symbols: seq<Symbol>, xs: seq<nat>, t: Symbol, side: Side,
      price: nat)
    requires Tracked(symbols, t)
    ensures AllHarmless(b, symbols, ReAdd(xs, t, side, price))
  {
    if xs != [] {
      var n := |xs| - 1;
      assert ReAdd(xs, t, side, price)[..n] == ReAdd(xs[..n], t, side, price);
      ReAddHarmless(b, symbols, xs[..n], t, side, price);
      hide ReceiveAll, Queued;
    }
  }

  /** The references of a symbol's queues, in some order. */
  lemma {:induction false} ListRefs(b: Books, t: Symbol) returns (xs: seq<nat>)
    ensures forall side, p, r :: In(b, t, side, p, r) ==> r in xs
    ensures forall r | r in xs :: exists side, p :: In(b, t, side, p, r)
  {
    var bids, asks := BookAt(b, t).bids, BookAt(b, t).asks;
    var rs := (set p, r | p in bids && r in bids[p] :: r) + (set p, r | p in asks && r in asks[p] :: r);
    xs := ListSet(rs);
    forall side, p, r | In(b, t, side, p, r) ensures r in rs { assert side.Buy? || side.Sell?; }
    forall r | r in xs ensures exists side, p :: In(b, t, side, p, r) {
      if r in (set p, r | p in bids && r in bids[p] :: r) {
        var p :| p in bids && r in bids[p];
        assert In(b, t, Buy, p, r);
      } else {
        var p :| p in asks && r in asks[p];
        assert In(b, t, Sell, p, r);
      }
    }
  }

  lemma {:induction false} ListSet(s: set<nat>) returns (xs: seq<nat>)
    ensures forall r :: r in xs <==> r in s
    decreases |s|
  {
    if s == {} {
      xs := [];
    } else {
      var x :| x in s;
      var rest := ListSet(s - {x});
      xs := rest + [x];
    }
  }

  // ---------------------------------------------------------------- what a snapshot shows

  predicate ShowsRef(os: seq<SnapshotOrder>, r: nat) {
    os != [] && (os[0].id == r || ShowsRef(os[1..], r))
  }

  predicate ShowsAt(ls: seq<SnapshotLevel>, p: int, r: nat) {
    ls != [] && ((ls[0].price == p && ShowsRef(ls[0].orders, r)) || ShowsAt(ls[1..], p, r))
  }

  lemma {:induction false} ShownRef(b: Books, refs: seq<nat>, r: nat)
    requires forall x | x in refs :: x in b.orders
    ensures ShowsRef(ShownRefs(b, refs), r) <==> r in refs
  {
    if refs != [] {
      ShownRef(b, refs[1..], r);
      var os := ShownRefs(b, refs);
      assert os[1..] == ShownRefs(b, refs[1..]);
      assert r in refs <==> r == refs[0] || r in refs[1..];
    }
  }

  lemma {:induction false} ShownAt(b: Books, m: map<int, seq<nat>>, ps: seq<int>, p: int, r: nat)
    requires Known(b, m)
    ensures ShowsAt(ShownLevels(b, m, ps), p, r) <==> p in ps && r in QueueOf(m, p)
  {
    if ps != [] {
      ShownAt(b, m, ps[1..], p, r);
      ShownRef(b, QueueOf(m, ps[0]), r);
      var ls := ShownLevels(b, m, ps);
      assert ls[1..] == ShownLevels(b, m, ps[1..]);
      assert p in ps <==> p == ps[0] || p in ps[1..];
      hide ShowsRef, ShownRefs, ShownLevels;
    }
  }

  /** A snapshot shows at each price exactly the references that stand there. */
  lemma {:induction false} SnapshotShows(b: Books, t: Symbol, side: Side, p: int, r: nat)
    requires SnapshotOf(b, t).Some?
    ensures var s := SnapshotOf(b, t).value;
      ShowsAt(if side.Buy? then s.bids else s.asks, p, r) <==> In(b, t, side, p, r)
  {
    var m := BookAt(b, t).On(side);
    BestFirstOrders(side, m.Keys);
    ShownAt(b, m, BestFirst(side, m.Keys), p, r);
    hide ShowsAt, ShownLevels, BestFirst, Known;
  }

  lemma {:induction false} AllKnown(b: Books, t: Symbol)
    requires forall side, p, r | In(b, t, side, p, r) :: r in b.orders
    ensures SnapshotOf(b, t).Some?
  {
    var book := BookAt(b, t);
    forall p, r | p in book.bids && r in book.bids[p] ensures r in b.orders { assert In(b, t, Buy, p, r); }
    forall p, r | p in book.asks && r in book.asks[p] ensures r in b.orders { assert In(b, t, Sell, p, r); }
    hide ShownLevels, BestFirst;
  }

  lemma {:induction false} OneUnknown(b: Books, t: Symbol, side: Side, p: int, r: nat)
    requires In(b, t, side, p, r) && r !in b.orders
    ensures SnapshotOf(b, t).None?
  {
    var m := BookAt(b, t).On(side);
    assert p in m && r in m[p] && !Known(b, m);
  }

  // ---------------------------------------------------------------- a continuation that shows the harm

  /** The reference is not live in the filtered client: enter everything else again, and only one look-up throws. */
  lemma {:induction false} ShowDead(b: Books, f: Books, symbols: seq<Symbol>, r: nat)
    returns (more: seq<ItchMessage>, t: Symbol)
    requires Poisoned(b, f, symbols, r) && r !in f.orders
    ensures Tracked(symbols, t) && AllHarmless(b, symbols, more)
    ensures SnapshotOf(FilterAll(f, symbols, more), t) != SnapshotOf(ReceiveAll(b, more), t)
  {
    var sym, side, p :| Tracked(symbols, sym) && In(b, sym, side, p, r);
    t := sym;
    assert SameBook(b, f, symbols, t);
    var all := ListRefs(b, t);
    var xs := ListSet(set x | x in all && x != r);
    more := ReAdd(xs, t, Buy, 1);
    ReAddHarmless(b, symbols, xs, t, Buy, 1);
    ReAddPasses(f, symbols, xs, t, Buy, 1);
    ReAddGrows(b, xs, t, Buy, 1);
    ReAddGrows(f, xs, t, Buy, 1);
    var b', f' := ReceiveAll(b, more), ReceiveAll(f, more);
    assert In(f, t, side, p, r);
    hide ReAdd, ReceiveAll, FilterAll, AllHarmless, In, SnapshotOf, Poisoned, SameBook;
    forall sd, q, x | In(b', t, sd, q, x) ensures x in b'.orders {
      if x != r && In(b, t, sd, q, x) { assert x in all; }
    }
    AllKnown(b', t);
    OneUnknown(f', t, side, p, r);
  }

  /** The reference is live in the filtered client: delete it and enter everything again at another price. */
  lemma {:induction false} ShowLive(b: Books, f: Books, symbols: seq<Symbol>, r: nat)
    returns (more: seq<ItchMessage>, t: Symbol)
    requires Poisoned(b, f, symbols, r) && r in f.orders
    ensures Tracked(symbols, t) && AllHarmless(b, symbols, more)
    ensures SnapshotOf(FilterAll(f, symbols, more), t) != SnapshotOf(ReceiveAll(b, more), t)
  {
    var e := f.orders[r];
    t := e.symbol;
    var p: nat := if e.price == 0 then 1 else 0;
    var b1, f1 := RemoveRef(b, r), RemoveRef(f, r);
    assert SameBook(b, f, symbols, t) && StandsAt(f, r);
    assert In(b, t, e.side, e.price, r) && BookAt(b1, t) == BookAt(b, t);
    hide *;
    var xs := ListRefs(b1, t);
    var again := ReAdd(xs, t, e.side, p);
    more := [OrderDelete(r)] + again;
    DeleteFirst(b, f, symbols, r, again);
    ReAddHarmless(b1, symbols, xs, t, e.side, p);
    ReAddPasses(f1, symbols, xs, t, e.side, p);
    ReAddGrows(b1, xs, t, e.side, p);
    ReAddGrows(f1, xs, t, e.side, p);
    ShowDifference(b, b1, f, f1, ReceiveAll(b1, again), ReceiveAll(f1, again), symbols, r, xs, p);
  }

  lemma {:induction false} DeleteFirst(b: Books, f: Books, symbols: seq<Symbol>, r: nat, again: seq<ItchMessage>)
    ensures var more := [OrderDelete(r)] + again;
      && ReceiveAll(b, more) == ReceiveAll(RemoveRef(b, r), again)
      && FilterAll(f, symbols, more) == FilterAll(RemoveRef(f, r), symbols, again)
      && (AllHarmless(b, symbols, more) <==> AllHarmless(RemoveRef(b, r), symbols, again))
  {
    var d := OrderDelete(r);
    if again == [] {
      assert [d] + again == [d] && [d][..0] == [];
      hide RemoveRef;
    } else {
      var n := |again| - 1;
      DeleteFirst(b, f, symbols, r, again[..n]);
      assert ([d] + again)[..n + 1] == [d] + again[..n];
      hide RemoveRef, Receive, Filter, Harmful;
    }
  }

  lemma {:induction false} ShowDifference(b: Books, b1: Books, f: Books, f1: Books, b2: Books, f2: Books,
      symbols: seq<Symbol>, r: nat, xs: seq<nat>, p: nat)
    requires r in f.orders && f1 == RemoveRef(f, r)
    requires var e := f.orders[r]; var t := e.symbol;
      && p != e.price && In(b1, t, e.side, e.price, r) && BookAt(b1, t) == BookAt(f, t)
      && Grown(b1, b2, xs, t, e.side, p) && Grown(f1, f2, xs, t, e.side, p)
      && (forall side, q, x :: In(b1, t, side, q, x) ==> x in xs)
    ensures SnapshotOf(f2, f.orders[r].symbol) != SnapshotOf(b2, f.orders[r].symbol)
  {
    var e := f.orders[r];
    var t := e.symbol;
    assert forall side, q, x :: In(f, t, side, q, x) <==> In(b1, t, side, q, x);
    hide SnapshotOf, In, RemoveRef;
    forall side, q, x | In(f2, t, side, q, x) ensures x in f2.orders { InAfterRemove(f, r, t, side, q, x); }
    AllKnown(b2, t);
    AllKnown(f2, t);
    InAfterRemove(f, r, t, e.side, e.price, r);
    SnapshotShows(b2, t, e.side, e.price, r);
    SnapshotShows(f2, t, e.side, e.price, r);
  }

  // ---------------------------------------------------------------- both halves

  /** However the stream goes on harmlessly, the filtered client shows the same book of every tracked symbol. */
  ghost predicate Transparent(symbols: seq<Symbol>, ms: seq<ItchMessage>) {
    forall more, sym | AllHarmless(ReceiveAll(NOTHING, ms), symbols, more)
      && Tracked(symbols, sym) :: SameShown(symbols, ms + more, sym)
  }

  lemma {:induction false} FilterSplit(b: Books, symbols: seq<Symbol>, ms: seq<ItchMessage>, more: seq<ItchMessage>)
    ensures FilterAll(b, symbols, ms + more) == FilterAll(FilterAll(b, symbols, ms), symbols, more)
    ensures AllHarmless(b, symbols, ms + more)
       <==> AllHarmless(b, symbols, ms) && AllHarmless(ReceiveAll(b, ms), symbols, more)
  {
    hide Filter, Harmful;
    if more == [] {
      assert ms + more == ms;
    } else {
      var n, all := |more| - 1, ms + more;
      assert all[..|all| - 1] == ms + more[..n];
      FilterSplit(b, symbols, ms, more[..n]);
      ReceiveSplit(b, ms, more[..n]);
    }
  }

  /** After harmless messages, a message keeps the filter transparent if and only if it is harmless itself. */
  lemma {:induction false} HarmIsExact(symbols: seq<Symbol>, ms: seq<ItchMessage>, m: ItchMessage)
    requires AllHarmless(NOTHING, symbols, ms)
    ensures Transparent(symbols, ms + [m]) <==> !Harmful(ReceiveAll(NOTHING, ms), symbols, m)
  {
    var all := ms + [m];
    assert all[..|ms|] == ms;
    if Harmful(ReceiveAll(NOTHING, ms), symbols, m) {
      HarmShows(symbols, ms, m);
    } else {
      assert AllHarmless(NOTHING, symbols, all);
      hide AllHarmless, ReceiveAll, Harmful, SameShown;
      forall more, sym | AllHarmless(ReceiveAll(NOTHING, all), symbols, more) && Tracked(symbols, sym)
        ensures SameShown(symbols, all + more, sym)
      {
        FilterSplit(NOTHING, symbols, all, more);
        FilterKeepsTracked(symbols, all + more, sym);
      }
    }
  }

  lemma {:induction false} HarmShows(symbols: seq<Symbol>, ms: seq<ItchMessage>, m: ItchMessage)
    requires AllHarmless(NOTHING, symbols, ms) && Harmful(ReceiveAll(NOTHING, ms), symbols, m)
    ensures !Transparent(symbols, ms + [m])
  {
    var all, b, f := ms + [m], ReceiveAll(NOTHING, ms), FilterAll(NOTHING, symbols, ms);
    assert all[..|ms|] == ms;
    assert ReceiveAll(NOTHING, all) == Receive(b, m) && FilterAll(NOTHING, symbols, all) == Filter(f, symbols, m);
    hide AllHarmless, ReceiveAll, FilterAll, Harmful, Part, Tidy, Poisoned, Receive, Filter, SnapshotOf, Enters;
    FilteredIsPart(symbols, ms);
    HarmPoisons(b, f, symbols, m);
    var b', f', r := Receive(b, m), Filter(f, symbols, m), Enters(b, m).value.ref;
    var more, t;
    if r in f'.orders { more, t := ShowLive(b', f', symbols, r); } else { more, t := ShowDead(b', f', symbols, r); }
    FilterSplit(NOTHING, symbols, all, more);
    ReceiveSplit(NOTHING, all, more);
    assert !SameShown(symbols, all + more, t);
  }

  /**
   The exact condition, for whole streams: the filter is transparent after every message of the stream if and only if no
   message enters an order of another symbol under a reference that stands in a tracked queue.
   */
  lemma {:induction false} FilterIff(symbols: seq<Symbol>, ms: seq<ItchMessage>)
    ensures AllHarmless(NOTHING, symbols, ms) <==> forall k | 0 <= k <= |ms| :: Transparent(symbols, ms[..k])
  {
    if ms == [] {
      NothingIsTransparent(symbols);
      assert forall k | 0 <= k <= 0 :: ms[..k] == [];
    } else {
      var n := |ms| - 1;
      var before := ms[..n];
      FilterIff(symbols, before);
      assert before + [ms[n]] == ms && ms[..|ms|] == ms;
      assert forall k | 0 <= k <= n :: before[..k] == ms[..k];
      if AllHarmless(NOTHING, symbols, before) { HarmIsExact(symbols, before, ms[n]); }
      hide Transparent, Harmful, ReceiveAll;
      if AllHarmless(NOTHING, symbols, ms) {
        forall k | 0 <= k <= |ms| ensures Transparent(symbols, ms[..k]) {
          if k <= n { assert Transparent(symbols, before[..k]); }
        }
      } else if AllHarmless(NOTHING, symbols, before) {
        assert !Transparent(symbols, ms[..|ms|]);
      } else {
        var k :| 0 <= k <= n && !Transparent(symbols, before[..k]);
        assert !Transparent(symbols, ms[..k]);
      }
    }
  }

  lemma {:induction false} NothingIsTransparent(symbols: seq<Symbol>)
    ensures Transparent(symbols, [])
  {
    assert ReceiveAll(NOTHING, []) == NOTHING;
    hide AllHarmless, SameShown, ReceiveAll;
    forall more, sym | AllHarmless(ReceiveAll(NOTHING, []), symbols, more) && Tracked(symbols, sym)
      ensures SameShown(symbols, [] + more, sym)
    {
      assert [] + more == more;
      FilterKeepsTracked(symbols, more, sym);
    }
  }

  lemma {:induction false} TwoMessages(b: Books, symbols: seq<Symbol>, m1: ItchMessage, m2: ItchMessage)
    ensures ReceiveAll(b, [m1, m2]) == Receive(Receive(b, m1), m2)
    ensures FilterAll(b, symbols, [m1, m2]) == Filter(Filter(b, symbols, m1), symbols, m2)
    ensures AllHarmless(b, symbols, [m1, m2])
       <==> !Harmful(b, symbols, m1) && !Harmful(Receive(b, m1), symbols, m2)
  {
    hide Receive, Filter, Harmful;
    assert [m1, m2][..1] == [m1] && [m1][..0] == [];
    assert ReceiveAll(b, [m1]) == Receive(b, m1) && FilterAll(b, symbols, [m1]) == Filter(b, symbols, m1);
    assert ReceiveAll(b, []) == b && AllHarmless(b, symbols, []);
    assert AllHarmless(b, symbols, [m1]) <==> !Harmful(b, symbols, m1);
  }

  /** The shortest case: the unfiltered client shows the other symbol's quantity in the tracked queue. */
  lemma {:induction false} ReusedReferenceBreaksFilter(a: Symbol, u: Symbol)
    requires a != u
    ensures var ms := [AddOrder(1, Buy, 10, a, 5), AddOrder(1, Buy, 20, u, 5)];
      && Tracked([a], a) && !AllHarmless(NOTHING, [a], ms)
      && SnapshotOf(FilterAll(NOTHING, [a], ms), a) != SnapshotOf(ReceiveAll(NOTHING, ms), a)
  {
    var m1, m2 := AddOrder(1, Buy, 10, a, 5), AddOrder(1, Buy, 20, u, 5);
    var ms := [m1, m2];
    TwoMessages(NOTHING, [a], m1, m2);
    var b1 := AddRef(NOTHING, 1, a, Buy, 5, 10);
    var b2 := AddRef(b1, 1, u, Buy, 5, 20);
    assert [] + [1] == [1] && BookAt(b1, a).bids == map[5 := [1]];
    assert Receive(NOTHING, m1) == Filter(NOTHING, [a], m1) == b1;
    assert Receive(b1, m2) == b2 && Filter(b1, [a], m2) == b1;
    hide ReceiveAll, FilterAll, AllHarmless;
    assert In(b1, a, Buy, 5, 1) && Harmful(b1, [a], m2);
    OneShown(b1, a, 10);
    OneShown(b2, a, 20);
  }

  lemma {:induction false} OneShown(b: Books, a: Symbol, qty: nat)
    requires BookAt(b, a) == SymbolBook(map[5 := [1]], map[]) && 1 in b.orders && b.orders[1].qty == qty
    ensures SnapshotOf(b, a) == Some(BookSnapshot([SnapshotLevel(5, [SnapshotOrder(1, qty)])], []))
  {
    var m := map[5 := [1]];
    assert m.Keys == {5};
    BestFirstOrders(Buy, m.Keys);
    var ps := BestFirst(Buy, m.Keys);
    assert forall p :: p in ps <==> p == 5;
    assert forall i | 0 <= i < |ps| :: ps[i] in ps;
    assert ps == [5];
    assert ShownRefs(b, [1]) == [SnapshotOrder(1, qty)];
    var none: map<int, seq<nat>> := map[];
    assert none.Keys == {} && BestFirst(Sell, {}) == [];
    assert [5][1..] == [] && ShownLevels(b, m, []) == [];
    assert Known(b, m) && Known(b, none) && QueueOf(m, 5) == [1];
    assert ShownLevels(b, m, ps) == [SnapshotLevel(5, [SnapshotOrder(1, qty)])];
    assert ShownLevels(b, none, []) == [];
    assert BookAt(b, a).bids == m;
  }
}
