/** Prices come off the wire in 32 bits, so after every run all resting orders have prices below 2^63. */
module EnginePrices {
  import opened Book
  import opened EngineSpec

  /** The prices fit a signed 64-bit number, as every price does. */
  predicate Cheap(l: seq<Order>) {
    forall o | o in l :: o.price < 0x8000_0000_0000_0000
  }

  predicate Priced(s: State) {
    Cheap(s.bids) && Cheap(s.asks)
  }

  predicate AllPriced(books: map<Symbol, State>) {
    forall sym | sym in books :: Priced(books[sym])
  }

  lemma {:induction false} ListsStayCheap(l: seq<Order>, o: Order, id: nat, open: nat)
    requires Cheap(l) && o.price < 0x8000_0000_0000_0000
    ensures Cheap(Insert(l, o)) && Cheap(Remove(l, id)) && Cheap(SetOpen(l, id, open))
  {
    if l != [] {
      assert l[0] in l && forall x | x in l[1..] :: x in l;
      ListsStayCheap(l[1..], o, id, open);
    }
  }

  lemma {:induction false} MatchStaysCheap(opp: seq<Order>, id: nat, side: Side, limit: int, qty: nat, matchId: nat)
    requires Cheap(opp)
    ensures Cheap(Match(opp, id, side, limit, qty, matchId).rest)
  {
    if opp != [] {
      assert opp[0] in opp && forall x | x in opp[1..] :: x in opp;
      if qty >= opp[0].open { MatchStaysCheap(opp[1..], id, side, limit, qty - opp[0].open, matchId + 1); }
    }
  }

  lemma {:induction false} TradeStaysPriced(s: State, id: nat, side: Side, limit: int, qty: nat)
    requires Priced(s)
    ensures Priced(Trade(s, id, side, limit, qty).s)
  {
    MatchStaysCheap(s.On(Opposite(side)), id, side, limit, qty, s.nextMatch);
    hide Match, Cheap;
  }

  lemma {:induction false} RestStaysPriced(s: State, id: nat, side: Side, price: int, qty: nat)
    requires Priced(s) && price < 0x8000_0000_0000_0000
    ensures Priced(Rest(s, id, side, price, qty))
  {
    ListsStayCheap(s.On(side), Order(id, side, price, qty), id, 0);
    hide Insert, Cheap;
  }

  lemma {:induction false} EnterStaysPriced(s: State, id: nat, side: Side, price: int, qty: nat)
    requires Priced(s) && price < 0x8000_0000_0000_0000
    ensures Priced(Enter(s, id, side, price, qty).s)
  {
    TradeStaysPriced(s, id, side, price, qty);
    hide Trade, Rest, Priced;
    var t := Trade(s, id, side, price, qty);
    if t.reply.filled < qty { RestStaysPriced(t.s, id, side, price, qty - t.reply.filled); }
  }

  lemma {:induction false} ApplyStaysPriced(s: State, c: Command)
    requires Priced(s) && (c.Add? || c.Replace? ==> c.price < 0x8000_0000_0000_0000)
    ensures Priced(Apply(s, c).s)
  {
    match c {
      case Add(id, side, price, qty) =>
        EnterStaysPriced(s, id, side, price, qty);
        hide Enter, Get, Priced;
      case Cancel(id, keep) =>
        if s.Find(id).Some? {
          ListsStayCheap(s.On(s.Find(id).value.side), Order(0, Buy, 0, 0), id, keep);
          hide Remove, SetOpen, Get, Cheap;
        }
      case Replace(oldId, newId, price, qty) =>
        if s.Find(oldId).Some? {
          var side := s.Find(oldId).value.side;
          ListsStayCheap(s.On(side), Order(0, Buy, 0, 0), oldId, 0);
          var s1 := s.With(side, Remove(s.On(side), oldId));
          assert Priced(s1) by { hide Remove, Get, Cheap; }
          EnterStaysPriced(s1, newId, side, price, qty);
          RestStaysPriced(s1, newId, side, price, qty);
          hide Enter, Rest, Remove, Get, Priced, WouldCross;
        }
      case Immediate(id, side, limit, qty) =>
        TradeStaysPriced(s, id, side, limit, qty);
    }
  }

  lemma {:induction false} OnBookStaysPriced(g: Engine, ts: nat, sym: Symbol, suppress: bool, c: Command)
    requires AllPriced(g.books) && (c.Add? || c.Replace? ==> c.price < 0x8000_0000_0000_0000)
    ensures AllPriced(OnBook(g, ts, sym, suppress, c).books)
  {
    assert Priced(EMPTY);
    ApplyStaysPriced(BookOf(g.books, sym), c);
    hide Apply, Priced, OnEvents;
  }

  lemma {:induction false} HandleStaysPriced(g: Engine, ts: nat, client: nat, m: Message)
    requires AllPriced(g.books) && OnWire(m)
    ensures AllPriced(Handle(g, ts, client, m).books)
  {
    assert Priced(EMPTY);
    hide Priced, OnBook, TokenView, Killed, Trade, CancelUnrested, Introduce, EnterLimit;
    match m {
      case EnterOrder(_, _, shares, stock, price, _, _) =>
        if SideOf(m.side).Some? {
          var side, ref := SideOf(m.side).value, g.tables.nextRef;
          var g1 := Accept(g, client, m, side);
          assert AllPriced(g1.books);
          OnBookStaysPriced(g1, ts, stock, false, Immediate(ref, side, EnterLimit(m, side), shares));
          OnBookStaysPriced(g1, ts, stock, false, Add(ref, side, price, shares));
        }
      case CancelOrder(token, keep) =>
        var key := KeyOf(client, token);
        if key in g.tables.live && g.tables.live[key] in g.tables.orders {
          var id := g.tables.live[key];
          OnBookStaysPriced(g, ts, g.tables.orders[id].symbol, false, Cancel(id, keep));
        }
      case ReplaceOrder(existing, _, shares, price) =>
        var key := KeyOf(client, existing);
        if key in g.tables.live && g.tables.live[key] in g.tables.orders {
          var id, t := g.tables.live[key], g.tables;
          OnBookStaysPriced(g.(tables := Swap(t, id, key, client, m)), ts, t.orders[id].symbol, true,
                            Replace(id, t.nextRef, price, shares));
        }
    }
  }

  /** After every run, all resting orders have prices that a market order's limit reaches. */
  lemma {:induction false} RunPriced(cs: seq<ClientCommand>)
    requires AllOnWire(cs)
    ensures AllPriced(RunEngine(cs).books)
  {
    if cs != [] {
      var c := cs[|cs| - 1];
      RunPriced(cs[..|cs| - 1]);
      hide Handle, AllPriced;
      HandleStaysPriced(RunEngine(cs[..|cs| - 1]), c.ts, c.client, c.msg);
    }
  }

  lemma {:induction false} BookPriced(books: map<Symbol, State>, sym: Symbol)
    requires AllPriced(books)
    ensures Priced(BookOf(books, sym))
  {
    assert Priced(EMPTY);
  }
}
